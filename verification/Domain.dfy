/**
 The records that travel from a provider to the report. Instants, wall-clock
 readings and durations are whole microseconds, prices whole cents, and digests
 are numbers (a fixed-width hexadecimal digest sorts like the number it spells).
 */
module Domain {
  import opened Wrappers
  import FieldNames

  const MINUTE := 60_000_000
  const HOUR := 3_600_000_000
  const DAY := 86_400_000_000

  datatype Cabin = Economy | PremiumEconomy | Business | First

  datatype Money = Money(amount: int, currency: string)

  /** One flight: its UTC instants, and the wall-clock readings, zones and folds they were resolved from. */
  datatype Segment = Segment(
    segmentId: string,
    origin: string,
    destination: string,
    departUtc: int,
    arriveUtc: int,
    departLocal: int,
    arriveLocal: int,
    originTz: string,
    destinationTz: string,
    marketingCarrier: string,
    operatingCarrier: Option<string>,
    flightNumber: string,
    operatingFlightNumber: Option<string>,
    cabin: Cabin,
    technicalStops: int,
    duration: int,
    departFold: int,
    arriveFold: int)

  datatype Layover = Layover(
    airport: string,
    arriveUtc: int,
    departUtc: int,
    duration: int,
    localWindow: (int, int),
    requiresAirportChange: bool,
    requiresTerminalChange: bool,
    isSelfTransfer: bool)

  datatype Leg = Leg(segments: seq<Segment>, layovers: seq<Layover>)

  datatype RawOffer = RawOffer(
    provider: string,
    providerOfferId: string,
    legs: seq<Leg>,
    price: Money,
    offerExpiresAt: Option<int>,
    rawPayloadRef: string,
    providerBookingUrl: Option<string>)

  /** Everything one provider search returns. */
  datatype SearchResult = SearchResult(
    offers: seq<RawOffer>,
    truncated: bool,
    pagesFetched: int,
    httpCalls: int,
    rawPayloadRefs: seq<string>,
    providerWarnings: seq<string>)

  datatype SearchRequest = SearchRequest(
    origin: string,
    destination: string,
    departureDate: int,
    cabin: Cabin,
    maxStops: int,
    adults: int,
    currency: string,
    layoverMin: int,
    layoverMax: int)

  datatype SearchTask = SearchTask(taskId: string, request: SearchRequest, originPriority: int, wave: int)

  datatype Json =
    | JNull
    | JBool(b: bool)
    | JInt(n: int)
    | JStr(s: string)
    | JArr(items: seq<Json>)
    | JObj(fields: map<FieldNames.Name, Json>)
}
