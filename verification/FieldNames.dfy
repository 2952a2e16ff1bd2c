/** The object keys a stored search result uses, and every other text a key could be. */
module FieldNames {

  datatype Name =
    // a search result and its offers
    | Offers | Truncated | PagesFetched | HttpCalls | RawPayloadRefs | ProviderWarnings
    | Provider | ProviderOfferId | Legs | Price | OfferExpiresAt | RawPayloadRef | ProviderBookingUrl
    | Amount | Currency
    // a leg
    | Segments | Layovers | TotalDuration | ConnectionCount | TechnicalStopCount
    // a segment
    | SegmentId | Origin | Destination | DepartUtc | ArriveUtc | DepartLocal | ArriveLocal
    | OriginTz | DestinationTz | MarketingCarrier | OperatingCarrier | FlightNumber | OperatingFlightNumber
    | Cabin | TechnicalStops | Duration | DepartFold | ArriveFold | AmbiguousLocalTime
    // a layover
    | Airport | LocalWindow | RequiresAirportChange | RequiresTerminalChange | IsSelfTransfer
    | Other(text: string)
}
