/** Stored search results: written with their computed fields, and read back without them. */
module Payload {
  import opened Wrappers
  import opened Seqs
  import opened Domain
  import opened Segments
  import opened Itineraries
  import opened Executor
  import Zones
  import F = FieldNames

  type Fields = map<F.Name, Json>

  // -- what the record types accept ----------------------------------------------------

  predicate Letters(s: string, n: nat) {
    |s| == n && forall c :: c in s ==> 'A' <= c <= 'Z'
  }

  predicate CarrierCode(s: string) {
    |s| == 2 && forall c :: c in s ==> 'A' <= c <= 'Z' || '0' <= c <= '9'
  }

  predicate ValidSegment(db: ZoneDb, s: Segment) {
    && Letters(s.origin, 3) && Letters(s.destination, 3) && CarrierCode(s.marketingCarrier)
    && (s.operatingCarrier.Some? ==> CarrierCode(s.operatingCarrier.value))
    && s.technicalStops >= 0 && 0 <= s.departFold <= 1 && 0 <= s.arriveFold <= 1
    && CheckSegment(db, s).None?
  }

  predicate ValidLayover(l: Layover) {
    Letters(l.airport, 3) && CheckLayover(l).None?
  }

  predicate ValidLeg(db: ZoneDb, l: Leg) {
    && (forall s :: s in l.segments ==> ValidSegment(db, s))
    && (forall o :: o in l.layovers ==> ValidLayover(o))
    && CheckLeg(l).None?
  }

  predicate ValidOffer(db: ZoneDb, o: RawOffer) {
    o.legs != [] && (forall l :: l in o.legs ==> ValidLeg(db, l)) && Letters(o.price.currency, 3)
  }

  predicate ValidResult(db: ZoneDb, r: SearchResult) {
    (forall o :: o in r.offers ==> ValidOffer(db, o)) && r.pagesFetched >= 0 && r.httpCalls >= 0
  }

  // -- writing --------------------------------------------------------------------------

  function OptJson(o: Option<string>): Json { match o case None => JNull case Some(v) => JStr(v) }

  function CabinText(c: Cabin): string {
    match c
    case Economy => "economy"
    case PremiumEconomy => "premium_economy"
    case Business => "business"
    case First => "first"
  }

  function SegmentFields(s: Segment): Fields {
    map[F.SegmentId := JStr(s.segmentId), F.Origin := JStr(s.origin), F.Destination := JStr(s.destination),
        F.DepartUtc := JInt(s.departUtc), F.ArriveUtc := JInt(s.arriveUtc),
        F.DepartLocal := JInt(s.departLocal), F.ArriveLocal := JInt(s.arriveLocal),
        F.OriginTz := JStr(s.originTz), F.DestinationTz := JStr(s.destinationTz),
        F.MarketingCarrier := JStr(s.marketingCarrier), F.OperatingCarrier := OptJson(s.operatingCarrier),
        F.FlightNumber := JStr(s.flightNumber), F.OperatingFlightNumber := OptJson(s.operatingFlightNumber),
        F.Cabin := JStr(CabinText(s.cabin)), F.TechnicalStops := JInt(s.technicalStops), F.Duration := JInt(s.duration),
        F.DepartFold := JInt(s.departFold), F.ArriveFold := JInt(s.arriveFold)]
  }

  /** The computed flag needs both zones; a checked segment has them. */
  function AmbiguousFlag(db: ZoneDb, s: Segment): bool {
    s.originTz in db && s.destinationTz in db && HasUnusualReading(db, s)
  }

  function DumpSegment(db: ZoneDb): Segment -> Json {
    (s: Segment) => JObj(SegmentFields(s)[F.AmbiguousLocalTime := JBool(AmbiguousFlag(db, s))])
  }

  function DumpLayover(l: Layover): Json {
    JObj(map[F.Airport := JStr(l.airport), F.ArriveUtc := JInt(l.arriveUtc), F.DepartUtc := JInt(l.departUtc),
             F.Duration := JInt(l.duration), F.LocalWindow := JArr([JInt(l.localWindow.0), JInt(l.localWindow.1)]),
             F.RequiresAirportChange := JBool(l.requiresAirportChange),
             F.RequiresTerminalChange := JBool(l.requiresTerminalChange), F.IsSelfTransfer := JBool(l.isSelfTransfer)])
  }

  function LegFields(db: ZoneDb, l: Leg): Fields {
    map[F.Segments := JArr(Map(DumpSegment(db), l.segments)), F.Layovers := JArr(Map(DumpLayover, l.layovers))]
  }

  function DumpLeg(db: ZoneDb): Leg -> Json {
    (l: Leg) => JObj(LegFields(db, l)[F.TotalDuration := JInt(LegTotal(l))]
                                     [F.ConnectionCount := JInt(|l.segments| - 1)]
                                     [F.TechnicalStopCount := JInt(Sum(Map((s: Segment) => s.technicalStops, l.segments)))])
  }

  function DumpMoney(m: Money): Json {
    JObj(map[F.Amount := JInt(m.amount), F.Currency := JStr(m.currency)])
  }

  function OfferFields(db: ZoneDb, o: RawOffer): Fields {
    map[F.Provider := JStr(o.provider), F.ProviderOfferId := JStr(o.providerOfferId),
        F.Legs := JArr(Map(DumpLeg(db), o.legs)), F.Price := DumpMoney(o.price),
        F.OfferExpiresAt := (match o.offerExpiresAt case None => JNull case Some(t) => JInt(t)),
        F.RawPayloadRef := JStr(o.rawPayloadRef), F.ProviderBookingUrl := OptJson(o.providerBookingUrl)]
  }

  function DumpOffer(db: ZoneDb): RawOffer -> Json { (o: RawOffer) => JObj(OfferFields(db, o)) }

  function ResultFields(db: ZoneDb, r: SearchResult): Fields {
    map[F.Offers := JArr(Map(DumpOffer(db), r.offers)), F.Truncated := JBool(r.truncated),
        F.PagesFetched := JInt(r.pagesFetched), F.HttpCalls := JInt(r.httpCalls),
        F.RawPayloadRefs := JArr(Map((t: string) => JStr(t), r.rawPayloadRefs)),
        F.ProviderWarnings := JArr(Map((t: string) => JStr(t), r.providerWarnings))]
  }

  /** A result as it is stored: every field, computed ones included. */
  function Dump(db: ZoneDb, r: SearchResult): Json { JObj(ResultFields(db, r)) }

  // -- reading: strict objects, then the records' own checks --------------------------------

  function StrAt(o: Fields, k: F.Name): Option<string> {
    if k in o && o[k].JStr? then Some(o[k].s) else None
  }

  function IntAt(o: Fields, k: F.Name): Option<int> {
    if k in o && o[k].JInt? then Some(o[k].n) else None
  }

  function BoolAt(o: Fields, k: F.Name): Option<bool> {
    if k in o && o[k].JBool? then Some(o[k].b) else None
  }

  function ArrAt(o: Fields, k: F.Name): Option<seq<Json>> {
    if k in o && o[k].JArr? then Some(o[k].items) else None
  }

  /** An optional field: absent and null both read as nothing. */
  function OptStrAt(o: Fields, k: F.Name): Option<Option<string>> {
    if k !in o || o[k].JNull? then Some(None)
    else match StrAt(o, k) case None => None case Some(v) => Some(Some(v))
  }

  /** A field with a default. */
  function IntOr(o: Fields, k: F.Name, d: int): Option<int> {
    if k !in o then Some(d) else IntAt(o, k)
  }

  function BoolOr(o: Fields, k: F.Name, d: bool): Option<bool> {
    if k !in o then Some(d) else BoolAt(o, k)
  }

  function ArrOr(o: Fields, k: F.Name): Option<seq<Json>> {
    if k !in o then Some([]) else ArrAt(o, k)
  }

  function ReadCabin(s: string): Option<Cabin> {
    if s == "economy" then Some(Economy)
    else if s == "premium_economy" then Some(PremiumEconomy)
    else if s == "business" then Some(Business)
    else if s == "first" then Some(First)
    else None
  }

  const SEGMENT_NAMES: set<F.Name> := {
    F.SegmentId, F.Origin, F.Destination, F.DepartUtc, F.ArriveUtc, F.DepartLocal, F.ArriveLocal, F.OriginTz,
    F.DestinationTz, F.MarketingCarrier, F.OperatingCarrier, F.FlightNumber, F.OperatingFlightNumber, F.Cabin,
    F.TechnicalStops, F.Duration, F.DepartFold, F.ArriveFold }

  function ReadSegment(o: Fields): Option<Segment> {
    var segmentId :- StrAt(o, F.SegmentId);
    var origin :- StrAt(o, F.Origin);
    var destination :- StrAt(o, F.Destination);
    var departUtc :- IntAt(o, F.DepartUtc);
    var arriveUtc :- IntAt(o, F.ArriveUtc);
    var departLocal :- IntAt(o, F.DepartLocal);
    var arriveLocal :- IntAt(o, F.ArriveLocal);
    var originTz :- StrAt(o, F.OriginTz);
    var destinationTz :- StrAt(o, F.DestinationTz);
    var marketing :- StrAt(o, F.MarketingCarrier);
    var operating :- OptStrAt(o, F.OperatingCarrier);
    var flight :- StrAt(o, F.FlightNumber);
    var operatingFlight :- OptStrAt(o, F.OperatingFlightNumber);
    var cabinText :- StrAt(o, F.Cabin);
    var cabin :- ReadCabin(cabinText);
    var stops :- IntOr(o, F.TechnicalStops, 0);
    var duration :- IntAt(o, F.Duration);
    var departFold :- IntOr(o, F.DepartFold, 0);
    var arriveFold :- IntOr(o, F.ArriveFold, 0);
    Some(Segment(segmentId, origin, destination, departUtc, arriveUtc, departLocal, arriveLocal, originTz, destinationTz,
                 marketing, operating, flight, operatingFlight, cabin, stops, duration, departFold, arriveFold))
  }

  /** No unknown key, every field of its type, and the record's own checks passed. */
  function ParseSegment(db: ZoneDb): Json -> Option<Segment> {
    (j: Json) =>
      if !j.JObj? || !(j.fields.Keys <= SEGMENT_NAMES) then None
      else match ReadSegment(j.fields)
           case None => None
           case Some(s) => if ValidSegment(db, s) then Some(s) else None
  }

  const LAYOVER_NAMES: set<F.Name> := {
    F.Airport, F.ArriveUtc, F.DepartUtc, F.Duration, F.LocalWindow, F.RequiresAirportChange, F.RequiresTerminalChange,
    F.IsSelfTransfer }

  function ReadLayover(o: Fields): Option<Layover> {
    var airport :- StrAt(o, F.Airport);
    var arriveUtc :- IntAt(o, F.ArriveUtc);
    var departUtc :- IntAt(o, F.DepartUtc);
    var duration :- IntAt(o, F.Duration);
    var window :- ArrAt(o, F.LocalWindow);
    var airportChange :- BoolAt(o, F.RequiresAirportChange);
    var terminalChange :- BoolAt(o, F.RequiresTerminalChange);
    var selfTransfer :- BoolOr(o, F.IsSelfTransfer, false);
    if |window| == 2 && window[0].JInt? && window[1].JInt?
    then Some(Layover(airport, arriveUtc, departUtc, duration, (window[0].n, window[1].n), airportChange, terminalChange, selfTransfer))
    else None
  }

  function ParseLayover(j: Json): Option<Layover> {
    if !j.JObj? || !(j.fields.Keys <= LAYOVER_NAMES) then None
    else match ReadLayover(j.fields)
         case None => None
         case Some(l) => if ValidLayover(l) then Some(l) else None
  }

  function ParseLeg(db: ZoneDb): Json -> Option<Leg> {
    (j: Json) =>
      if !j.JObj? || !(j.fields.Keys <= {F.Segments, F.Layovers}) then None
      else
        var segmentItems :- ArrAt(j.fields, F.Segments);
        var layoverItems :- ArrOr(j.fields, F.Layovers);
        var segments :- AllSome(Map(ParseSegment(db), segmentItems));
        var layovers :- AllSome(Map(ParseLayover, layoverItems));
        if CheckLeg(Leg(segments, layovers)).None? then Some(Leg(segments, layovers)) else None
  }

  function ParseMoney(j: Json): Option<Money> {
    if !j.JObj? || !(j.fields.Keys <= {F.Amount, F.Currency}) then None
    else
      var amount :- IntAt(j.fields, F.Amount);
      var currency :- StrAt(j.fields, F.Currency);
      if Letters(currency, 3) then Some(Money(amount, currency)) else None
  }

  const OFFER_NAMES: set<F.Name> := {
    F.Provider, F.ProviderOfferId, F.Legs, F.Price, F.OfferExpiresAt, F.RawPayloadRef, F.ProviderBookingUrl }

  function ParseOffer(db: ZoneDb): Json -> Option<RawOffer> {
    (j: Json) =>
      if !j.JObj? || !(j.fields.Keys <= OFFER_NAMES) then None
      else
        var o := j.fields;
        var provider :- StrAt(o, F.Provider);
        var offerId :- StrAt(o, F.ProviderOfferId);
        var legItems :- ArrAt(o, F.Legs);
        var legs :- AllSome(Map(ParseLeg(db), legItems));
        var price :- (if F.Price in o then ParseMoney(o[F.Price]) else None);
        var expires :- (if F.OfferExpiresAt !in o || o[F.OfferExpiresAt].JNull? then Some(None)
                        else match IntAt(o, F.OfferExpiresAt) case None => None case Some(t) => Some(Some(t)));
        var payloadRef :- StrAt(o, F.RawPayloadRef);
        var url :- OptStrAt(o, F.ProviderBookingUrl);
        if legs == [] then None else Some(RawOffer(provider, offerId, legs, price, expires, payloadRef, url))
  }

  function ReadText(j: Json): Option<string> { if j.JStr? then Some(j.s) else None }

  const RESULT_NAMES: set<F.Name> := {
    F.Offers, F.Truncated, F.PagesFetched, F.HttpCalls, F.RawPayloadRefs, F.ProviderWarnings }

  /** The strict reading of a whole result. */
  function Parse(db: ZoneDb, j: Json): Option<SearchResult> {
    if !j.JObj? || !(j.fields.Keys <= RESULT_NAMES) then None
    else
      var o := j.fields;
      var offerItems :- ArrOr(o, F.Offers);
      var offers :- AllSome(Map(ParseOffer(db), offerItems));
      var truncated :- BoolAt(o, F.Truncated);
      var pages :- IntAt(o, F.PagesFetched);
      var calls :- IntAt(o, F.HttpCalls);
      var refItems :- ArrOr(o, F.RawPayloadRefs);
      var refs :- AllSome(Map(ReadText, refItems));
      var warningItems :- ArrOr(o, F.ProviderWarnings);
      var warnings :- AllSome(Map(ReadText, warningItems));
      if pages >= 0 && calls >= 0 then Some(SearchResult(offers, truncated, pages, calls, refs, warnings)) else None
  }

  // -- stripping ---------------------------------------------------------------------------

  const LEG_COMPUTED: set<F.Name> := {F.TotalDuration, F.ConnectionCount, F.TechnicalStopCount}

  function StripSegment(j: Json): Json {
    if j.JObj? then JObj(j.fields - {F.AmbiguousLocalTime}) else j
  }

  /** Rewrites the items of one array field, if there is one. */
  function MapItems(f: Json -> Json, o: Fields, k: F.Name): Fields {
    if k in o && o[k].JArr? then o[k := JArr(Map(f, o[k].items))] else o
  }

  function StripLeg(j: Json): Json {
    if j.JObj? then JObj(MapItems(StripSegment, j.fields - LEG_COMPUTED, F.Segments)) else j
  }

  function StripOffer(j: Json): Json {
    if j.JObj? then JObj(MapItems(StripLeg, j.fields, F.Legs)) else j
  }

  function Strip(j: Json): Json {
    if j.JObj? then JObj(MapItems(StripOffer, j.fields, F.Offers)) else j
  }

  method StripSegments(items: seq<Json>) returns (r: seq<Json>)
    ensures r == Map(StripSegment, items)
  {
    r := items;
    for i := 0 to |items|
      invariant |r| == |items|
      invariant forall k :: 0 <= k < |r| ==> r[k] == if k < i then StripSegment(items[k]) else items[k]
    {
      if r[i].JObj? {
        r := r[i := JObj(r[i].fields - {F.AmbiguousLocalTime})];
      }
    }
  }

  method StripLegs(items: seq<Json>) returns (r: seq<Json>)
    ensures r == Map(StripLeg, items)
  {
    r := items;
    for i := 0 to |items|
      invariant |r| == |items|
      invariant forall k :: 0 <= k < |r| ==> r[k] == if k < i then StripLeg(items[k]) else items[k]
    {
      if r[i].JObj? {
        var leg := r[i].fields - LEG_COMPUTED;
        if F.Segments in leg && leg[F.Segments].JArr? {
          var segments := StripSegments(leg[F.Segments].items);
          leg := leg[F.Segments := JArr(segments)];
        }
        r := r[i := JObj(leg)];
      }
    }
  }

  /** The nested loops that pop the computed keys. */
  method StripComputed(data: Json) returns (r: Json)
    ensures r == Strip(data)
  {
    r := data;
    if !data.JObj? || F.Offers !in data.fields || !data.fields[F.Offers].JArr? {
      return;
    }
    var items := data.fields[F.Offers].items;
    var out := items;
    for i := 0 to |items|
      invariant |out| == |items|
      invariant forall k :: 0 <= k < |out| ==> out[k] == if k < i then StripOffer(items[k]) else items[k]
    {
      if out[i].JObj? && F.Legs in out[i].fields && out[i].fields[F.Legs].JArr? {
        var legs := StripLegs(out[i].fields[F.Legs].items);
        out := out[i := JObj(out[i].fields[F.Legs := JArr(legs)])];
      }
    }
    assert out == Map(StripOffer, items);
    r := JObj(data.fields[F.Offers := JArr(out)]);
  }

  /** Reading a stored payload. */
  method Deserialize(db: ZoneDb, payload: Json) returns (r: Option<SearchResult>)
    ensures r == Parse(db, Strip(payload))
  {
    var data := StripComputed(payload);
    r := Parse(db, data);
  }

  // -- the round trip -----------------------------------------------------------------------

  /** A list written item by item reads back whole if every item does. */
  lemma {:induction false} AllBack<T(!new)>(s: seq<Option<T>>, xs: seq<T>)
    requires |s| == |xs| && forall i :: 0 <= i < |xs| ==> s[i] == Some(xs[i])
    ensures AllSome(s) == Some(xs)
  {
    if s != [] {
      AllBack(s[1..], xs[1..]);
      assert xs == [xs[0]] + xs[1..];
    }
  }

  lemma ListBack<T(!new)>(write: T -> Json, strip: Json -> Json, read: Json -> Option<T>, xs: seq<T>)
    requires forall x :: x in xs ==> read(strip(write(x))) == Some(x)
    ensures AllSome(Map(read, Map(strip, Map(write, xs)))) == Some(xs)
  {
    hide AllSome;
    AllBack(Map(read, Map(strip, Map(write, xs))), xs);
  }

  lemma PlainListBack<T(!new)>(write: T -> Json, read: Json -> Option<T>, xs: seq<T>)
    requires forall x :: x in xs ==> read(write(x)) == Some(x)
    ensures AllSome(Map(read, Map(write, xs))) == Some(xs)
  {
    hide AllSome;
    AllBack(Map(read, Map(write, xs)), xs);
  }

  lemma CabinBack(c: Cabin)
    ensures ReadCabin(CabinText(c)) == Some(c)
  {
    assert "economy"[0] == 'e' && "premium_economy"[0] == 'p' && "business"[0] == 'b' && "first"[0] == 'f';
  }

  lemma SegmentNames(s: Segment)
    ensures SegmentFields(s).Keys == SEGMENT_NAMES
  {
  }

  lemma SegmentPlaces(s: Segment)
    ensures var o := SegmentFields(s);
            && StrAt(o, F.SegmentId) == Some(s.segmentId)
            && StrAt(o, F.Origin) == Some(s.origin) && StrAt(o, F.Destination) == Some(s.destination)
            && StrAt(o, F.OriginTz) == Some(s.originTz) && StrAt(o, F.DestinationTz) == Some(s.destinationTz)
  {
    hide CabinText, OptJson;
  }

  lemma SegmentFlight(s: Segment)
    ensures var o := SegmentFields(s);
            && StrAt(o, F.MarketingCarrier) == Some(s.marketingCarrier) && StrAt(o, F.FlightNumber) == Some(s.flightNumber)
            && OptStrAt(o, F.OperatingCarrier) == Some(s.operatingCarrier)
            && OptStrAt(o, F.OperatingFlightNumber) == Some(s.operatingFlightNumber)
            && StrAt(o, F.Cabin) == Some(CabinText(s.cabin))
  {
    hide CabinText;
  }

  lemma SegmentNumbers(s: Segment)
    ensures var o := SegmentFields(s);
            && IntAt(o, F.DepartUtc) == Some(s.departUtc) && IntAt(o, F.ArriveUtc) == Some(s.arriveUtc)
            && IntAt(o, F.DepartLocal) == Some(s.departLocal) && IntAt(o, F.ArriveLocal) == Some(s.arriveLocal)
            && IntOr(o, F.TechnicalStops, 0) == Some(s.technicalStops) && IntAt(o, F.Duration) == Some(s.duration)
            && IntOr(o, F.DepartFold, 0) == Some(s.departFold) && IntOr(o, F.ArriveFold, 0) == Some(s.arriveFold)
  {
    hide CabinText, OptJson;
  }

  lemma SegmentFieldsBack(s: Segment)
    ensures ReadSegment(SegmentFields(s)) == Some(s)
    ensures SegmentFields(s).Keys == SEGMENT_NAMES
  {
    hide SegmentFields, StrAt, OptStrAt, IntAt, IntOr, CabinText, ReadCabin;
    SegmentNames(s);
    SegmentPlaces(s);
    SegmentFlight(s);
    SegmentNumbers(s);
    CabinBack(s.cabin);
  }

  lemma SegmentBack(db: ZoneDb, s: Segment)
    requires ValidSegment(db, s)
    ensures ParseSegment(db)(StripSegment(DumpSegment(db)(s))) == Some(s)
    ensures ParseSegment(db)(DumpSegment(db)(s)) == None
  {
    hide SegmentFields, ReadSegment, ValidSegment, AmbiguousFlag;
    SegmentFieldsBack(s);
    var j := DumpSegment(db)(s);
    assert j.fields - {F.AmbiguousLocalTime} == SegmentFields(s);
    assert F.AmbiguousLocalTime in j.fields.Keys;
  }

  lemma LayoverBack(l: Layover)
    requires ValidLayover(l)
    ensures ParseLayover(DumpLayover(l)) == Some(l)
  {
  }

  lemma LegFieldsStripped(db: ZoneDb, l: Leg)
    ensures DumpLeg(db)(l).fields - LEG_COMPUTED == LegFields(db, l)
    ensures !(DumpLeg(db)(l).fields.Keys <= {F.Segments, F.Layovers})
  {
    assert F.TotalDuration in DumpLeg(db)(l).fields.Keys;
  }

  lemma LegBack(db: ZoneDb, l: Leg)
    requires ValidLeg(db, l)
    ensures ParseLeg(db)(StripLeg(DumpLeg(db)(l))) == Some(l)
    ensures ParseLeg(db)(DumpLeg(db)(l)) == None
  {
    hide ValidSegment, CheckLeg, ValidLayover, ParseSegment, DumpSegment, ParseLayover, DumpLayover, LegTotal, AllSome;
    hide StripSegment;
    LegFieldsStripped(db, l);
    forall s | s in l.segments ensures ParseSegment(db)(StripSegment(DumpSegment(db)(s))) == Some(s) { SegmentBack(db, s); }
    forall o | o in l.layovers ensures ParseLayover(DumpLayover(o)) == Some(o) { LayoverBack(o); }
    ListBack(DumpSegment(db), StripSegment, ParseSegment(db), l.segments);
    PlainListBack(DumpLayover, ParseLayover, l.layovers);
  }

  lemma MoneyBack(m: Money)
    requires Letters(m.currency, 3)
    ensures ParseMoney(DumpMoney(m)) == Some(m)
  {
  }

  lemma OfferBack(db: ZoneDb, o: RawOffer)
    requires ValidOffer(db, o)
    ensures ParseOffer(db)(StripOffer(DumpOffer(db)(o))) == Some(o)
  {
    hide ValidLeg, ParseLeg, DumpLeg, ParseMoney, DumpMoney, StripLeg, OfferFields, StripOffer, DumpOffer, AllSome;
    forall l | l in o.legs ensures ParseLeg(db)(StripLeg(DumpLeg(db)(l))) == Some(l) { LegBack(db, l); }
    ListBack(DumpLeg(db), StripLeg, ParseLeg(db), o.legs);
    MoneyBack(o.price);
    OfferStripped(db, o);
  }

  /** Stripping an offer touches its legs only, and keeps every field readable. */
  lemma OfferStripped(db: ZoneDb, o: RawOffer)
    ensures var legs := Map(StripLeg, Map(DumpLeg(db), o.legs));
            var f := OfferFields(db, o)[F.Legs := JArr(legs)];
            && StripOffer(DumpOffer(db)(o)) == JObj(f) && f.Keys == OFFER_NAMES
            && StrAt(f, F.Provider) == Some(o.provider) && StrAt(f, F.ProviderOfferId) == Some(o.providerOfferId)
            && ArrAt(f, F.Legs) == Some(legs) && F.Price in f && f[F.Price] == DumpMoney(o.price)
            && StrAt(f, F.RawPayloadRef) == Some(o.rawPayloadRef)
            && OptStrAt(f, F.ProviderBookingUrl) == Some(o.providerBookingUrl)
            && F.OfferExpiresAt in f
            && f[F.OfferExpiresAt] == (match o.offerExpiresAt case None => JNull case Some(t) => JInt(t))
  {
    hide DumpLeg, StripLeg, DumpMoney;
  }

  lemma OfferNeedsStripping(db: ZoneDb, o: RawOffer)
    requires ValidOffer(db, o)
    ensures ParseOffer(db)(DumpOffer(db)(o)) == None
  {
    hide ValidLeg, ParseLeg, DumpLeg, ParseMoney, DumpMoney, StripLeg;
    LegBack(db, o.legs[0]);
    var plain := Map(ParseLeg(db), Map(DumpLeg(db), o.legs));
    assert plain[0] == None;
    OneMissing(plain, 0);
  }

  lemma {:induction false} OneMissing<T>(s: seq<Option<T>>, i: nat)
    requires i < |s| && s[i].None?
    ensures AllSome(s) == None
  {
    if i > 0 { OneMissing(s[1..], i - 1); }
  }

  lemma TextsBack(ts: seq<string>)
    ensures AllSome(Map(ReadText, Map((t: string) => JStr(t), ts))) == Some(ts)
  {
    PlainListBack((t: string) => JStr(t), ReadText, ts);
  }

  /** Stripping a result touches its offers only, and keeps every field readable. */
  lemma ResultStripped(db: ZoneDb, r: SearchResult, offers: seq<Json>)
    ensures var f := ResultFields(db, r)[F.Offers := JArr(offers)];
            && (offers == Map(StripOffer, Map(DumpOffer(db), r.offers)) ==> Strip(Dump(db, r)) == JObj(f))
            && (offers == Map(DumpOffer(db), r.offers) ==> Dump(db, r) == JObj(f))
            && f.Keys == RESULT_NAMES
            && ArrOr(f, F.Offers) == Some(offers) && BoolAt(f, F.Truncated) == Some(r.truncated)
            && IntAt(f, F.PagesFetched) == Some(r.pagesFetched) && IntAt(f, F.HttpCalls) == Some(r.httpCalls)
            && ArrOr(f, F.RawPayloadRefs) == Some(Map((t: string) => JStr(t), r.rawPayloadRefs))
            && ArrOr(f, F.ProviderWarnings) == Some(Map((t: string) => JStr(t), r.providerWarnings))
  {
    hide DumpOffer, StripOffer;
    var f := ResultFields(db, r);
    assert offers == Map(DumpOffer(db), r.offers) ==> f == f[F.Offers := JArr(offers)];
  }

  /** Every valid search result survives storage: stripping the computed fields and
      reading strictly gives back exactly what was written. */
  lemma RoundTrip(db: ZoneDb, r: SearchResult)
    requires ValidResult(db, r)
    ensures Parse(db, Strip(Dump(db, r))) == Some(r)
  {
    hide ValidOffer, ParseOffer, DumpOffer, StripOffer, ReadText, ResultFields, Strip, Dump;
    forall o | o in r.offers ensures ParseOffer(db)(StripOffer(DumpOffer(db)(o))) == Some(o) { OfferBack(db, o); }
    ListBack(DumpOffer(db), StripOffer, ParseOffer(db), r.offers);
    TextsBack(r.rawPayloadRefs);
    TextsBack(r.providerWarnings);
    ResultStripped(db, r, Map(StripOffer, Map(DumpOffer(db), r.offers)));
  }

  /** Read without stripping, a stored result is rejected exactly when it holds an offer. */
  lemma StrippingIsNeeded(db: ZoneDb, r: SearchResult)
    requires ValidResult(db, r)
    ensures Parse(db, Dump(db, r)).None? <==> r.offers != []
  {
    hide ValidOffer, ParseOffer, DumpOffer, StripOffer, ReadText, ResultFields, Dump;
    TextsBack(r.rawPayloadRefs);
    TextsBack(r.providerWarnings);
    ResultStripped(db, r, Map(DumpOffer(db), r.offers));
    var plain := Map(ParseOffer(db), Map(DumpOffer(db), r.offers));
    if r.offers != [] {
      OfferNeedsStripping(db, r.offers[0]);
      assert plain[0] == None;
      OneMissing(plain, 0);
    } else {
      assert plain == [];
    }
  }

  // -- whatever is read has been checked ----------------------------------------------------

  lemma SegmentsReadAreValid(db: ZoneDb, items: seq<Json>, s: Segment)
    requires AllSome(Map(ParseSegment(db), items)).Some? && s in AllSome(Map(ParseSegment(db), items)).value
    ensures ValidSegment(db, s)
  {
    hide ValidSegment, ReadSegment;
    var all := AllSome(Map(ParseSegment(db), items)).value;
    var i :| 0 <= i < |all| && all[i] == s;
    assert Map(ParseSegment(db), items)[i] == Some(s);
  }

  lemma LayoversReadAreValid(items: seq<Json>, o: Layover)
    requires AllSome(Map(ParseLayover, items)).Some? && o in AllSome(Map(ParseLayover, items)).value
    ensures ValidLayover(o)
  {
    hide ValidLayover, ReadLayover;
    var all := AllSome(Map(ParseLayover, items)).value;
    var i :| 0 <= i < |all| && all[i] == o;
    assert Map(ParseLayover, items)[i] == Some(o);
  }

  lemma LegReadIsValid(db: ZoneDb, j: Json)
    ensures ParseLeg(db)(j).Some? ==> ValidLeg(db, ParseLeg(db)(j).value)
  {
    hide ValidSegment, ValidLayover, ParseSegment, ParseLayover, CheckLeg;
    if ParseLeg(db)(j).Some? {
      var l := ParseLeg(db)(j).value;
      forall s | s in l.segments ensures ValidSegment(db, s) { SegmentsReadAreValid(db, ArrAt(j.fields, F.Segments).value, s); }
      forall o | o in l.layovers ensures ValidLayover(o) { LayoversReadAreValid(ArrOr(j.fields, F.Layovers).value, o); }
    }
  }

  lemma OfferReadIsValid(db: ZoneDb, j: Json)
    ensures ParseOffer(db)(j).Some? ==> ValidOffer(db, ParseOffer(db)(j).value)
  {
    hide ValidLeg, ParseLeg;
    if ParseOffer(db)(j).Some? {
      var items := ArrAt(j.fields, F.Legs).value;
      var legs := ParseOffer(db)(j).value.legs;
      forall l | l in legs ensures ValidLeg(db, l) {
        var i :| 0 <= i < |legs| && legs[i] == l;
        assert Map(ParseLeg(db), items)[i] == Some(l);
        LegReadIsValid(db, items[i]);
      }
    }
  }

  /** A stored segment reads back exactly if it is a possible one: airports of three capital letters, carriers of
      two capitals or digits, no negative stop count, folds of zero or one, and times that fit. */
  lemma SegmentBackIff(db: ZoneDb, s: Segment)
    ensures ParseSegment(db)(StripSegment(DumpSegment(db)(s))) == Some(s) <==>
            && |s.origin| == 3 == |s.destination| && |s.marketingCarrier| == 2
            && (forall c :: c in s.origin || c in s.destination ==> 'A' <= c <= 'Z')
            && (forall c :: c in s.marketingCarrier ==> 'A' <= c <= 'Z' || '0' <= c <= '9')
            && (s.operatingCarrier.Some? ==>
                  && |s.operatingCarrier.value| == 2
                  && forall c :: c in s.operatingCarrier.value ==> 'A' <= c <= 'Z' || '0' <= c <= '9')
            && s.technicalStops >= 0
            && (s.departFold == 0 || s.departFold == 1) && (s.arriveFold == 0 || s.arriveFold == 1)
            && CheckSegment(db, s).None?
  {
    hide SegmentFields, ReadSegment, AmbiguousFlag, CheckSegment;
    SegmentFieldsBack(s);
    assert DumpSegment(db)(s).fields - {F.AmbiguousLocalTime} == SegmentFields(s);
  }

  lemma LayoverBackIff(l: Layover)
    ensures ParseLayover(DumpLayover(l)) == Some(l) <==>
            && |l.airport| == 3 && (forall c :: c in l.airport ==> 'A' <= c <= 'Z')
            && l.arriveUtc < l.departUtc && l.arriveUtc + l.duration == l.departUtc
  {
    LayoverVerdict(l);
    if ValidLayover(l) { LayoverBack(l); }
  }

  /** No record accepts a key it does not know. */
  lemma UnknownKeyIsRefused(db: ZoneDb, o: Fields, k: F.Name)
    requires k in o
    ensures k !in SEGMENT_NAMES ==> ParseSegment(db)(JObj(o)) == None
    ensures k !in LAYOVER_NAMES ==> ParseLayover(JObj(o)) == None
    ensures k != F.Segments && k != F.Layovers ==> ParseLeg(db)(JObj(o)) == None
    ensures k != F.Amount && k != F.Currency ==> ParseMoney(JObj(o)) == None
    ensures k !in OFFER_NAMES ==> ParseOffer(db)(JObj(o)) == None
    ensures k !in RESULT_NAMES ==> Parse(db, JObj(o)) == None
  {
    UnknownInParts(db, o, k);
    UnknownInWhole(db, o, k);
  }

  lemma UnknownInParts(db: ZoneDb, o: Fields, k: F.Name)
    requires k in o
    ensures k !in SEGMENT_NAMES ==> ParseSegment(db)(JObj(o)) == None
    ensures k !in LAYOVER_NAMES ==> ParseLayover(JObj(o)) == None
    ensures k != F.Amount && k != F.Currency ==> ParseMoney(JObj(o)) == None
  {
    hide ReadSegment, ReadLayover, ValidSegment, ValidLayover, StrAt, IntAt, Letters, SEGMENT_NAMES, LAYOVER_NAMES;
    assert k in JObj(o).fields.Keys;
  }

  lemma UnknownInWhole(db: ZoneDb, o: Fields, k: F.Name)
    requires k in o
    ensures k != F.Segments && k != F.Layovers ==> ParseLeg(db)(JObj(o)) == None
    ensures k !in OFFER_NAMES ==> ParseOffer(db)(JObj(o)) == None
    ensures k !in RESULT_NAMES ==> Parse(db, JObj(o)) == None
  {
    hide CheckLeg, StrAt, IntAt, BoolAt, ArrAt, OptStrAt, ArrOr, AllSome, ParseMoney, OFFER_NAMES, RESULT_NAMES;
    assert k in JObj(o).fields.Keys;
  }

  /** A layover stored without the self-transfer mark is read as having none. */
  lemma UnmarkedLayover(l: Layover)
    requires ValidLayover(l)
    ensures var o := DumpLayover(l).fields;
            ParseLayover(JObj(o - {F.IsSelfTransfer})) == Some(l.(isSelfTransfer := false))
  {
    LayoverBack(l);
  }

  /** What a stored leg says of itself beside its parts. */
  lemma ComputedOfLeg(db: ZoneDb, l: Leg)
    ensures var o := DumpLeg(db)(l).fields;
            && o.Keys == {F.Segments, F.Layovers} + LEG_COMPUTED
            && (l.segments != [] ==>
                  o[F.TotalDuration] == JInt(l.segments[|l.segments| - 1].arriveUtc - l.segments[0].departUtc))
            && o[F.ConnectionCount].JInt? && o[F.ConnectionCount].n + 1 == |l.segments|
            && o[F.TechnicalStopCount] == JInt(Sum(Map((s: Segment) => s.technicalStops, l.segments)))
  {
  }

  /** A payload that is read at all, from whatever source, gives a valid result. */
  lemma ReadIsValid(db: ZoneDb, j: Json)
    ensures Parse(db, j).Some? ==> ValidResult(db, Parse(db, j).value)
  {
    hide ValidOffer, ParseOffer;
    if Parse(db, j).Some? {
      var items := ArrOr(j.fields, F.Offers).value;
      var offers := Parse(db, j).value.offers;
      forall o | o in offers ensures ValidOffer(db, o) {
        var i :| 0 <= i < |offers| && offers[i] == o;
        assert Map(ParseOffer(db), items)[i] == Some(o);
        OfferReadIsValid(db, items[i]);
      }
    }
  }

  // -- the executor's codec -----------------------------------------------------------------

  function CodecFor(db: ZoneDb): Codec {
    Codec(r => Dump(db, r), j => Parse(db, Strip(j)))
  }

  /** With this codec a configuration is well formed as soon as every answer of its provider is a valid record. */
  lemma CodecIsFaithful(db: ZoneDb, c: Config)
    requires c.codec == CodecFor(db) && |c.keys| == |c.tasks|
    requires forall i: nat, k: nat :: c.provider(i, k).Success? ==> ValidResult(db, c.provider(i, k).result)
    ensures WellFormed(c)
  {
    hide ValidResult, Dump, Parse, Strip;
    forall i: nat, k: nat | c.provider(i, k).Success?
      ensures c.codec.load(c.codec.dump(c.provider(i, k).result)) == Some(c.provider(i, k).result)
    {
      RoundTrip(db, c.provider(i, k).result);
    }
  }
}
