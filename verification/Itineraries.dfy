/** Legs and itineraries: their checks, their durations, and their content identities. */
module Itineraries {
  import opened Wrappers
  import opened Seqs
  import opened StableSort
  import opened Domain
  import opened Segments
  import Zones

  // -- legs ---------------------------------------------------------------------

  datatype LegError =
    | NoSegments
    | WrongLayoverCount
    | Disconnected(at: nat)
    | ArrivalMisaligned(at: nat)
    | DepartureMisaligned(at: nat)
    | TotalMismatch

  function SegmentTime(l: Leg): int {
    Sum(Map((s: Segment) => s.duration, l.segments))
  }

  function LayoverTime(l: Leg): int {
    Sum(Map((o: Layover) => o.duration, l.layovers))
  }

  /** From the first departure to the last arrival; never a sum of parts.
      (A leg without segments does not pass `CheckLeg`.) */
  function LegTotal(l: Leg): int {
    if l.segments == [] then 0
    else l.segments[|l.segments| - 1].arriveUtc - l.segments[0].departUtc
  }

  function FirstDisconnected(segments: seq<Segment>, i: nat): Option<LegError>
    decreases |segments| - i
  {
    if i + 1 >= |segments| then None
    else if segments[i].destination != segments[i + 1].origin then Some(Disconnected(i))
    else FirstDisconnected(segments, i + 1)
  }

  function FirstMisaligned(l: Leg, i: nat): Option<LegError>
    requires |l.layovers| == |l.segments| - 1
    decreases |l.segments| - i
  {
    if i >= |l.layovers| then None
    else if l.layovers[i].arriveUtc != l.segments[i].arriveUtc then Some(ArrivalMisaligned(i))
    else if l.layovers[i].departUtc != l.segments[i + 1].departUtc then Some(DepartureMisaligned(i))
    else FirstMisaligned(l, i + 1)
  }

  /** The leg's own checks, in order; its parts have already been checked one by one. */
  function CheckLeg(l: Leg): Option<LegError> {
    if l.segments == [] then Some(NoSegments)
    else if |l.layovers| != |l.segments| - 1 then Some(WrongLayoverCount)
    else if FirstDisconnected(l.segments, 0).Some? then FirstDisconnected(l.segments, 0)
    else if FirstMisaligned(l, 0).Some? then FirstMisaligned(l, 0)
    else if LegTotal(l) != SegmentTime(l) + LayoverTime(l) then Some(TotalMismatch)
    else None
  }

  ghost predicate PartsChecked(db: ZoneDb, l: Leg) {
    && (forall i :: 0 <= i < |l.segments| ==> CheckSegment(db, l.segments[i]).None?)
    && (forall i :: 0 <= i < |l.layovers| ==> CheckLayover(l.layovers[i]).None?)
  }

  predicate Aligned(l: Leg) {
    && |l.layovers| == |l.segments| - 1
    && forall i :: 0 <= i < |l.layovers| ==>
         l.layovers[i].arriveUtc == l.segments[i].arriveUtc && l.layovers[i].departUtc == l.segments[i + 1].departUtc
  }

  lemma {:induction false} NoneMisaligned(l: Leg, i: nat)
    requires |l.layovers| == |l.segments| - 1
    ensures FirstMisaligned(l, i).None? <==>
            forall k :: i <= k < |l.layovers| ==>
              l.layovers[k].arriveUtc == l.segments[k].arriveUtc
                  && l.layovers[k].departUtc == l.segments[k + 1].departUtc
    decreases |l.segments| - i
  {
    if i < |l.layovers| {
      NoneMisaligned(l, i + 1);
    }
  }

  ghost predicate Timed(l: Leg) {
    && (forall i :: 0 <= i < |l.segments| ==>
          l.segments[i].duration == l.segments[i].arriveUtc - l.segments[i].departUtc > 0)
    && (forall i :: 0 <= i < |l.layovers| ==>
          l.layovers[i].duration == l.layovers[i].departUtc - l.layovers[i].arriveUtc > 0)
  }

  /** The parts of an aligned leg telescope to its end points. */
  lemma {:induction false} Telescopes(l: Leg)
    requires l.segments != [] && Aligned(l) && Timed(l)
    ensures LegTotal(l) == SegmentTime(l) + LayoverTime(l) > 0
    decreases |l.segments|
  {
    var seg, lay := (s: Segment) => s.duration, (o: Layover) => o.duration;
    assert Map(seg, l.segments)[1..] == Map(seg, l.segments[1..]);
    if |l.segments| > 1 {
      var rest := Leg(l.segments[1..], l.layovers[1..]);
      assert Map(lay, l.layovers)[1..] == Map(lay, rest.layovers);
      Telescopes(rest);
    }
  }

  lemma CheckedPartsAreTimed(db: ZoneDb, l: Leg)
    requires PartsChecked(db, l)
    ensures Timed(l)
  {
    hide Zones.ToUtc;
    forall i | 0 <= i < |l.segments|
      ensures l.segments[i].duration == l.segments[i].arriveUtc - l.segments[i].departUtc > 0
    {
      assert CheckSegment(db, l.segments[i]).None?;
    }
    forall i | 0 <= i < |l.layovers|
      ensures l.layovers[i].duration == l.layovers[i].departUtc - l.layovers[i].arriveUtc > 0
    {
      assert CheckLayover(l.layovers[i]).None?;
    }
  }

  /** A leg of checked parts never fails its last check: alignment already implies it. */
  lemma TotalCheckIsRedundant(l: Leg)
    requires Timed(l)
    ensures CheckLeg(l) != Some(TotalMismatch)
    ensures CheckLeg(l).None? <==>
            && l.segments != [] && Aligned(l)
            && forall i :: 0 <= i < |l.segments| - 1 ==> l.segments[i].destination == l.segments[i + 1].origin
    ensures CheckLeg(l).None? ==> LegTotal(l) == SegmentTime(l) + LayoverTime(l) > 0
  {
    if l.segments != [] && |l.layovers| == |l.segments| - 1 {
      NoneMisaligned(l, 0);
      NeverTotal(l, 0);
      NeverTotalDisconnected(l.segments, 0);
      NoneDisconnected(l.segments, 0);
      if FirstMisaligned(l, 0).None? {
        Telescopes(l);
      }
    }
  }

  predicate AlignedBefore(l: Leg, i: nat)
    requires |l.layovers| == |l.segments| - 1
  {
    forall k :: 0 <= k < i && k < |l.layovers| ==>
      l.layovers[k].arriveUtc == l.segments[k].arriveUtc && l.layovers[k].departUtc == l.segments[k + 1].departUtc
  }

  predicate ConnectedBefore(segments: seq<Segment>, i: nat) {
    forall k :: 0 <= k < i && k < |segments| - 1 ==> segments[k].destination == segments[k + 1].origin
  }

  /** What the verdict on a leg means: the first thing wrong, and where. */
  lemma LegVerdict(l: Leg)
    ensures match CheckLeg(l)
            case Some(NoSegments) => l.segments == []
            case Some(WrongLayoverCount) => l.segments != [] && |l.segments| != |l.layovers| + 1
            case Some(Disconnected(i)) =>
              && |l.segments| == |l.layovers| + 1 && i + 1 < |l.segments| && ConnectedBefore(l.segments, i)
              && l.segments[i].destination != l.segments[i + 1].origin
            case Some(ArrivalMisaligned(i)) =>
              && |l.segments| == |l.layovers| + 1 && ConnectedBefore(l.segments, |l.segments|)
              && i < |l.layovers| && AlignedBefore(l, i) && l.layovers[i].arriveUtc != l.segments[i].arriveUtc
            case Some(DepartureMisaligned(i)) =>
              && |l.segments| == |l.layovers| + 1 && ConnectedBefore(l.segments, |l.segments|)
              && i < |l.layovers| && AlignedBefore(l, i) && l.layovers[i].arriveUtc == l.segments[i].arriveUtc
              && l.layovers[i].departUtc != l.segments[i + 1].departUtc
            case Some(TotalMismatch) =>
              && l.segments != [] && LegTotal(l) != SegmentTime(l) + LayoverTime(l)
            case None =>
              && |l.segments| == |l.layovers| + 1 && ConnectedBefore(l.segments, |l.segments|)
              && AlignedBefore(l, |l.layovers|) && LegTotal(l) == SegmentTime(l) + LayoverTime(l)
  {
    hide SegmentTime, LayoverTime, LegTotal;
    if l.segments != [] && |l.layovers| == |l.segments| - 1 {
      FirstBreak(l.segments, 0);
      FirstGap(l, 0);
    }
  }

  lemma {:induction false} FirstBreak(segments: seq<Segment>, i: nat)
    requires ConnectedBefore(segments, i)
    ensures match FirstDisconnected(segments, i)
            case Some(Disconnected(k)) =>
              k + 1 < |segments| && ConnectedBefore(segments, k) && segments[k].destination != segments[k + 1].origin
            case Some(_) => false
            case None => ConnectedBefore(segments, |segments|)
    decreases |segments| - i
  {
    if i + 1 < |segments| && segments[i].destination == segments[i + 1].origin { FirstBreak(segments, i + 1); }
  }

  lemma {:induction false} FirstGap(l: Leg, i: nat)
    requires |l.layovers| == |l.segments| - 1 && AlignedBefore(l, i)
    ensures match FirstMisaligned(l, i)
            case Some(ArrivalMisaligned(k)) =>
              k < |l.layovers| && AlignedBefore(l, k) && l.layovers[k].arriveUtc != l.segments[k].arriveUtc
            case Some(DepartureMisaligned(k)) =>
              && k < |l.layovers| && AlignedBefore(l, k) && l.layovers[k].arriveUtc == l.segments[k].arriveUtc
              && l.layovers[k].departUtc != l.segments[k + 1].departUtc
            case Some(_) => false
            case None => AlignedBefore(l, |l.layovers|)
    decreases |l.segments| - i
  {
    if i < |l.layovers| && l.layovers[i].arriveUtc == l.segments[i].arriveUtc
       && l.layovers[i].departUtc == l.segments[i + 1].departUtc {
      FirstGap(l, i + 1);
    }
  }

  lemma {:induction false} NeverTotal(l: Leg, i: nat)
    requires |l.layovers| == |l.segments| - 1
    ensures FirstMisaligned(l, i) != Some(TotalMismatch)
    decreases |l.segments| - i
  {
    if i < |l.layovers| { NeverTotal(l, i + 1); }
  }

  lemma {:induction false} NoneDisconnected(segments: seq<Segment>, i: nat)
    ensures FirstDisconnected(segments, i).None? <==>
            forall k :: i <= k < |segments| - 1 ==> segments[k].destination == segments[k + 1].origin
    decreases |segments| - i
  {
    if i + 1 < |segments| { NoneDisconnected(segments, i + 1); }
  }

  lemma {:induction false} NeverTotalDisconnected(segments: seq<Segment>, i: nat)
    ensures FirstDisconnected(segments, i) != Some(TotalMismatch)
    decreases |segments| - i
  {
    if i + 1 < |segments| { NeverTotalDisconnected(segments, i + 1); }
  }

  // -- itineraries ----------------------------------------------------------------

  datatype CodeshareReference = CodeshareReference(marketingCarrier: string, flightNumber: Option<string>)

  datatype NormalizedItinerary = NormalizedItinerary(
    itineraryId: nat,
    provider: string,
    legs: seq<Leg>,
    priceOriginal: Money,
    priceEur: Money,
    bookingUrl: Option<string>,
    offerExpiresAt: Option<int>,
    shapeKey: nat,
    duplicateCount: nat,
    alsoOfferedBy: seq<CodeshareReference>,
    fareAsOf: int,
    fareOptions: seq<Money>)

  ghost predicate LegsChecked(db: ZoneDb, legs: seq<Leg>) {
    forall i :: 0 <= i < |legs| ==> PartsChecked(db, legs[i]) && CheckLeg(legs[i]).None?
  }

  function TotalDuration(legs: seq<Leg>): int {
    if legs == [] then 0 else LegTotal(legs[0]) + TotalDuration(legs[1..])
  }

  function StopCount(legs: seq<Leg>): int {
    if legs == [] then 0 else |legs[0].segments| - 1 + StopCount(legs[1..])
  }

  function AllSegments(legs: seq<Leg>): seq<Segment> {
    if legs == [] then [] else legs[0].segments + AllSegments(legs[1..])
  }

  function AllLayovers(legs: seq<Leg>): seq<Layover> {
    if legs == [] then [] else legs[0].layovers + AllLayovers(legs[1..])
  }

  /** The departure airport of the first flight. (Checked legs have one.) */
  function FirstOrigin(legs: seq<Leg>): string {
    if legs == [] || legs[0].segments == [] then "" else legs[0].segments[0].origin
  }

  /** The arrival airport of the last flight of the last leg. */
  function LastDestination(legs: seq<Leg>): string {
    if legs == [] || legs[|legs| - 1].segments == [] then ""
    else
      var last := legs[|legs| - 1].segments;
      last[|last| - 1].destination
  }

  lemma MapConcat<T, U>(f: T -> U, s: seq<T>, t: seq<T>)
    ensures Map(f, s + t) == Map(f, s) + Map(f, t)
  {
  }

  /** An itinerary's total is the time spent in all its flights and all its layovers, and it is positive. */
  lemma {:induction false} TotalIsSumOfParts(db: ZoneDb, legs: seq<Leg>)
    requires LegsChecked(db, legs)
    ensures TotalDuration(legs) == Sum(Map((s: Segment) => s.duration, AllSegments(legs)))
                                   + Sum(Map((o: Layover) => o.duration, AllLayovers(legs)))
    ensures legs != [] ==> TotalDuration(legs) > 0
  {
    var seg, lay := (s: Segment) => s.duration, (o: Layover) => o.duration;
    if legs != [] {
      var rest := legs[1..];
      forall i | 0 <= i < |rest| ensures PartsChecked(db, rest[i]) && CheckLeg(rest[i]).None? {
        assert rest[i] == legs[i + 1];
      }
      TotalIsSumOfParts(db, rest);
      CheckedPartsAreTimed(db, legs[0]);
      TotalCheckIsRedundant(legs[0]);
      MapConcat(seg, legs[0].segments, AllSegments(rest));
      MapConcat(lay, legs[0].layovers, AllLayovers(rest));
      SumConcat(Map(seg, legs[0].segments), Map(seg, AllSegments(rest)));
      SumConcat(Map(lay, legs[0].layovers), Map(lay, AllLayovers(rest)));
    }
  }

  // -- identities ------------------------------------------------------------------

  /** What the shape digest is taken over: places and instants, not carriers or flight numbers. */
  datatype ShapeText = ShapeText(segments: seq<(string, string, int, int)>, cabin: Cabin, adults: int)

  /** What the itinerary digest is taken over. */
  datatype IdText = IdText(shapeKey: nat, carriers: seq<string>, amount: int, currency: string)

  /** The digests, as injective functions of the text they are taken over. */
  datatype Digests = Digests(shape: ShapeText -> nat, itinerary: IdText -> nat)

  ghost predicate CollisionFree(h: Digests) {
    && (forall a, b :: h.shape(a) == h.shape(b) ==> a == b)
    && (forall a, b :: h.itinerary(a) == h.itinerary(b) ==> a == b)
  }

  function Shapes(segments: seq<Segment>): seq<(string, string, int, int)> {
    Map((s: Segment) => (s.origin, s.destination, s.departUtc, s.arriveUtc), segments)
  }

  function ShapeKey(h: Digests, legs: seq<Leg>, cabin: Cabin, adults: int): nat {
    h.shape(ShapeText(Shapes(AllSegments(legs)), cabin, adults))
  }

  function Carriers(legs: seq<Leg>): seq<string> {
    Map((s: Segment) => s.marketingCarrier, AllSegments(legs))
  }

  function ItineraryId(h: Digests, shapeKey: nat, carriers: seq<string>, price: Money): nat {
    h.itinerary(IdText(shapeKey, Sort(StringLeq, carriers), price.amount, price.currency))
  }

  /** The identity depends on which carriers take part, not on how they are listed. */
  lemma IdIgnoresCarrierOrder(h: Digests, shapeKey: nat, a: seq<string>, b: seq<string>, price: Money)
    requires multiset(a) == multiset(b)
    ensures ItineraryId(h, shapeKey, a, price) == ItineraryId(h, shapeKey, b, price)
  {
    StringOrder();
    SortIgnoresArrival(StringLeq, a, b);
  }

  /** Equal identities mean equal shapes, equal bags of carriers, and equal prices. */
  lemma IdIdentifies(h: Digests, k1: nat, a: seq<string>, p1: Money, k2: nat, b: seq<string>, p2: Money)
    requires CollisionFree(h)
    ensures ItineraryId(h, k1, a, p1) == ItineraryId(h, k2, b, p2)
       <==> k1 == k2 && multiset(a) == multiset(b) && p1 == p2
  {
    if k1 == k2 && multiset(a) == multiset(b) && p1 == p2 {
      IdIgnoresCarrierOrder(h, k1, a, b, p1);
    }
    SortBag(StringLeq, a);
    SortBag(StringLeq, b);
  }

  /** The same flights: places and instants pairwise, whatever the carriers, the numbers and the legs. */
  predicate SameFlights(a: seq<Segment>, b: seq<Segment>) {
    |a| == |b| && forall i :: 0 <= i < |a| ==>
      && a[i].origin == b[i].origin && a[i].destination == b[i].destination
      && a[i].departUtc == b[i].departUtc && a[i].arriveUtc == b[i].arriveUtc
  }

  function CarrierOf(s: Segment): string { s.marketingCarrier }

  /** One shape means the same flights, cabin and number of adults; one identity means the same marketing
      carriers, as a bag, and the same price besides. */
  lemma IdentityIff(h: Digests, a: seq<Leg>, b: seq<Leg>, c: Cabin, d: Cabin, m: int, n: int, p: Money, q: Money)
    requires CollisionFree(h)
    ensures ShapeKey(h, a, c, m) == ShapeKey(h, b, d, n)
       <==> SameFlights(AllSegments(a), AllSegments(b)) && c == d && m == n
    ensures ItineraryId(h, ShapeKey(h, a, c, m), Carriers(a), p) == ItineraryId(h, ShapeKey(h, b, d, n), Carriers(b), q)
       <==> && SameFlights(AllSegments(a), AllSegments(b)) && c == d && m == n && p == q
            && multiset(Map(CarrierOf, AllSegments(a))) == multiset(Map(CarrierOf, AllSegments(b)))
  {
    hide ItineraryId;
    var s, t := AllSegments(a), AllSegments(b);
    assert Carriers(a) == Map(CarrierOf, s) && Carriers(b) == Map(CarrierOf, t);
    ShapesIff(s, t);
    IdIdentifies(h, ShapeKey(h, a, c, m), Carriers(a), p, ShapeKey(h, b, d, n), Carriers(b), q);
  }

  lemma ShapesIff(s: seq<Segment>, t: seq<Segment>)
    ensures Shapes(s) == Shapes(t) <==> SameFlights(s, t)
  {
    if Shapes(s) == Shapes(t) {
      forall i | 0 <= i < |s|
        ensures && s[i].origin == t[i].origin && s[i].destination == t[i].destination
                && s[i].departUtc == t[i].departUtc && s[i].arriveUtc == t[i].arriveUtc
      {
        assert Shapes(s)[i] == Shapes(t)[i];
      }
    }
  }

  // -- normalization ------------------------------------------------------------------

  datatype BuildError = DurationInvariantViolated(leg: nat) | UnsupportedCurrency(currency: string)

  function FirstBrokenLeg(legs: seq<Leg>, i: nat): Option<nat>
    decreases |legs| - i
  {
    if i >= |legs| then None
    else if SegmentTime(legs[i]) + LayoverTime(legs[i]) != LegTotal(legs[i]) then Some(i)
    else FirstBrokenLeg(legs, i + 1)
  }

  function BuildNormalized(h: Digests, offer: RawOffer, adults: int, cabin: Cabin, fareAsOf: int)
    : Result<NormalizedItinerary, BuildError>
  {
    if FirstBrokenLeg(offer.legs, 0).Some? then Err(DurationInvariantViolated(FirstBrokenLeg(offer.legs, 0).value))
    else if offer.price.currency != "EUR" then Err(UnsupportedCurrency(offer.price.currency))
    else
      var shapeKey := ShapeKey(h, offer.legs, cabin, adults);
      Ok(NormalizedItinerary(
           ItineraryId(h, shapeKey, Carriers(offer.legs), offer.price),
           offer.provider, offer.legs, offer.price, offer.price,
           offer.providerBookingUrl, offer.offerExpiresAt, shapeKey, 1, [], fareAsOf, []))
  }

  lemma {:induction false} NoBrokenLeg(db: ZoneDb, legs: seq<Leg>, i: nat)
    requires LegsChecked(db, legs)
    ensures FirstBrokenLeg(legs, i).None?
    decreases |legs| - i
  {
    if i < |legs| {
      CheckedPartsAreTimed(db, legs[i]);
      TotalCheckIsRedundant(legs[i]);
      NoBrokenLeg(db, legs, i + 1);
    }
  }

  /** For offers made of checked legs the builder's own duration assertion never
      fires: it fails exactly on a price that is not in euros. */
  lemma BuilderFailsOnlyOnCurrency(db: ZoneDb, h: Digests, offer: RawOffer, adults: int, cabin: Cabin, fareAsOf: int)
    requires LegsChecked(db, offer.legs)
    ensures var r := BuildNormalized(h, offer, adults, cabin, fareAsOf);
            if offer.price.currency == "EUR" then r.Ok? else r == Err(UnsupportedCurrency(offer.price.currency))
  {
    NoBrokenLeg(db, offer.legs, 0);
  }

  /** For any offer: the builder names the first leg whose parts do not add up, else a currency that is not the
      euro, and otherwise copies the offer and computes its digests. */
  lemma BuilderVerdict(h: Digests, offer: RawOffer, adults: int, cabin: Cabin, fareAsOf: int)
    ensures var sums := (l: Leg) => SegmentTime(l) + LayoverTime(l) == LegTotal(l);
            match BuildNormalized(h, offer, adults, cabin, fareAsOf)
            case Err(DurationInvariantViolated(i)) =>
              i < |offer.legs| && !sums(offer.legs[i]) && forall k :: 0 <= k < i ==> sums(offer.legs[k])
            case Err(UnsupportedCurrency(other)) =>
              (forall k :: 0 <= k < |offer.legs| ==> sums(offer.legs[k])) && other == offer.price.currency != "EUR"
            case Ok(it) =>
              && (forall k :: 0 <= k < |offer.legs| ==> sums(offer.legs[k]))
              && it.legs == offer.legs && it.provider == offer.provider && it.bookingUrl == offer.providerBookingUrl
              && it.offerExpiresAt == offer.offerExpiresAt && it.fareAsOf == fareAsOf
              && it.priceEur == it.priceOriginal == offer.price && it.priceEur.currency == "EUR"
              && it.duplicateCount == 1 && it.alsoOfferedBy == [] && it.fareOptions == []
              && it.shapeKey == ShapeKey(h, offer.legs, cabin, adults)
              && it.itineraryId == ItineraryId(h, it.shapeKey, Carriers(offer.legs), offer.price)
  {
    hide SegmentTime, LayoverTime, LegTotal, ShapeKey, ItineraryId;
    FirstBrokenIs(offer.legs, 0);
  }

  lemma {:induction false} FirstBrokenIs(legs: seq<Leg>, i: nat)
    ensures match FirstBrokenLeg(legs, i)
            case Some(k) =>
              && i <= k < |legs| && SegmentTime(legs[k]) + LayoverTime(legs[k]) != LegTotal(legs[k])
              && forall m :: i <= m < k ==> SegmentTime(legs[m]) + LayoverTime(legs[m]) == LegTotal(legs[m])
            case None => forall m :: i <= m < |legs| ==> SegmentTime(legs[m]) + LayoverTime(legs[m]) == LegTotal(legs[m])
    decreases |legs| - i
  {
    hide SegmentTime, LayoverTime, LegTotal;
    if i < |legs| { FirstBrokenIs(legs, i + 1); }
  }
}
