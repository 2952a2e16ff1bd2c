/** The seven independent rules, the engine that runs them all, and what acceptance guarantees the scorer. */
module Validation {
  import opened Wrappers
  import opened Seqs
  import opened Domain
  import opened Outcomes
  import opened Segments
  import opened Itineraries
  import opened Scoring
  import Zones

  datatype Rejection = Rejection(code: RejectionCode, ruleId: string)

  type RuleResult = Option<Rejection>

  function CheckStopCount(it: NormalizedItinerary, req: SearchRequest): RuleResult {
    if StopCount(it.legs) > req.maxStops then Some(Rejection(TooManyStops, "stop_count")) else None
  }

  function FirstBadLayover(layovers: seq<Layover>, req: SearchRequest): RuleResult {
    if layovers == [] then None
    else if layovers[0].duration < req.layoverMin then Some(Rejection(LayoverTooShort, "layover_window"))
    else if layovers[0].duration > req.layoverMax then Some(Rejection(LayoverTooLong, "layover_window"))
    else FirstBadLayover(layovers[1..], req)
  }

  /** A direct itinerary is exempt as a matter of rule, before any layover is looked at. */
  function CheckLayoverWindow(it: NormalizedItinerary, req: SearchRequest): RuleResult {
    if StopCount(it.legs) == 0 then None else FirstBadLayover(AllLayovers(it.legs), req)
  }

  function CheckSelfTransfer(it: NormalizedItinerary): RuleResult {
    if exists l :: l in AllLayovers(it.legs) && l.isSelfTransfer
    then Some(Rejection(SelfTransfer, "self_transfer")) else None
  }

  function KindRejection(kind: Zones.Kind): RuleResult {
    match kind
    case Normal => None
    case Ambiguous => Some(Rejection(AmbiguousLocalTime, "local_time_validity"))
    case Imaginary => Some(Rejection(NonexistentLocalTime, "local_time_validity"))
  }

  /** How a wall-clock reading is classified in the zone behind a key. */
  type Classifier = (string, int) -> Zones.Kind

  function ZoneClassifier(db: ZoneDb): Classifier {
    (key: string, wall: int) => if key in db then Zones.ClassifyLocal(db[key], wall) else Zones.Normal
  }

  predicate Unusual(k: Classifier, s: Segment) {
    k(s.originTz, s.departLocal) != Zones.Normal || k(s.destinationTz, s.arriveLocal) != Zones.Normal
  }

  /** The first reading, departure before arrival, that is not a normal one. */
  function FirstBadReading(k: Classifier, segments: seq<Segment>): RuleResult {
    if segments == [] then None
    else
      var s := segments[0];
      var depart := KindRejection(k(s.originTz, s.departLocal));
      var arrive := KindRejection(k(s.destinationTz, s.arriveLocal));
      if depart.Some? then depart
      else if arrive.Some? then arrive
      else FirstBadReading(k, segments[1..])
  }

  predicate Wellformed(it: NormalizedItinerary) {
    it.legs != [] && forall i :: 0 <= i < |it.legs| ==> CheckLeg(it.legs[i]).None?
  }

  function CheckDepartureDate(it: NormalizedItinerary, req: SearchRequest): RuleResult
    requires Wellformed(it)
  {
    if it.legs[0].segments[0].departLocal / DAY != req.departureDate
    then Some(Rejection(DateMismatch, "departure_date_origin_local")) else None
  }

  /** The results of the seven rules, each run whatever the others said. */
  function RuleResults(k: Classifier, it: NormalizedItinerary, req: SearchRequest): seq<RuleResult>
    requires Wellformed(it)
  {
    [ CheckStopCount(it, req),
      CheckLayoverWindow(it, req),
      if FirstOrigin(it.legs) != req.origin then Some(Rejection(OriginMismatch, "origin_match")) else None,
      if LastDestination(it.legs) != req.destination then Some(Rejection(DestinationMismatch, "destination_match")) else None,
      CheckDepartureDate(it, req),
      FirstBadReading(k, AllSegments(it.legs)),
      CheckSelfTransfer(it) ]
  }

  function Fired(results: seq<RuleResult>): seq<Rejection> {
    if results == [] then []
    else if results[0].Some? then [results[0].value] + Fired(results[1..])
    else Fired(results[1..])
  }

  function Validate(k: Classifier, it: NormalizedItinerary, req: SearchRequest): seq<Rejection>
    requires Wellformed(it)
  {
    Fired(RuleResults(k, it, req))
  }

  lemma {:induction false} NothingFired(results: seq<RuleResult>)
    ensures Fired(results) == [] <==> forall i :: 0 <= i < |results| ==> results[i].None?
  {
    if results != [] {
      NothingFired(results[1..]);
      assert forall i :: 1 <= i < |results| ==> results[i] == results[1..][i - 1];
    }
  }

  lemma {:induction false} LayoversInWindow(layovers: seq<Layover>, req: SearchRequest)
    ensures FirstBadLayover(layovers, req).None? <==>
            forall l :: l in layovers ==> req.layoverMin <= l.duration <= req.layoverMax
  {
    if layovers != [] {
      LayoversInWindow(layovers[1..], req);
      assert layovers == [layovers[0]] + layovers[1..];
    }
  }

  lemma {:induction false} ReadingsNormal(k: Classifier, segments: seq<Segment>)
    ensures FirstBadReading(k, segments).None? <==> forall s :: s in segments ==> !Unusual(k, s)
  {
    if segments != [] {
      assert segments == [segments[0]] + segments[1..];
      ReadingsNormal(k, segments[1..]);
      assert segments[0] in segments;
    }
  }

  /** The rule and the segment's own flag are one classification. */
  lemma UnusualIsFlag(db: ZoneDb, s: Segment)
    requires s.originTz in db && s.destinationTz in db
    ensures Unusual(ZoneClassifier(db), s) == HasUnusualReading(db, s)
  {
    hide Zones.ClassifyLocal;
  }

  /** Acceptance, spelled out: an itinerary is accepted exactly when it meets all seven demands. */
  lemma AcceptedIff(k: Classifier, it: NormalizedItinerary, req: SearchRequest)
    requires Wellformed(it)
    ensures Validate(k, it, req) == [] <==>
            && StopCount(it.legs) <= req.maxStops
            && (StopCount(it.legs) == 0
                || forall l :: l in AllLayovers(it.legs) ==> req.layoverMin <= l.duration <= req.layoverMax)
            && FirstOrigin(it.legs) == req.origin
            && LastDestination(it.legs) == req.destination
            && it.legs[0].segments[0].departLocal / DAY == req.departureDate
            && (forall s :: s in AllSegments(it.legs) ==> !Unusual(k, s))
            && (forall l :: l in AllLayovers(it.legs) ==> !l.isSelfTransfer)
  {
    hide StopCount, AllLayovers, AllSegments, FirstOrigin, LastDestination, FirstBadLayover, FirstBadReading, Unusual, Fired;
    var r := RuleResults(k, it, req);
    NothingFired(r);
    LayoversInWindow(AllLayovers(it.legs), req);
    ReadingsNormal(k, AllSegments(it.legs));
    assert Fired(r) == [] <==> r[0].None? && r[1].None? && r[2].None? && r[3].None? && r[4].None? && r[5].None? && r[6].None?;
  }

  lemma {:induction false} FiredMember(results: seq<RuleResult>, r: Rejection)
    ensures r in Fired(results) <==> Some(r) in results
  {
    if results != [] {
      FiredMember(results[1..], r);
      assert results == [results[0]] + results[1..];
    }
  }

  /** Layover `n` is the first one outside the window. */
  predicate FirstOutside(layovers: seq<Layover>, req: SearchRequest, n: nat) {
    && n < |layovers|
    && !(req.layoverMin <= layovers[n].duration <= req.layoverMax)
    && forall m :: 0 <= m < n ==> req.layoverMin <= layovers[m].duration <= req.layoverMax
  }

  /** The window rule speaks of the first layover outside: too short if it is below the window, else too long. */
  lemma {:induction false} LayoverVerdict(layovers: seq<Layover>, req: SearchRequest, n: nat)
    requires FirstOutside(layovers, req, n)
    ensures FirstBadLayover(layovers, req)
         == Some(Rejection(if layovers[n].duration < req.layoverMin then LayoverTooShort else LayoverTooLong, "layover_window"))
  {
    if n > 0 {
      assert forall m :: 0 <= m < n - 1 ==> layovers[1..][m] == layovers[m + 1];
      assert layovers[1..][n - 1] == layovers[n];
      LayoverVerdict(layovers[1..], req, n - 1);
    }
  }

  lemma {:induction false} SomeOutside(layovers: seq<Layover>, req: SearchRequest) returns (n: nat)
    requires FirstBadLayover(layovers, req).Some?
    ensures FirstOutside(layovers, req, n)
  {
    if !(req.layoverMin <= layovers[0].duration <= req.layoverMax) {
      n := 0;
    } else {
      var rest := SomeOutside(layovers[1..], req);
      n := rest + 1;
      assert forall m :: 0 < m <= n ==> layovers[m] == layovers[1..][m - 1];
    }
  }

  /** Segment `n` is the first one with an unusual reading. */
  predicate FirstUnusual(k: Classifier, segments: seq<Segment>, n: nat) {
    && n < |segments|
    && Unusual(k, segments[n])
    && forall m :: 0 <= m < n ==> !Unusual(k, segments[m])
  }

  /** The reading that counts: the departure if it is unusual, else the arrival. */
  function Reading(k: Classifier, s: Segment): Zones.Kind {
    if k(s.originTz, s.departLocal) != Zones.Normal then k(s.originTz, s.departLocal) else k(s.destinationTz, s.arriveLocal)
  }

  lemma {:induction false} ReadingVerdict(k: Classifier, segments: seq<Segment>, n: nat)
    requires FirstUnusual(k, segments, n)
    ensures FirstBadReading(k, segments)
         == Some(Rejection(if Reading(k, segments[n]) == Zones.Ambiguous then AmbiguousLocalTime else NonexistentLocalTime,
                           "local_time_validity"))
  {
    if n > 0 {
      assert segments[1..][n - 1] == segments[n];
      assert forall m :: 0 <= m < n - 1 ==> segments[1..][m] == segments[m + 1];
      assert !Unusual(k, segments[0]);
      ReadingVerdict(k, segments[1..], n - 1);
    }
  }

  lemma {:induction false} SomeUnusual(k: Classifier, segments: seq<Segment>) returns (n: nat)
    requires FirstBadReading(k, segments).Some?
    ensures FirstUnusual(k, segments, n)
  {
    if Unusual(k, segments[0]) {
      n := 0;
    } else {
      var rest := SomeUnusual(k, segments[1..]);
      n := rest + 1;
      assert forall m :: 0 < m <= n ==> segments[m] == segments[1..][m - 1];
    }
  }

  /** The first layover outside the window is below it, ... */
  ghost predicate ShortFirst(layovers: seq<Layover>, req: SearchRequest) {
    exists n: nat :: FirstOutside(layovers, req, n) && layovers[n].duration < req.layoverMin
  }

  /** ... or not below it, but above. */
  ghost predicate LongFirst(layovers: seq<Layover>, req: SearchRequest) {
    exists n: nat :: FirstOutside(layovers, req, n) && layovers[n].duration >= req.layoverMin
                     && layovers[n].duration > req.layoverMax
  }

  /** The first unusual reading is of this kind. */
  ghost predicate KindFirst(k: Classifier, segments: seq<Segment>, kind: Zones.Kind) {
    exists n: nat :: FirstUnusual(k, segments, n) && Reading(k, segments[n]) == kind
  }

  lemma LayoverVerdictIff(layovers: seq<Layover>, req: SearchRequest, r: Rejection)
    ensures FirstBadLayover(layovers, req) == Some(r) <==>
            || (r == Rejection(LayoverTooShort, "layover_window") && ShortFirst(layovers, req))
            || (r == Rejection(LayoverTooLong, "layover_window") && LongFirst(layovers, req))
  {
    hide FirstBadLayover;
    forall n: nat | FirstOutside(layovers, req, n)
      ensures FirstBadLayover(layovers, req)
           == Some(Rejection(if layovers[n].duration < req.layoverMin then LayoverTooShort else LayoverTooLong, "layover_window"))
    {
      LayoverVerdict(layovers, req, n);
    }
    if FirstBadLayover(layovers, req).Some? { var n := SomeOutside(layovers, req); }
  }

  lemma ReadingVerdictIff(k: Classifier, segments: seq<Segment>, r: Rejection)
    ensures FirstBadReading(k, segments) == Some(r) <==>
            || (r == Rejection(AmbiguousLocalTime, "local_time_validity") && KindFirst(k, segments, Zones.Ambiguous))
            || (r == Rejection(NonexistentLocalTime, "local_time_validity") && KindFirst(k, segments, Zones.Imaginary))
  {
    hide FirstBadReading;
    forall n: nat | FirstUnusual(k, segments, n)
      ensures FirstBadReading(k, segments)
           == Some(Rejection(if Reading(k, segments[n]) == Zones.Ambiguous then AmbiguousLocalTime else NonexistentLocalTime,
                             "local_time_validity"))
    {
      ReadingVerdict(k, segments, n);
    }
    if FirstBadReading(k, segments).Some? { var n := SomeUnusual(k, segments); }
  }

  /** Code by code: exactly which rejections an itinerary is recorded with. */
  lemma RejectedIff(k: Classifier, it: NormalizedItinerary, req: SearchRequest, r: Rejection)
    requires Wellformed(it)
    ensures var layovers, segments := AllLayovers(it.legs), AllSegments(it.legs);
            var lastLeg := it.legs[|it.legs| - 1].segments;
            r in Validate(k, it, req) <==>
            || (r == Rejection(TooManyStops, "stop_count") && StopCount(it.legs) > req.maxStops)
            || (r == Rejection(LayoverTooShort, "layover_window") && StopCount(it.legs) != 0 && ShortFirst(layovers, req))
            || (r == Rejection(LayoverTooLong, "layover_window") && StopCount(it.legs) != 0 && LongFirst(layovers, req))
            || (r == Rejection(OriginMismatch, "origin_match") && it.legs[0].segments[0].origin != req.origin)
            || (r == Rejection(DestinationMismatch, "destination_match")
                && lastLeg[|lastLeg| - 1].destination != req.destination)
            || (r == Rejection(DateMismatch, "departure_date_origin_local")
                && !(req.departureDate * 86_400_000_000 <= it.legs[0].segments[0].departLocal
                     < (req.departureDate + 1) * 86_400_000_000))
            || (r == Rejection(AmbiguousLocalTime, "local_time_validity") && KindFirst(k, segments, Zones.Ambiguous))
            || (r == Rejection(NonexistentLocalTime, "local_time_validity") && KindFirst(k, segments, Zones.Imaginary))
            || (r == Rejection(SelfTransfer, "self_transfer") && exists l :: l in layovers && l.isSelfTransfer)
  {
    hide StopCount, AllLayovers, AllSegments, FirstBadLayover, FirstBadReading, Fired, ShortFirst, LongFirst, KindFirst;
    hide FirstOrigin, LastDestination;
    var results := RuleResults(k, it, req);
    FiredMember(results, r);
    OneOfSeven(results, Some(r));
    LayoverVerdictIff(AllLayovers(it.legs), req, r);
    ReadingVerdictIff(k, AllSegments(it.legs), r);
    EndsOf(it);
    DayOf(it.legs[0].segments[0].departLocal, req.departureDate);
  }

  lemma OneOfSeven<T>(s: seq<T>, x: T)
    requires |s| == 7
    ensures x in s <==> s[0] == x || s[1] == x || s[2] == x || s[3] == x || s[4] == x || s[5] == x || s[6] == x
  {
  }

  lemma DayOf(t: int, day: int)
    ensures t / DAY == day <==> day * 86_400_000_000 <= t < (day + 1) * 86_400_000_000
  {
  }

  lemma EndsOf(it: NormalizedItinerary)
    requires Wellformed(it)
    ensures var lastLeg := it.legs[|it.legs| - 1].segments;
            && lastLeg != [] && it.legs[0].segments != []
            && FirstOrigin(it.legs) == it.legs[0].segments[0].origin
            && LastDestination(it.legs) == lastLeg[|lastLeg| - 1].destination
  {
  }

  /** The rule, counted from 0, that a code belongs to. */
  function RuleOf(code: RejectionCode): nat {
    match code
    case TooManyStops => 0
    case LayoverTooShort => 1
    case LayoverTooLong => 1
    case OriginMismatch => 2
    case DestinationMismatch => 3
    case DateMismatch => 4
    case AmbiguousLocalTime => 5
    case NonexistentLocalTime => 5
    case SelfTransfer => 6
  }

  lemma {:induction false} LayoverCodes(layovers: seq<Layover>, req: SearchRequest)
    ensures FirstBadLayover(layovers, req).Some? ==> RuleOf(FirstBadLayover(layovers, req).value.code) == 1
  {
    if layovers != [] { LayoverCodes(layovers[1..], req); }
  }

  lemma {:induction false} ReadingCodes(k: Classifier, segments: seq<Segment>)
    ensures FirstBadReading(k, segments).Some? ==> RuleOf(FirstBadReading(k, segments).value.code) == 5
  {
    if segments != [] { ReadingCodes(k, segments[1..]); }
  }

  lemma RulesKeepToTheirCodes(k: Classifier, it: NormalizedItinerary, req: SearchRequest, i: nat)
    requires Wellformed(it) && i < 7 && RuleResults(k, it, req)[i].Some?
    ensures RuleOf(RuleResults(k, it, req)[i].value.code) == i
  {
    hide StopCount, AllLayovers, AllSegments, FirstOrigin, LastDestination, FirstBadLayover, FirstBadReading;
    LayoverCodes(AllLayovers(it.legs), req);
    ReadingCodes(k, AllSegments(it.legs));
  }

  /** No rejection is recorded twice. */
  lemma RejectionsDiffer(k: Classifier, it: NormalizedItinerary, req: SearchRequest)
    requires Wellformed(it)
    ensures Distinct(Validate(k, it, req))
  {
    hide RuleOf, Wellformed, CheckStopCount, CheckLayoverWindow, CheckDepartureDate, CheckSelfTransfer, FirstBadReading, Fired;
    var results := RuleResults(k, it, req);
    forall i | 0 <= i < |results| && results[i].Some? ensures RuleOf(results[i].value.code) == i {
      RulesKeepToTheirCodes(k, it, req, i);
    }
    FiredDiffer(results);
  }

  lemma {:induction false} FiredDiffer(results: seq<RuleResult>)
    requires forall i, j :: 0 <= i < j < |results| && results[i].Some? ==> results[i] != results[j]
    ensures Distinct(Fired(results))
  {
    if results != [] {
      FiredDiffer(results[1..]);
      if results[0].Some? {
        FiredMember(results[1..], results[0].value);
        assert Some(results[0].value) == results[0];
        assert results[0] !in results[1..];
      }
    }
  }

  /** The self-transfer rejection is recorded exactly for itineraries with such a
      layover, whatever else they were rejected for. */
  lemma SelfTransferRecordedIff(k: Classifier, it: NormalizedItinerary, req: SearchRequest, r: Rejection)
    requires Wellformed(it)
    ensures r in Validate(k, it, req) && r.code == SelfTransfer
       <==> r == Rejection(SelfTransfer, "self_transfer") && exists l :: l in AllLayovers(it.legs) && l.isSelfTransfer
  {
    hide Validate, StopCount, AllLayovers, AllSegments, ShortFirst, LongFirst, KindFirst;
    RejectedIff(k, it, req, r);
  }

  // -- accepted itineraries can be scored ------------------------------------------------

  lemma {:induction false} StopsAreLayovers(legs: seq<Leg>)
    requires forall i :: 0 <= i < |legs| ==> CheckLeg(legs[i]).None?
    ensures StopCount(legs) == |AllLayovers(legs)|
  {
    if legs != [] {
      assert CheckLeg(legs[0]).None?;
      forall i | 0 <= i < |legs[1..]| ensures CheckLeg(legs[1..][i]).None? {
        assert legs[1..][i] == legs[i + 1];
      }
      StopsAreLayovers(legs[1..]);
    }
  }

  lemma {:induction false} PenaltiesFound(layovers: seq<Layover>, bands: seq<PenaltyBand>, lo: int, hi: int)
    requires Tiles(bands, lo, hi)
    requires forall l :: l in layovers ==> lo * MINUTE <= l.duration <= hi * MINUTE
    ensures PenaltySum(layovers, bands).Ok?
  {
    if layovers != [] {
      assert layovers[0] in layovers;
      var b := ExactlyOneBand(bands, lo, hi, layovers[0].duration / MINUTE);
      PenaltiesFound(layovers[1..], bands, lo, hi);
    }
  }

  /** The bands tile the request's layover window, which is given in whole minutes. */
  ghost predicate WindowTiled(settings: ScoringSettings, req: SearchRequest) {
    exists lo: int, hi: int ::
      req.layoverMin == lo * MINUTE && req.layoverMax == hi * MINUTE && Tiles(settings.bands, lo, hi)
  }

  /** With bands that tile the request's window, every accepted itinerary can be
      scored, except a direct one in proportional mode for want of a stop price;
      a direct itinerary carries no penalty. */
  lemma AcceptedIsScorable(k: Classifier, it: NormalizedItinerary, req: SearchRequest,
                           settings: ScoringSettings, stopPrice: Option<real>)
    requires Wellformed(it) && Validate(k, it, req) == [] && WindowTiled(settings, req)
    ensures var r := ScoreItinerary(it, settings, stopPrice);
            && (r.Ok? <==> settings.mode == FixedBonus || StopCount(it.legs) >= 1 || stopPrice.Some?)
            && (r.Ok? && StopCount(it.legs) == 0 ==> r.value.penalty == 0.0)
  {
    var lo: int, hi: int :|
      req.layoverMin == lo * MINUTE && req.layoverMax == hi * MINUTE && Tiles(settings.bands, lo, hi);
    AcceptedIff(k, it, req);
    StopsAreLayovers(it.legs);
    PenaltiesFound(AllLayovers(it.legs), settings.bands, lo, hi);
  }

  /** The score of an accepted itinerary: fare, hours at their rate, one penalty per layover from the one
      row its whole minutes belong to, and the bonus of a direct one. */
  lemma ScoreOfAccepted(k: Classifier, it: NormalizedItinerary, req: SearchRequest, settings: ScoringSettings,
                        stopPrice: Option<real>)
    returns (rows: seq<PenaltyBand>)
    requires Wellformed(it) && Validate(k, it, req) == [] && WindowTiled(settings, req)
    requires ScoreItinerary(it, settings, stopPrice).Ok?
    ensures var layovers := AllLayovers(it.legs);
            && |rows| == |layovers|
            && forall i :: 0 <= i < |rows| ==> OnlyRow(rows[i], settings.bands, layovers[i].duration / MINUTE)
    ensures var c := ScoreItinerary(it, settings, stopPrice).value;
            && c.fare * 100.0 == it.priceEur.amount as real
            && c.elapsed * 3_600_000_000.0 == TotalDuration(it.legs) as real * settings.timeValueEurPerHour
            && c.penalty == RealSum(Map((b: PenaltyBand) => b.penaltyEur, rows))
            && c.Adjusted() == c.fare + c.elapsed + c.penalty + c.bonus
            && (StopCount(it.legs) >= 1 ==> c.bonus == 0.0)
            && (StopCount(it.legs) == 0 && settings.mode == FixedBonus ==> c.bonus == settings.directBonusEur)
            && (StopCount(it.legs) == 0 && settings.mode == ProportionalBonus ==>
                  stopPrice.Some? && 5.0 * c.bonus == -stopPrice.value)
  {
    hide ScoreItinerary, OnlyRow, RealSum, StopCount, AllLayovers, TotalDuration, Validate;
    var lo: int, hi: int :|
      req.layoverMin == lo * MINUTE && req.layoverMax == hi * MINUTE && Tiles(settings.bands, lo, hi);
    AcceptedIff(k, it, req);
    StopsAreLayovers(it.legs);
    rows := PenaltyIsSum(AllLayovers(it.legs), settings.bands, lo, hi);
    ComponentsAre(it, settings, stopPrice);
  }

  // -- the batch summary ------------------------------------------------------------------

  function CountEmpty(results: seq<seq<Rejection>>): nat {
    if results == [] then 0 else (if results[0] == [] then 1 else 0) + CountEmpty(results[1..])
  }

  function CountCode(rejections: seq<Rejection>, code: RejectionCode): nat {
    if rejections == [] then 0 else (if rejections[0].code == code then 1 else 0) + CountCode(rejections[1..], code)
  }

  function Flat(results: seq<seq<Rejection>>): seq<Rejection> {
    if results == [] then [] else results[0] + Flat(results[1..])
  }

  lemma {:induction false} CountCodeConcat(a: seq<Rejection>, b: seq<Rejection>, code: RejectionCode)
    ensures CountCode(a + b, code) == CountCode(a, code) + CountCode(b, code)
  {
    if a == [] { assert a + b == b; } else {
      assert (a + b)[1..] == a[1..] + b;
      CountCodeConcat(a[1..], b, code);
    }
  }

  lemma {:induction false} FlatConcat(a: seq<seq<Rejection>>, b: seq<seq<Rejection>>)
    ensures Flat(a + b) == Flat(a) + Flat(b)
    ensures CountEmpty(a + b) == CountEmpty(a) + CountEmpty(b)
  {
    if a == [] { assert a + b == b; } else {
      assert (a + b)[1..] == a[1..] + b;
      FlatConcat(a[1..], b);
    }
  }

  /** The tallies of a list of rejections: one entry per code that occurs, never a zero. */
  ghost predicate TalliesOf(counts: map<RejectionCode, nat>, rejections: seq<Rejection>) {
    && (forall code :: code in counts <==> CountCode(rejections, code) > 0)
    && (forall code :: code in counts ==> counts[code] == CountCode(rejections, code))
  }

  /** The inner loop: tally one verdict's rejections on top of those seen. */
  method TallyVerdict(rejections: seq<Rejection>, start: map<RejectionCode, nat>, ghost seen: seq<Rejection>)
    returns (counts: map<RejectionCode, nat>)
    requires TalliesOf(start, seen)
    ensures TalliesOf(counts, seen + rejections)
  {
    counts := start;
    assert seen + rejections[..0] == seen;
    for j := 0 to |rejections|
      invariant TalliesOf(counts, seen + rejections[..j])
    {
      var code := rejections[j].code;
      assert seen + rejections[..j + 1] == seen + rejections[..j] + [rejections[j]];
      TallyNext(counts, seen + rejections[..j], rejections[j]);
      counts := counts[code := (if code in counts then counts[code] else 0) + 1];
    }
    assert rejections[..|rejections|] == rejections;
  }

  lemma TallyNext(counts: map<RejectionCode, nat>, seen: seq<Rejection>, r: Rejection)
    requires TalliesOf(counts, seen)
    ensures TalliesOf(counts[r.code := (if r.code in counts then counts[r.code] else 0) + 1], seen + [r])
  {
    hide CountCode;
    forall c ensures CountCode(seen + [r], c) == CountCode(seen, c) + if c == r.code then 1 else 0 {
      CountCodeConcat(seen, [r], c);
      CountOne(r, c);
    }
  }

  lemma CountOne(r: Rejection, c: RejectionCode)
    ensures CountCode([r], c) == if c == r.code then 1 else 0
  {
  }

  /** The batch summary counts itineraries accepted, and individual rejections by code. */
  method Summarize(results: seq<seq<Rejection>>) returns (accepted: nat, counts: map<RejectionCode, nat>)
    ensures accepted == CountEmpty(results) <= |results|
    ensures TalliesOf(counts, Flat(results))
  {
    accepted, counts := 0, map[];
    for i := 0 to |results|
      invariant accepted == CountEmpty(results[..i]) <= i
      invariant TalliesOf(counts, Flat(results[..i]))
    {
      var rejections := results[i];
      assert results[..i + 1] == results[..i] + [rejections];
      FlatConcat(results[..i], [rejections]);
      assert Flat([rejections]) == rejections + Flat([]) == rejections;
      if rejections == [] { accepted := accepted + 1; }
      counts := TallyVerdict(rejections, counts, Flat(results[..i]));
    }
    assert results[..|results|] == results;
  }
}
