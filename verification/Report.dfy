/**
 From accepted itineraries to the lines of the report: deduplicate, score, rank,
 truncate; and when the lines are a function of the bag of offers, whatever
 order they arrived in.
 */
module Report {
  import opened Wrappers
  import opened Seqs
  import opened StableSort
  import opened Domain
  import opened Itineraries
  import opened Dedup
  import opened Survivors
  import opened Scoring
  import opened Ranking

  /** What is read off a ranked itinerary: its tie key (score, price, seconds, identity), and what is shown of it. */
  datatype Row<T> = Row(key: TieKey, shown: T)

  datatype Line<T> = Line(row: Row<T>, rankByAdjustedScore: nat, rankByTotalJourneyScore: nat, rankByPrice: nat)

  /** A choice of what to display of a scored itinerary. */
  type Display<T> = ScoredItinerary -> T

  function RowFor<T>(shown: Display<T>, x: ScoredItinerary): Row<T> { Row(Key(x), shown(x)) }

  function RowOf<T>(shown: Display<T>): ScoredItinerary -> Row<T> { (x: ScoredItinerary) => RowFor(shown, x) }

  function LineOf<T>(shown: Display<T>): ScoredItinerary -> Line<T> {
    (x: ScoredItinerary) => Line(RowFor(shown, x), x.rankByAdjustedScore, x.rankByTotalJourneyScore, x.rankByPrice)
  }

  /** A display reads neither the ranks nor the references and fares recorded on the survivor. */
  ghost predicate Unaided<T(!new)>(shown: Display<T>) {
    && (forall x {:trigger Unranked(x)} :: shown(x) == shown(Unranked(x)))
    && (forall it, c {:trigger JustScored(Bare(it, it.duplicateCount), c)} ::
          shown(JustScored(it, c)) == shown(JustScored(Bare(it, it.duplicateCount), c)))
  }

  /** The number of offers collapsed. */
  function Count(): Display<nat> { (x: ScoredItinerary) => x.itinerary.duplicateCount }

  /** What an entry of the results document prints besides price, identity and ranks. */
  datatype Print = Print(
    provider: string,
    airlines: set<string>,
    route: seq<seq<string>>,
    stops: int,
    departure: Option<(int, int, string)>,
    arrival: Option<(int, int, string)>,
    layoverMinutes: int,
    durationMinutes: int,
    fareAsOf: int,
    bookingUrl: Option<string>,
    components: ScoreComponents)

  function Airports(l: Leg): seq<string> {
    (if l.segments == [] then [] else [l.segments[0].origin]) + Map((s: Segment) => s.destination, l.segments)
  }

  function Printed(): Display<Print> {
    (x: ScoredItinerary) =>
      var it := x.itinerary;
      var segments := AllSegments(it.legs);
      var n := |segments|;
      Print(it.provider,
            set s | s in segments :: s.marketingCarrier,
            Map(Airports, it.legs),
            StopCount(it.legs),
            if n == 0 then None else Some((segments[0].departUtc, segments[0].departLocal, segments[0].originTz)),
            if n == 0 then None
            else Some((segments[n - 1].arriveUtc, segments[n - 1].arriveLocal, segments[n - 1].destinationTz)),
            Sum(Map((o: Layover) => o.duration, AllLayovers(it.legs))) / MINUTE,
            TotalDuration(it.legs) / MINUTE,
            it.fareAsOf,
            it.bookingUrl,
            x.components)
  }

  /** What is printed of an itinerary of proper legs: the first departure, the last arrival, and leg by leg the
      airports it touches. */
  lemma PrintedEntry(x: ScoredItinerary, i: nat)
    requires Wellsegmented(x.itinerary.legs) && i < |x.itinerary.legs|
    ensures var it, p := x.itinerary, Printed()(x);
            var first, end := it.legs[0].segments[0], it.legs[|it.legs| - 1].segments;
            var last, leg := end[|end| - 1], it.legs[i].segments;
            && p.departure == Some((first.departUtc, first.departLocal, first.originTz))
            && p.arrival == Some((last.arriveUtc, last.arriveLocal, last.destinationTz))
            && |p.route| == |it.legs| && |p.route[i]| == |leg| + 1 && p.route[i][0] == leg[0].origin
            && (forall k :: 0 <= k < |leg| ==> p.route[i][k + 1] == leg[k].destination)
            && p.provider == it.provider && p.bookingUrl == it.bookingUrl && p.fareAsOf == it.fareAsOf
            && p.stops == StopCount(it.legs) && p.components == x.components
            && 60_000_000 * p.durationMinutes <= TotalDuration(it.legs) < 60_000_000 * (p.durationMinutes + 1)
            && (var waits := Sum(Map((o: Layover) => o.duration, AllLayovers(it.legs)));
                60_000_000 * p.layoverMinutes <= waits < 60_000_000 * (p.layoverMinutes + 1))
            && (forall c :: c in p.airlines <==> exists s :: s in AllSegments(it.legs) && s.marketingCarrier == c)
  {
    hide TotalDuration, StopCount, AllLayovers, Sum;
    EndsOfAll(x.itinerary.legs);
  }

  predicate Wellsegmented(legs: seq<Leg>) {
    legs != [] && forall i :: 0 <= i < |legs| ==> legs[i].segments != []
  }

  lemma {:induction false} EndsOfAll(legs: seq<Leg>)
    requires Wellsegmented(legs)
    ensures var all, end := AllSegments(legs), legs[|legs| - 1].segments;
            all != [] && all[0] == legs[0].segments[0] && all[|all| - 1] == end[|end| - 1]
  {
    if |legs| > 1 { EndsOfAll(legs[1..]); }
  }

  lemma DisplaysUnaided()
    ensures Unaided(Count()) && Unaided(Printed())
  {
    hide AllSegments, AllLayovers, TotalDuration, StopCount, Sum;
  }

  /** A freshly scored itinerary, with placeholder ranks. */
  function JustScored(it: NormalizedItinerary, c: ScoreComponents): ScoredItinerary {
    ScoredItinerary(it, c, 0.0, 0.0, 1, 1, 1)
  }

  function ScoreOf(it: NormalizedItinerary, settings: ScoringSettings): Option<ScoredItinerary> {
    match ScoreItinerary(it, settings, None)
    case Ok(c) => Some(JustScored(it, c))
    case Err(_) => None
  }

  function Scored(settings: ScoringSettings): NormalizedItinerary -> Option<ScoredItinerary> {
    (it: NormalizedItinerary) => ScoreOf(it, settings)
  }

  /** The whole pipeline after validation; nothing if some survivor cannot be scored. */
  function ReportLines<T>(shown: Display<T>, xs: seq<NormalizedItinerary>, settings: ScoringSettings, topN: int)
    : Option<seq<Line<T>>>
  {
    match AllSome(Map(Scored(settings), Deduplicated(xs)))
    case None => None
    case Some(items) => Some(Map(LineOf(shown), Ranked(items, topN)))
  }

  // -- ranking rows instead of objects ------------------------------------------------

  predicate RowByKey<T>(a: Row<T>, b: Row<T>) { KeyLeq(a.key, b.key) }
  predicate RowByPrice<T>(a: Row<T>, b: Row<T>) { PriceLeq(a.key, b.key) }

  ghost predicate DistinctIds<T>(rows: seq<Row<T>>) {
    forall i, j :: 0 <= i < j < |rows| ==> rows[i].key.id != rows[j].key.id
  }

  function IdPosition<T>(id: nat, rows: seq<Row<T>>): nat {
    if rows == [] then 0 else if rows[0].key.id == id then 0 else 1 + IdPosition(id, rows[1..])
  }

  function RankedRows<T>(rows: seq<Row<T>>): (lines: seq<Line<T>>)
    ensures |lines| == |rows|
    ensures forall i :: 0 <= i < |rows| ==> lines[i].row == Sort<Row<T>>(RowByKey, rows)[i]
  {
    var byScore, byPrice := Sort<Row<T>>(RowByKey, rows), Sort<Row<T>>(RowByPrice, rows);
    seq(|rows|, i requires 0 <= i < |rows| =>
      Line(byScore[i], i + 1, i + 1, 1 + IdPosition(byScore[i].key.id, byPrice)))
  }

  function TagRow<T>(shown: Display<T>): Tagged -> Row<T> { (t: Tagged) => RowFor(shown, t.item) }

  lemma TagRowKey<T>(shown: Display<T>, x: Tagged)
    ensures TagRow(shown)(x).key == Key(x.item)
  {
    hide Key;
  }

  lemma RowOrders<T(!new)>()
    ensures TotalPreorder<Row<T>>(RowByKey) && TotalPreorder<Row<T>>(RowByPrice)
  {
  }

  lemma TaggedOrders()
    ensures TotalPreorder(TaggedByKey) && TotalPreorder(TaggedByPrice) && TotalPreorder(TaggedById)
  {
  }

  lemma SortsThroughRows<T(!new)>(shown: Display<T>, items: seq<ScoredItinerary>)
    ensures Map(TagRow(shown), ByScore(items)) == Sort<Row<T>>(RowByKey, Map(RowOf(shown), items))
    ensures Map(TagRow(shown), ByPrice(items)) == Sort<Row<T>>(RowByPrice, Map(RowOf(shown), items))
  {
    TaggedOrders();
    var t := TagAll(items);
    SortAfterSort(TaggedById, TaggedByKey, t);
    SortAfterSort(TaggedById, TaggedByPrice, t);
    forall x: Tagged ensures TagRow(shown)(x).key == Key(x.item) { TagRowKey(shown, x); }
    SortMap<Tagged, Row<T>>(TaggedByKey, RowByKey, TagRow(shown), t);
    SortMap<Tagged, Row<T>>(TaggedByPrice, RowByPrice, TagRow(shown), t);
    assert Map(TagRow(shown), t) == Map(RowOf(shown), items);
  }

  lemma {:induction false} PositionById<T(!new)>(shown: Display<T>, s: seq<Tagged>, x: Tagged)
    requires x in s
    requires forall i, j :: 0 <= i < j < |s| ==> Key(s[i].item).id != Key(s[j].item).id
    requires forall i, j :: 0 <= i < j < |s| ==> s[i].tag != s[j].tag
    ensures PositionOf(x.tag, s) == IdPosition(Key(x.item).id, Map(TagRow(shown), s))
  {
    hide Key;
    assert Map(TagRow(shown), s)[1..] == Map(TagRow(shown), s[1..]);
    TagRowKey(shown, s[0]);
    if s[0] != x {
      var k :| 0 <= k < |s| && s[k] == x;
      assert s[0].tag != s[k].tag && Key(s[0].item).id != Key(s[k].item).id;
      assert x == s[1..][k - 1];
      PositionById(shown, s[1..], x);
    }
  }

  lemma IdsOfBag<T>(rows: seq<Row<T>>, s: seq<Row<T>>)
    requires DistinctIds(rows) && multiset(rows) == multiset(s)
    ensures DistinctIds(s)
  {
    forall i, j | 0 <= i < j < |s| ensures s[i].key.id != s[j].key.id {
      assert s[i] in multiset(rows) && s[j] in multiset(rows);
      if s[i].key.id == s[j].key.id {
        var a :| 0 <= a < |rows| && rows[a] == s[i];
        var b :| 0 <= b < |rows| && rows[b] == s[j];
        assert a == b;
        TwiceInBag(s, i, j);
        OnceInBag(rows, a);
      }
    }
  }

  lemma OnceInBag<T>(rows: seq<Row<T>>, a: nat)
    requires DistinctIds(rows) && a < |rows|
    ensures multiset(rows)[rows[a]] == 1
  {
    assert rows == rows[..a] + [rows[a]] + rows[a + 1..];
    assert rows[a] !in rows[..a] && rows[a] !in rows[a + 1..];
  }

  lemma PriceIdsDistinct<T(!new)>(shown: Display<T>, items: seq<ScoredItinerary>)
    requires DistinctIds(Map(RowOf(shown), items))
    ensures var p := ByPrice(items); forall i, j :: 0 <= i < j < |p| ==> Key(p[i].item).id != Key(p[j].item).id
  {
    hide Sort, ByPrice, ByScore;
    var rows, p := Map(RowOf(shown), items), ByPrice(items);
    SortsThroughRows(shown, items);
    SortBag<Row<T>>(RowByPrice, rows);
    IdsOfBag(rows, Sort<Row<T>>(RowByPrice, rows));
    forall i, j | 0 <= i < j < |p| ensures Key(p[i].item).id != Key(p[j].item).id {
      assert Map(TagRow(shown), p)[i].key.id != Map(TagRow(shown), p)[j].key.id;
    }
  }

  /** With distinct identities the lines depend on the rows alone. */
  lemma RankingThroughRows<T(!new)>(shown: Display<T>, items: seq<ScoredItinerary>)
    requires Unaided(shown) && DistinctIds(Map(RowOf(shown), items))
    ensures Map(LineOf(shown), FullRanking(items)) == RankedRows(Map(RowOf(shown), items))
  {
    hide Sort, ByScore, ByPrice, PositionOf, IdPosition, WholeSeconds, TotalDuration;
    var rows := Map(RowOf(shown), items);
    var s, p := ByScore(items), ByPrice(items);
    SortsThroughRows(shown, items);
    RankingBags(items);
    TagsDistinct(items, p);
    PriceIdsDistinct(shown, items);
    forall i | 0 <= i < |items| ensures LineOf(shown)(FullRanking(items)[i]) == RankedRows(rows)[i] {
      assert s[i] in multiset(p);
      PositionById(shown, p, s[i]);
      assert TagRow(shown)(s[i]) == Map(TagRow(shown), s)[i];
      assert Unranked(FullRanking(items)[i]) == Unranked(s[i].item);
    }
  }

  /** Rows with distinct identities rank the same in every order of arrival. */
  lemma RankedRowsIgnoreArrival<T(!new)>(a: seq<Row<T>>, b: seq<Row<T>>)
    requires DistinctIds(a) && multiset(a) == multiset(b)
    ensures RankedRows(a) == RankedRows(b)
  {
    RowOrders<T>();
    forall x, y | x in a && y in a && x.key.id == y.key.id ensures x == y {
      var i :| 0 <= i < |a| && a[i] == x;
      var j :| 0 <= j < |a| && a[j] == y;
      assert i == j;
    }
    SortIgnoresArrival<Row<T>>(RowByKey, a, b);
    SortIgnoresArrival<Row<T>>(RowByPrice, a, b);
    BagsSameSize(a, b);
  }

  /** And the full list of lines gives the bag of rows back. */
  lemma RowsFromLines<T(!new)>(a: seq<Row<T>>, b: seq<Row<T>>)
    requires RankedRows(a) == RankedRows(b)
    ensures multiset(a) == multiset(b)
  {
    SortBag<Row<T>>(RowByKey, a);
    SortBag<Row<T>>(RowByKey, b);
    var s, t := Sort<Row<T>>(RowByKey, a), Sort<Row<T>>(RowByKey, b);
    forall i | 0 <= i < |s| ensures s[i] == t[i] {
      assert RankedRows(a)[i].row == RankedRows(b)[i].row;
    }
    assert s == t;
  }

  // -- itineraries of one shape --------------------------------------------------------------

  /** A normalized itinerary: its legs checked and timed, carrying its own digests. */
  ghost predicate Genuine(h: Digests, it: NormalizedItinerary) {
    && LegsFit(it.legs)
    && (exists adults, cabin :: it.shapeKey == ShapeKey(h, it.legs, cabin, adults))
    && it.itineraryId == ItineraryId(h, it.shapeKey, Carriers(it.legs), it.priceEur)
  }

  ghost predicate LegsFit(legs: seq<Leg>) {
    forall i :: 0 <= i < |legs| ==> CheckLeg(legs[i]).None? && Timed(legs[i])
  }

  /** The same flights, cut into legs at the same places. */
  predicate SameSplit(a: seq<Leg>, b: seq<Leg>) {
    |a| == |b| && forall i :: 0 <= i < |a| ==> |a[i].segments| == |b[i].segments|
  }

  /** Itineraries of one shape are cut into legs alike, as all itineraries of a single leg are. */
  ghost predicate SplitAlike(xs: seq<NormalizedItinerary>) {
    forall x, y :: x in xs && y in xs && x.shapeKey == y.shapeKey ==> SameSplit(x.legs, y.legs)
  }

  lemma {:induction false} PenaltyOfDurations(a: seq<Layover>, b: seq<Layover>, bands: seq<PenaltyBand>)
    requires |a| == |b| && forall i :: 0 <= i < |a| ==> a[i].duration == b[i].duration
    ensures PenaltySum(a, bands) == PenaltySum(b, bands)
  {
    if a != [] {
      PenaltyOfDurations(a[1..], b[1..], bands);
    }
  }

  /** The shape of one leg fixes its total and the length of each of its layovers. */
  lemma LegTimes(a: Leg, b: Leg)
    requires CheckLeg(a).None? && Timed(a) && CheckLeg(b).None? && Timed(b) && Shapes(a.segments) == Shapes(b.segments)
    ensures LegTotal(a) == LegTotal(b) && |a.segments| == |b.segments| && |a.layovers| == |b.layovers|
    ensures forall i :: 0 <= i < |a.layovers| ==> a.layovers[i].duration == b.layovers[i].duration
  {
    hide SegmentTime, LayoverTime, FirstDisconnected;
    forall i | 0 <= i < |a.segments|
      ensures a.segments[i].departUtc == b.segments[i].departUtc && a.segments[i].arriveUtc == b.segments[i].arriveUtc
    {
      assert Shapes(a.segments)[i] == Shapes(b.segments)[i];
    }
    NoneMisaligned(a, 0);
    NoneMisaligned(b, 0);
    forall i | 0 <= i < |a.layovers| ensures a.layovers[i].duration == b.layovers[i].duration {
      assert a.layovers[i].duration == a.segments[i + 1].departUtc - a.segments[i].arriveUtc;
      assert b.layovers[i].duration == b.segments[i + 1].departUtc - b.segments[i].arriveUtc;
    }
  }

  lemma ShapesSplit(s: seq<Segment>, u: seq<Segment>, t: seq<Segment>, v: seq<Segment>)
    requires |s| == |t| && Shapes(s + u) == Shapes(t + v)
    ensures Shapes(s) == Shapes(t) && Shapes(u) == Shapes(v)
  {
    MapConcat((s: Segment) => (s.origin, s.destination, s.departUtc, s.arriveUtc), s, u);
    MapConcat((s: Segment) => (s.origin, s.destination, s.departUtc, s.arriveUtc), t, v);
    assert Shapes(s) == Shapes(s + u)[..|s|] && Shapes(t) == Shapes(t + v)[..|t|];
    assert Shapes(u) == Shapes(s + u)[|s|..] && Shapes(v) == Shapes(t + v)[|t|..];
  }

  /** So for legs cut alike, the shape fixes everything the score reads but the price. */
  lemma {:induction false} SameShapeSameTimes(a: seq<Leg>, b: seq<Leg>)
    requires LegsFit(a) && LegsFit(b) && SameSplit(a, b) && Shapes(AllSegments(a)) == Shapes(AllSegments(b))
    ensures TotalDuration(a) == TotalDuration(b) && StopCount(a) == StopCount(b)
    ensures var la, lb := AllLayovers(a), AllLayovers(b);
            |la| == |lb| && forall i :: 0 <= i < |la| ==> la[i].duration == lb[i].duration
  {
    hide CheckLeg, Timed, LegTotal, Shapes;
    if a != [] {
      ShapesSplit(a[0].segments, AllSegments(a[1..]), b[0].segments, AllSegments(b[1..]));
      LegTimes(a[0], b[0]);
      SameShapeSameTimes(a[1..], b[1..]);
    }
  }

  lemma SameShapeSameScore(h: Digests, a: NormalizedItinerary, b: NormalizedItinerary, settings: ScoringSettings,
                           stopPrice: Option<real>)
    requires CollisionFree(h) && Genuine(h, a) && Genuine(h, b)
    requires a.shapeKey == b.shapeKey && SameSplit(a.legs, b.legs) && a.priceEur == b.priceEur
    ensures ScoreItinerary(a, settings, stopPrice) == ScoreItinerary(b, settings, stopPrice)
    ensures TotalDuration(a.legs) == TotalDuration(b.legs)
  {
    hide PenaltySum, TotalDuration, StopCount, AllLayovers, LegsFit, SameSplit, ItineraryId;
    SameShapeSameTimes(a.legs, b.legs);
    PenaltyOfDurations(AllLayovers(a.legs), AllLayovers(b.legs), settings.bands);
  }

  // -- the rows of the survivors ---------------------------------------------------------------

  function RowScored<T>(shown: Display<T>, it: NormalizedItinerary, settings: ScoringSettings): Option<Row<T>> {
    match ScoreOf(it, settings)
    case Some(x) => Some(RowFor(shown, x))
    case None => None
  }

  function RowOrNone<T>(shown: Display<T>, settings: ScoringSettings): NormalizedItinerary -> Option<Row<T>> {
    (it: NormalizedItinerary) => RowScored(shown, it, settings)
  }

  lemma ScoreReads(a: NormalizedItinerary, b: NormalizedItinerary, settings: ScoringSettings)
    requires a.legs == b.legs && a.priceEur == b.priceEur
    ensures ScoreItinerary(a, settings, None) == ScoreItinerary(b, settings, None)
  {
  }

  lemma CollapseFields(g: seq<NormalizedItinerary>)
    requires g != []
    ensures var s, c := g[SurvivorIndex(g)], Collapse(g);
            && c.legs == s.legs && c.priceEur == s.priceEur && c.itineraryId == s.itineraryId
            && c.duplicateCount == |g|
  {
  }

  lemma RowsBlind<T(!new)>(shown: Display<T>, settings: ScoringSettings)
    requires Unaided(shown)
    ensures Blind(RowOrNone(shown, settings))
  {
    hide ScoreItinerary, TotalDuration;
    var row := RowOrNone(shown, settings);
    forall it {:trigger Bare(it, it.duplicateCount)} ensures row(it) == row(Bare(it, it.duplicateCount)) {
      var bare := Bare(it, it.duplicateCount);
      ScoreReads(it, bare, settings);
      match ScoreItinerary(it, settings, None)
      case Err(_) =>
      case Ok(c) =>
        assert shown(JustScored(it, c)) == shown(JustScored(bare, c));
        assert Key(JustScored(it, c)) == Key(JustScored(bare, c));
    }
  }

  // -- the pipeline ------------------------------------------------------------------------

  lemma SurvivorIdsDistinct(h: Digests, xs: seq<NormalizedItinerary>)
    requires CollisionFree(h) && forall x :: x in xs ==> Genuine(h, x)
    ensures var out := Deduplicated(xs);
            forall i, j :: 0 <= i < j < |out| ==> out[i].itineraryId != out[j].itineraryId
  {
    var out, keys := Deduplicated(xs), ShapeKeys(xs);
    forall i, j | 0 <= i < j < |out| ensures out[i].itineraryId != out[j].itineraryId {
      assert keys[i] != keys[j];
      var a, b := Class(xs, keys[i]), Class(xs, keys[j]);
      var s, t := a[SurvivorIndex(a)], b[SurvivorIndex(b)];
      ClassMember(xs, keys[i], s);
      ClassMember(xs, keys[j], t);
      IdIdentifies(h, s.shapeKey, Carriers(s.legs), s.priceEur, t.shapeKey, Carriers(t.legs), t.priceEur);
    }
  }

  /** The report's lines, computed from the rows of the survivors; nothing if one is missing. */
  function LinesOfRows<T>(rows: Option<seq<Row<T>>>, topN: int): Option<seq<Line<T>>> {
    match rows
    case None => None
    case Some(rows) => Some(if topN <= 0 then [] else SliceTo(RankedRows(rows), topN))
  }

  lemma RowOfScored<T>(shown: Display<T>, it: NormalizedItinerary, settings: ScoringSettings)
    ensures match Scored(settings)(it)
            case Some(x) => RowOrNone(shown, settings)(it) == Some(RowOf(shown)(x))
                            && RowOf(shown)(x).key.id == it.itineraryId
            case None => RowOrNone(shown, settings)(it) == None
  {
    hide ScoreItinerary, TotalDuration;
  }

  lemma {:induction false} AllOrNone<T>(s: seq<Option<T>>)
    ensures AllSome(s).None? <==> None in s
  {
    if s != [] {
      AllOrNone(s[1..]);
      assert s == [s[0]] + s[1..];
    }
  }

  lemma SomeBack<T>(s: seq<Option<T>>)
    ensures AllSome(s).Some? ==> Map((t: T) => Some(t), AllSome(s).value) == s
  {
  }

  lemma {:induction false} AllSomeIs<T>(s: seq<Option<T>>, ts: seq<T>)
    requires s == Map((t: T) => Some(t), ts)
    ensures AllSome(s) == Some(ts)
  {
    if s != [] {
      AllSomeIs(s[1..], ts[1..]);
      assert ts == [ts[0]] + ts[1..];
    }
  }

  lemma LinesThroughRows<T(!new)>(h: Digests, shown: Display<T>, xs: seq<NormalizedItinerary>, settings: ScoringSettings,
                                  topN: int)
    requires CollisionFree(h) && Unaided(shown) && forall x :: x in xs ==> Genuine(h, x)
    ensures var rows := AllSome(Map(RowOrNone(shown, settings), Deduplicated(xs)));
            && ReportLines(shown, xs, settings, topN) == LinesOfRows(rows, topN)
            && (rows.Some? ==> DistinctIds(rows.value))
  {
    hide Deduplicated, Key, FullRanking, RankedRows, Collapse, ScoreItinerary, Unaided, AllSome;
    var out := Deduplicated(xs);
    var scored, rows := Map(Scored(settings), out), Map(RowOrNone(shown, settings), out);
    forall i | 0 <= i < |out|
      ensures match scored[i] case Some(x) => rows[i] == Some(RowOf(shown)(x)) && RowOf(shown)(x).key.id == out[i].itineraryId
                              case None => rows[i].None?
    {
      RowOfScored(shown, out[i], settings);
    }
    AllOrNone(scored);
    AllOrNone(rows);
    match AllSome(scored)
    case None =>
      var i :| 0 <= i < |scored| && scored[i].None?;
      assert rows[i] in rows;
    case Some(items) =>
      SomeBack(scored);
      assert rows == Map((r: Row<T>) => Some(r), Map(RowOf(shown), items));
      AllSomeIs(rows, Map(RowOf(shown), items));
      SurvivorIdsDistinct(h, xs);
      RankingThroughRows(shown, items);
      MapSlice(LineOf(shown), FullRanking(items), topN);
  }

  /** The lines depend on the bag of the survivors' rows alone. */
  lemma LinesOfBag<T(!new)>(a: seq<Option<Row<T>>>, b: seq<Option<Row<T>>>, topN: int)
    requires multiset(a) == multiset(b) && (AllSome(a).Some? ==> DistinctIds(AllSome(a).value))
    ensures LinesOfRows(AllSome(a), topN) == LinesOfRows(AllSome(b), topN)
  {
    hide RankedRows, DistinctIds, AllSome;
    AllOrNone(a);
    AllOrNone(b);
    assert None in a <==> None in b by { assert None in multiset(a) <==> None in multiset(b); }
    if AllSome(a).Some? {
      SomeBag(a, b);
      RankedRowsIgnoreArrival(AllSome(a).value, AllSome(b).value);
    }
  }

  lemma SomeBag<T(!new)>(a: seq<Option<T>>, b: seq<Option<T>>)
    requires AllSome(a).Some? && AllSome(b).Some?
    ensures multiset(a) == multiset(b) <==> multiset(AllSome(a).value) == multiset(AllSome(b).value)
  {
    hide AllSome;
    var x, y := AllSome(a).value, AllSome(b).value;
    var some := (t: T) => Some(t);
    SomeBack(a);
    SomeBack(b);
    assert Map(some, x) == a && Map(some, y) == b;
    if multiset(x) == multiset(y) { MapBag(some, x, y); }
    if multiset(a) == multiset(b) {
      forall t ensures multiset(x)[t] == multiset(y)[t] {
        SomeCount(x, t);
        SomeCount(y, t);
      }
    }
  }

  lemma {:induction false} SomeCount<T>(s: seq<T>, t: T)
    ensures multiset(Map((t: T) => Some(t), s))[Some(t)] == multiset(s)[t]
  {
    var f := (t: T) => Some(t);
    if s != [] {
      SomeCount(s[1..], t);
      assert s == [s[0]] + s[1..];
      assert Map(f, s) == [f(s[0])] + Map(f, s[1..]);
    } else {
      assert Map(f, s) == [];
    }
  }

  /** When the cheapest members of each shape agree on what is shown, the report does not depend
      on the order in which the offers arrived, wherever it is cut off. */
  lemma ArrivalOrderInvisible<T(!new)>(h: Digests, shown: Display<T>, xs: seq<NormalizedItinerary>,
                                       ys: seq<NormalizedItinerary>, settings: ScoringSettings, topN: int)
    requires CollisionFree(h) && Unaided(shown) && Permutation(xs, ys)
    requires (forall x :: x in xs ==> Genuine(h, x)) && TiesAgree(RowOrNone(shown, settings), xs)
    ensures ReportLines(shown, xs, settings, topN) == ReportLines(shown, ys, settings, topN)
  {
    hide Genuine, TiesAgree, ReportLines, Unaided, Blind;
    PermutationBag(xs, ys);
    forall y | y in ys ensures Genuine(h, y) { assert y in multiset(xs); }
    var row := RowOrNone(shown, settings);
    RowsBlind(shown, settings);
    AgreementFixesContents(row, xs, ys);
    LinesThroughRows(h, shown, xs, settings, topN);
    LinesThroughRows(h, shown, ys, settings, topN);
    LinesOfBag(Map(row, Deduplicated(xs)), Map(row, Deduplicated(ys)), topN);
  }

  /** The exact condition, for offers that can all be scored: every order of arrival gives the same
      full report if and only if the cheapest members of each shape agree on what is shown. */
  lemma ArrivalOrderInvisibleIff<T(!new)>(h: Digests, shown: Display<T>, xs: seq<NormalizedItinerary>,
                                          settings: ScoringSettings)
    requires CollisionFree(h) && Unaided(shown)
    requires forall x :: x in xs ==> Genuine(h, x) && Scored(settings)(x).Some?
    ensures TiesAgree(RowOrNone(shown, settings), xs)
       <==> forall ys :: multiset(ys) == multiset(xs) ==>
              ReportLines(shown, ys, settings, |xs|) == ReportLines(shown, xs, settings, |xs|)
  {
    hide Genuine, TiesAgree, ReportLines, Unaided;
    if TiesAgree(RowOrNone(shown, settings), xs) {
      forall ys | multiset(ys) == multiset(xs)
        ensures ReportLines(shown, ys, settings, |xs|) == ReportLines(shown, xs, settings, |xs|)
      {
        PermutationBag(xs, ys);
        ArrivalOrderInvisible(h, shown, xs, ys, settings, |xs|);
      }
    } else {
      var ys := DisagreementReported(h, shown, xs, settings);
    }
  }

  lemma DisagreementReported<T(!new)>(h: Digests, shown: Display<T>, xs: seq<NormalizedItinerary>,
                                      settings: ScoringSettings)
    returns (ys: seq<NormalizedItinerary>)
    requires CollisionFree(h) && Unaided(shown) && !TiesAgree(RowOrNone(shown, settings), xs)
    requires forall x :: x in xs ==> Genuine(h, x) && Scored(settings)(x).Some?
    ensures multiset(ys) == multiset(xs)
    ensures ReportLines(shown, ys, settings, |xs|) != ReportLines(shown, xs, settings, |xs|)
  {
    hide Genuine, TiesAgree, ReportLines, Unaided, Blind, Deduplicated, RowOrNone, Scored;
    var row := RowOrNone(shown, settings);
    RowsBlind(shown, settings);
    ContentsOrderFreeIff(row, xs);
    ys :| multiset(ys) == multiset(xs)
          && multiset(Map(row, Deduplicated(ys))) != multiset(Map(row, Deduplicated(xs)));
    forall y | y in ys ensures y in xs { assert y in multiset(xs); }
    BagsSameSize(xs, ys);
    if ReportLines(shown, ys, settings, |xs|) == ReportLines(shown, xs, settings, |xs|) {
      FullLinesTell(h, shown, xs, ys, settings);
    }
  }

  /** Full reports of offers that can all be scored tell different rows apart. */
  lemma FullLinesTell<T(!new)>(h: Digests, shown: Display<T>, xs: seq<NormalizedItinerary>, ys: seq<NormalizedItinerary>,
                               settings: ScoringSettings)
    requires CollisionFree(h) && Unaided(shown) && |xs| == |ys|
    requires forall x :: x in xs || x in ys ==> Genuine(h, x) && Scored(settings)(x).Some?
    requires ReportLines(shown, xs, settings, |xs|) == ReportLines(shown, ys, settings, |xs|)
    ensures multiset(Map(RowOrNone(shown, settings), Deduplicated(xs)))
         == multiset(Map(RowOrNone(shown, settings), Deduplicated(ys)))
  {
    hide Genuine, ReportLines, Unaided, RankedRows, Scored, DistinctIds, AllSome, RowOrNone, Deduplicated;
    LinesThroughRows(h, shown, xs, settings, |xs|);
    LinesThroughRows(h, shown, ys, settings, |xs|);
    RowsExist(shown, xs, settings);
    RowsExist(shown, ys, settings);
    RowsOfLines(Map(RowOrNone(shown, settings), Deduplicated(xs)), Map(RowOrNone(shown, settings), Deduplicated(ys)), |xs|);
  }

  lemma RowsOfLines<T(!new)>(a: seq<Option<Row<T>>>, b: seq<Option<Row<T>>>, n: nat)
    requires AllSome(a).Some? && AllSome(b).Some? && |AllSome(a).value| <= n && |AllSome(b).value| <= n
    requires LinesOfRows(AllSome(a), n) == LinesOfRows(AllSome(b), n)
    ensures multiset(a) == multiset(b)
  {
    hide AllSome, RankedRows;
    var x, y := AllSome(a).value, AllSome(b).value;
    if n == 0 {
      assert x == [] && y == [];
    } else {
      assert RankedRows(x) == RankedRows(y);
      RowsFromLines(x, y);
    }
    SomeBag(a, b);
  }

  /** A survivor is scored like one of the itineraries of its class, and there are no more of them than offers. */
  lemma RowsExist<T(!new)>(shown: Display<T>, xs: seq<NormalizedItinerary>, settings: ScoringSettings)
    requires forall x :: x in xs ==> Scored(settings)(x).Some?
    ensures var rows := AllSome(Map(RowOrNone(shown, settings), Deduplicated(xs))); rows.Some? && |rows.value| <= |xs|
  {
    hide Collapse, ScoreItinerary, SurvivorIndex;
    var out, keys := Deduplicated(xs), ShapeKeys(xs);
    var rows := Map(RowOrNone(shown, settings), out);
    AllOrNone(rows);
    forall i | 0 <= i < |rows| ensures rows[i].Some? {
      var g := Class(xs, keys[i]);
      ClassMember(xs, keys[i], g[SurvivorIndex(g)]);
      CollapseFields(g);
      ScoreReads(g[SurvivorIndex(g)], Collapse(g), settings);
      RowOfScored(shown, out[i], settings);
    }
    FewerSurvivors(xs);
  }

  lemma FewerSurvivors(xs: seq<NormalizedItinerary>)
    ensures |Deduplicated(xs)| <= |xs|
    ensures Deduplicated(xs) == [] <==> xs == []
  {
    hide Collapse;
    if xs != [] { KeyPresent(xs, 0); }
    ClassSizes(xs);
    forall i | 0 <= i < |ShapeKeys(xs)| ensures Sizes(xs, ShapeKeys(xs))[i] >= 1 {
      KeyHasClass(xs, ShapeKeys(xs)[i]);
    }
    SumAtLeast(Sizes(xs, ShapeKeys(xs)));
  }

  lemma {:induction false} SumAtLeast(s: seq<int>)
    requires forall i :: 0 <= i < |s| ==> s[i] >= 1
    ensures Sum(s) >= |s|
  {
    if s != [] { SumAtLeast(s[1..]); }
  }

  // -- what ties agree on -------------------------------------------------------------------

  /** Two members of one class that no other is cheaper than share identity and price. */
  lemma TiesShareIdentity(h: Digests, xs: seq<NormalizedItinerary>, k: nat, x: NormalizedItinerary, y: NormalizedItinerary)
    requires Minimal(Class(xs, k), x) && Minimal(Class(xs, k), y)
    requires CollisionFree(h) && forall z :: z in xs ==> Genuine(h, z)
    ensures x in xs && y in xs && x.shapeKey == y.shapeKey == k
    ensures x.itineraryId == y.itineraryId && x.priceEur == y.priceEur
  {
    hide Class;
    ClassMember(xs, k, x);
    ClassMember(xs, k, y);
    assert !Cheaper(x, y) && !Cheaper(y, x);
    IdIdentifies(h, x.shapeKey, Carriers(x.legs), x.priceEur, y.shapeKey, Carriers(y.legs), y.priceEur);
  }

  /** Cut into legs alike, such ties agree on score, price, duration, identity and offer count, so
      the ranking of these never depends on arrival. */
  lemma TiesRankAlike(h: Digests, xs: seq<NormalizedItinerary>, settings: ScoringSettings)
    requires CollisionFree(h) && (forall x :: x in xs ==> Genuine(h, x)) && SplitAlike(xs)
    ensures TiesAgree(RowOrNone(Count(), settings), xs)
  {
    hide Class, ScoreItinerary, TotalDuration, Genuine, Minimal;
    forall k, x, y | Minimal(Class(xs, k), x) && Minimal(Class(xs, k), y)
      ensures RowOrNone(Count(), settings)(Bare(x, |Class(xs, k)|)) == RowOrNone(Count(), settings)(Bare(y, |Class(xs, k)|))
    {
      TiesShareIdentity(h, xs, k, x, y);
      SameShapeSameScore(h, x, y, settings, None);
      SameRow(x, y, |Class(xs, k)|, settings);
    }
  }

  lemma SameRow(x: NormalizedItinerary, y: NormalizedItinerary, n: nat, settings: ScoringSettings)
    requires x.itineraryId == y.itineraryId && x.priceEur == y.priceEur
    requires ScoreItinerary(x, settings, None) == ScoreItinerary(y, settings, None)
    requires TotalDuration(x.legs) == TotalDuration(y.legs)
    ensures RowOrNone(Count(), settings)(Bare(x, n)) == RowOrNone(Count(), settings)(Bare(y, n))
  {
    hide ScoreItinerary, TotalDuration;
    ScoreReads(x, Bare(x, n), settings);
    ScoreReads(y, Bare(y, n), settings);
  }

  /** In particular for itineraries of one leg, which cannot be cut differently. */
  lemma SingleLegsSplitAlike(h: Digests, xs: seq<NormalizedItinerary>)
    requires CollisionFree(h) && forall x :: x in xs ==> Genuine(h, x) && |x.legs| == 1
    ensures SplitAlike(xs)
  {
    forall x, y | x in xs && y in xs && x.shapeKey == y.shapeKey ensures SameSplit(x.legs, y.legs) {
      assert x.legs[1..] == [] && y.legs[1..] == [];
      assert |Shapes(AllSegments(x.legs))| == |x.legs[0].segments|
          && |Shapes(AllSegments(y.legs))| == |y.legs[0].segments|;
    }
  }

  // -- and what they need not agree on ---------------------------------------------------------

  /** The same flights as two legs and as one: one identity, one shape, but another number of stops. */
  lemma CutsAreInvisibleToIdentity(h: Digests, s: Segment, t: Segment, o: Layover, cabin: Cabin, adults: int,
                                   price: Money)
    ensures var two, one := [Leg([s], []), Leg([t], [])], [Leg([s, t], [o])];
            && ShapeKey(h, two, cabin, adults) == ShapeKey(h, one, cabin, adults)
            && ItineraryId(h, ShapeKey(h, two, cabin, adults), Carriers(two), price)
               == ItineraryId(h, ShapeKey(h, one, cabin, adults), Carriers(one), price)
            && StopCount(two) == 0 && StopCount(one) == 1
  {
    hide ItineraryId;
    var two, one := [Leg([s], []), Leg([t], [])], [Leg([s, t], [o])];
    var last := [Leg([t], [])];
    assert two[1..] == last && last[1..] == [] && one[1..] == [];
    assert AllSegments(last) == [t] + [] == [t] && StopCount(last) == 0;
    assert AllSegments(two) == [s] + AllSegments(last) == [s, t];
    assert AllSegments(one) == [s, t] + [] == [s, t];
    assert StopCount(two) == 0 + StopCount(last);
  }

  /** Two offers that differ only in their booking link: the printed report shows which came first. */
  lemma BookingLinkShowsArrival(h: Digests, a: NormalizedItinerary, link: Option<string>, settings: ScoringSettings)
    requires CollisionFree(h) && Genuine(h, a) && Scored(settings)(a).Some? && a.bookingUrl != link
    ensures var xs := [a, a.(bookingUrl := link)];
            exists ys :: multiset(ys) == multiset(xs)
                         && ReportLines(Printed(), ys, settings, 2) != ReportLines(Printed(), xs, settings, 2)
  {
    hide ReportLines, Class, RowOrNone;
    var b := a.(bookingUrl := link);
    var xs := [a, b];
    DisplaysUnaided();
    LinkedIsGenuine(h, a, link, settings);
    BothMinimal(a, b);
    LinksDiffer(a, link, |Class(xs, a.shapeKey)|, settings);
    assert !TiesAgree(RowOrNone(Printed(), settings), xs);
    ArrivalOrderInvisibleIff(h, Printed(), xs, settings);
    assert |xs| == 2;
  }

  lemma LinkedIsGenuine(h: Digests, a: NormalizedItinerary, link: Option<string>, settings: ScoringSettings)
    requires Genuine(h, a) && Scored(settings)(a).Some?
    ensures Genuine(h, a.(bookingUrl := link)) && Scored(settings)(a.(bookingUrl := link)).Some?
  {
    ScoreReads(a, a.(bookingUrl := link), settings);
  }

  lemma BothMinimal(a: NormalizedItinerary, b: NormalizedItinerary)
    requires a.shapeKey == b.shapeKey && a.priceEur == b.priceEur && a.itineraryId == b.itineraryId
    ensures Minimal(Class([a, b], a.shapeKey), a) && Minimal(Class([a, b], a.shapeKey), b)
  {
    FilterAll(OfShape(a.shapeKey), [a, b]);
  }

  lemma LinksDiffer(a: NormalizedItinerary, link: Option<string>, n: nat, settings: ScoringSettings)
    requires Scored(settings)(a).Some? && a.bookingUrl != link
    ensures RowOrNone(Printed(), settings)(Bare(a, n)) != RowOrNone(Printed(), settings)(Bare(a.(bookingUrl := link), n))
  {
    hide ScoreItinerary, AllSegments, AllLayovers, TotalDuration, StopCount, Sum;
    var b := a.(bookingUrl := link);
    ScoreReads(a, Bare(a, n), settings);
    ScoreReads(a, Bare(b, n), settings);
    var x, y := Scored(settings)(Bare(a, n)).value, Scored(settings)(Bare(b, n)).value;
    assert Printed()(x).bookingUrl == a.bookingUrl && Printed()(y).bookingUrl == link;
  }
}
