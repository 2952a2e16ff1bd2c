/** When the analysis of a destination depends on the order of the tasks, or of what each of them found. */
module AnalysisOrder {
  import opened Wrappers
  import opened Seqs
  import opened Domain
  import opened Itineraries
  import opened Dedup
  import opened Survivors
  import opened Scoring
  import opened Waves
  import opened DirectVsStop
  import opened Report

  /** The same tasks in another order, each with the same finds in another order. */
  ghost predicate Rearranged(a: seq<SearchTask>, va: FoundByTask, b: seq<SearchTask>, vb: FoundByTask) {
    multiset(a) == multiset(b) && SamePrices(va, vb, a)
  }

  ghost predicate SamePool(a: seq<NormalizedItinerary>, b: seq<NormalizedItinerary>) {
    forall x :: x in a <==> x in b
  }

  lemma PoolsRearranged(a: seq<SearchTask>, va: FoundByTask, b: seq<SearchTask>, vb: FoundByTask, d: string)
    requires Rearranged(a, va, b, vb)
    ensures SamePool(DirectPool(a, va, |a|, d), DirectPool(b, vb, |b|, d))
    ensures SamePool(StopPool(a, va, |a|, d), StopPool(b, vb, |b|, d))
  {
    hide DirectPool, StopPool;
    forall x ensures x in DirectPool(a, va, |a|, d) <==> x in DirectPool(b, vb, |b|, d)
             ensures x in StopPool(a, va, |a|, d) <==> x in StopPool(b, vb, |b|, d) {
      PoolsOfMembers(a, b, va, vb, d, x);
    }
  }

  // -- everything but the two flights ---------------------------------------------------------

  /** An analysis with the identities of the two flights in place of the flights. */
  datatype Outline = Outline(
    directId: Option<nat>,
    stopId: Option<nat>,
    priceDifference: Option<real>,
    relativeDifference: Option<real>,
    tier: Tier,
    arms: Arms,
    timeSaved: Option<int>,
    divergence: Option<Divergence>)

  function IdOf(it: Option<NormalizedItinerary>): Option<nat> {
    match it case None => None case Some(x) => Some(x.itineraryId)
  }

  function OutlineOf(r: Result<Analysis, ScoreError>): Result<Outline, ScoreError> {
    match r
    case Err(e) => Err(e)
    case Ok(a) => Ok(Outline(IdOf(a.cheapestDirect), IdOf(a.cheapestStop), a.priceDifference, a.relativeDifference,
                             a.tier, a.arms, a.timeSaved, a.divergence))
  }

  /** Nothing the analysis reads tells the two apart. */
  ghost predicate Alike(x: NormalizedItinerary, y: NormalizedItinerary, settings: ScoringSettings) {
    && x.itineraryId == y.itineraryId && x.priceEur == y.priceEur && TotalDuration(x.legs) == TotalDuration(y.legs)
    && forall p :: ScoreItinerary(x, settings, p) == ScoreItinerary(y, settings, p)
  }

  /** The cheapest of two pools with the same members. */
  lemma CheapestAlike(h: Digests, a: seq<NormalizedItinerary>, b: seq<NormalizedItinerary>, settings: ScoringSettings)
    requires CollisionFree(h) && SamePool(a, b) && (forall x :: x in a ==> Genuine(h, x)) && SplitAlike(a)
    ensures IdOf(Cheapest(a)) == IdOf(Cheapest(b))
    ensures Cheapest(a).Some? ==> Alike(Cheapest(a).value, Cheapest(b).value, settings)
  {
    hide ScoreItinerary, TotalDuration, LegsFit, SameSplit, Shapes;
    if a != [] { assert a[0] in b; }
    if b != [] { assert b[0] in a; }
    if a != [] {
      var x, y := a[SurvivorIndex(a)], b[SurvivorIndex(b)];
      BothCheapest(a, b);
      IdIdentifies(h, x.shapeKey, Carriers(x.legs), x.priceEur, y.shapeKey, Carriers(y.legs), y.priceEur);
      forall p ensures ScoreItinerary(x, settings, p) == ScoreItinerary(y, settings, p) {
        SameShapeSameScore(h, x, y, settings, p);
      }
      SameShapeSameScore(h, x, y, settings, None);
    }
  }

  lemma BothCheapest(a: seq<NormalizedItinerary>, b: seq<NormalizedItinerary>)
    requires a != [] && b != [] && SamePool(a, b)
    ensures var x, y := a[SurvivorIndex(a)], b[SurvivorIndex(b)];
            Minimal(a, x) && Minimal(a, y) && x.priceEur.amount == y.priceEur.amount && x.itineraryId == y.itineraryId
  {
    SurvivorIsMinimal(a);
    SurvivorIsMinimal(b);
  }

  lemma PairsAlike(d: NormalizedItinerary, e: NormalizedItinerary, s: NormalizedItinerary, t: NormalizedItinerary,
                   thresholds: Thresholds, settings: ScoringSettings)
    requires Alike(d, e, settings) && Alike(s, t, settings)
    ensures OutlineOf(AnalyzePair(d, s, thresholds, settings)) == OutlineOf(AnalyzePair(e, t, thresholds, settings))
  {
    hide ScoreItinerary, TotalDuration, EvaluateDirectTier;
  }

  /** However tasks and finds are ordered, tier, arms, both differences, the time saved, the divergence and
      the identities of the two flights are the same, if itineraries of one shape are cut into legs alike. */
  lemma OutlineIgnoresExecutionOrder(h: Digests, a: seq<SearchTask>, va: FoundByTask, b: seq<SearchTask>,
                                     vb: FoundByTask, d: string, thresholds: Thresholds, settings: ScoringSettings)
    requires CollisionFree(h) && Rearranged(a, va, b, vb)
    requires forall t, x :: t in a && x in Found(va, t) ==> Genuine(h, x)
    requires SplitAlike(DirectPool(a, va, |a|, d)) && SplitAlike(StopPool(a, va, |a|, d))
    ensures OutlineOf(AnalyzeRun(a, va, d, thresholds, settings)) == OutlineOf(AnalyzeRun(b, vb, d, thresholds, settings))
  {
    hide DirectPool, StopPool, AnalyzePair, SplitAlike, Genuine, Alike, Cheapest;
    var p, q := DirectPool(a, va, |a|, d), StopPool(a, va, |a|, d);
    var p', q' := DirectPool(b, vb, |b|, d), StopPool(b, vb, |b|, d);
    PoolsRearranged(a, va, b, vb, d);
    forall x | x in p || x in q ensures Genuine(h, x) { PoolMember(a, va, d, x); }
    CheapestAlike(h, p, p', settings);
    CheapestAlike(h, q, q', settings);
    if Cheapest(p).Some? && Cheapest(q).Some? {
      PairsAlike(Cheapest(p).value, Cheapest(p').value, Cheapest(q).value, Cheapest(q').value, thresholds, settings);
    }
  }

  // -- the whole record -----------------------------------------------------------------------

  /** The pool's cheapest members are all one itinerary. */
  ghost predicate OneCheapest(pool: seq<NormalizedItinerary>) {
    forall x, y :: Minimal(pool, x) && Minimal(pool, y) ==> x == y
  }

  lemma CheapestOfMembers(a: seq<NormalizedItinerary>, b: seq<NormalizedItinerary>)
    requires SamePool(a, b) && OneCheapest(a)
    ensures Cheapest(a) == Cheapest(b)
  {
    if a != [] { assert a[0] in b; }
    if b != [] { assert b[0] in a; }
    if a != [] { BothCheapest(a, b); }
  }

  /** An analysis that succeeds names the cheapest of both pools. */
  lemma RecordNamesCheapest(tasks: seq<SearchTask>, valid: FoundByTask, d: string, thresholds: Thresholds,
                            settings: ScoringSettings)
    requires AnalyzeRun(tasks, valid, d, thresholds, settings).Ok?
    ensures var r := AnalyzeRun(tasks, valid, d, thresholds, settings).value;
            && r.cheapestDirect == Cheapest(DirectPool(tasks, valid, |tasks|, d))
            && r.cheapestStop == Cheapest(StopPool(tasks, valid, |tasks|, d))
  {
    hide DirectPool, StopPool, Cheapest, ScoreItinerary;
  }

  lemma {:induction false} FirstTaskLeads(tasks: seq<SearchTask>, valid: FoundByTask, n: nat, d: string)
    requires 1 <= n <= |tasks|
    ensures DirectPool(tasks, valid, 1, d) <= DirectPool(tasks, valid, n, d)
    ensures StopPool(tasks, valid, 1, d) <= StopPool(tasks, valid, n, d)
  {
    hide Found, HasStops;
    if n > 1 { FirstTaskLeads(tasks, valid, n - 1, d); }
  }

  /** The arrangement in which task `i` comes first, with its find `j` first. */
  function FindFirst(tasks: seq<SearchTask>, valid: FoundByTask, i: nat, j: nat): (r: (seq<SearchTask>, FoundByTask))
    requires i < |tasks| && j < |Found(valid, tasks[i])|
  {
    (ToFront(tasks, i), valid[tasks[i].taskId := ToFront(Found(valid, tasks[i]), j)])
  }

  lemma FindFirstRearranges(tasks: seq<SearchTask>, valid: FoundByTask, i: nat, j: nat)
    requires i < |tasks| && j < |Found(valid, tasks[i])|
    ensures var (b, vb) := FindFirst(tasks, valid, i, j);
            && Rearranged(tasks, valid, b, vb)
            && b != [] && b[0] == tasks[i] && Found(vb, b[0]) != [] && Found(vb, b[0])[0] == Found(valid, tasks[i])[j]
  {
    ToFrontBag(tasks, i);
    ToFrontBag(Found(valid, tasks[i]), j);
  }

  /** Any direct flight no other is cheaper than is the one recorded, under some order. */
  lemma DirectCanLead(tasks: seq<SearchTask>, valid: FoundByTask, d: string, x: NormalizedItinerary)
    returns (b: seq<SearchTask>, vb: FoundByTask)
    requires Minimal(DirectPool(tasks, valid, |tasks|, d), x)
    ensures Rearranged(tasks, valid, b, vb) && Cheapest(DirectPool(b, vb, |b|, d)) == Some(x)
  {
    PoolMember(tasks, valid, d, x);
    var t :| t in tasks && DirectFrom(t, valid, d, x);
    var i :| 0 <= i < |tasks| && tasks[i] == t;
    var j :| 0 <= j < |Found(valid, t)| && Found(valid, t)[j] == x;
    FindFirstRearranges(tasks, valid, i, j);
    b, vb := FindFirst(tasks, valid, i, j).0, FindFirst(tasks, valid, i, j).1;
    FirstTaskLeads(b, vb, |b|, d);
    assert DirectPool(b, vb, 1, d) == [] + Found(vb, b[0]);
    PoolsRearranged(tasks, valid, b, vb, d);
    FirstMinimalSurvives(DirectPool(b, vb, |b|, d));
  }

  /** So is any such flight with a stop. */
  lemma StopCanLead(tasks: seq<SearchTask>, valid: FoundByTask, d: string, x: NormalizedItinerary)
    returns (b: seq<SearchTask>, vb: FoundByTask)
    requires Minimal(StopPool(tasks, valid, |tasks|, d), x)
    ensures Rearranged(tasks, valid, b, vb) && Cheapest(StopPool(b, vb, |b|, d)) == Some(x)
  {
    PoolMember(tasks, valid, d, x);
    var t :| t in tasks && StopFrom(t, valid, d, x);
    var i :| 0 <= i < |tasks| && tasks[i] == t;
    var j :| 0 <= j < |Found(valid, t)| && Found(valid, t)[j] == x;
    FindFirstRearranges(tasks, valid, i, j);
    b, vb := FindFirst(tasks, valid, i, j).0, FindFirst(tasks, valid, i, j).1;
    FirstTaskLeads(b, vb, |b|, d);
    assert StopPool(b, vb, 1, d) == [] + Filter(HasStops, Found(vb, b[0]));
    PoolsRearranged(tasks, valid, b, vb, d);
    FirstMinimalSurvives(StopPool(b, vb, |b|, d));
  }

  /** Every order of tasks and finds gives the same record. */
  ghost predicate RecordFixed(tasks: seq<SearchTask>, valid: FoundByTask, d: string, thresholds: Thresholds,
                              settings: ScoringSettings) {
    forall b, vb :: Rearranged(tasks, valid, b, vb) ==>
      AnalyzeRun(b, vb, d, thresholds, settings) == AnalyzeRun(tasks, valid, d, thresholds, settings)
  }

  lemma FixedRecordLeaders(tasks: seq<SearchTask>, valid: FoundByTask, d: string, thresholds: Thresholds,
                           settings: ScoringSettings)
    requires AnalyzeRun(tasks, valid, d, thresholds, settings).Ok?
    requires RecordFixed(tasks, valid, d, thresholds, settings)
    ensures OneCheapest(DirectPool(tasks, valid, |tasks|, d)) && OneCheapest(StopPool(tasks, valid, |tasks|, d))
  {
    hide DirectPool, StopPool, AnalyzeRun, Cheapest, Rearranged, Minimal;
    var p, q := DirectPool(tasks, valid, |tasks|, d), StopPool(tasks, valid, |tasks|, d);
    RecordNamesCheapest(tasks, valid, d, thresholds, settings);
    forall x | Minimal(p, x) ensures Cheapest(p) == Some(x) {
      var b, vb := DirectCanLead(tasks, valid, d, x);
      RecordNamesCheapest(b, vb, d, thresholds, settings);
    }
    forall x | Minimal(q, x) ensures Cheapest(q) == Some(x) {
      var b, vb := StopCanLead(tasks, valid, d, x);
      RecordNamesCheapest(b, vb, d, thresholds, settings);
    }
  }

  /** Where the analysis succeeds, its whole record is the same for every order of tasks and finds exactly
      when neither pool holds two different itineraries that are both cheapest by price and identity. */
  lemma RecordFixedIff(tasks: seq<SearchTask>, valid: FoundByTask, d: string, thresholds: Thresholds,
                       settings: ScoringSettings)
    requires AnalyzeRun(tasks, valid, d, thresholds, settings).Ok?
    ensures RecordFixed(tasks, valid, d, thresholds, settings)
       <==> OneCheapest(DirectPool(tasks, valid, |tasks|, d)) && OneCheapest(StopPool(tasks, valid, |tasks|, d))
  {
    hide DirectPool, StopPool, AnalyzePair, Cheapest, Rearranged, OneCheapest;
    var p, q := DirectPool(tasks, valid, |tasks|, d), StopPool(tasks, valid, |tasks|, d);
    if OneCheapest(p) && OneCheapest(q) {
      forall b, vb | Rearranged(tasks, valid, b, vb)
        ensures AnalyzeRun(b, vb, d, thresholds, settings) == AnalyzeRun(tasks, valid, d, thresholds, settings)
      {
        PoolsRearranged(tasks, valid, b, vb, d);
        CheapestOfMembers(p, DirectPool(b, vb, |b|, d));
        CheapestOfMembers(q, StopPool(b, vb, |b|, d));
      }
    }
    if RecordFixed(tasks, valid, d, thresholds, settings) {
      FixedRecordLeaders(tasks, valid, d, thresholds, settings);
    }
  }
}
