/** Direct against one-stop, destination by destination: the tier ladder, the score, and when the two disagree. */
module DirectVsStop {
  import opened Wrappers
  import opened Seqs
  import opened Domain
  import opened Itineraries
  import opened Dedup
  import opened Scoring
  import opened Validation
  import opened Waves

  datatype Tier = Recommended | GoodValue | NotRecommended | NotAvailable

  /** Which arm of the ladder decided a tier. */
  datatype Arms = BothArms | AbsoluteArm | RelativeArm | NoArm | NoAlternative | NoDirect

  datatype Thresholds = Thresholds(
    recommendedMaxDiff: real,
    recommendedMaxRelative: real,
    goodValueMaxDiff: real,
    goodValueMaxRelative: real)

  // -- the ladder ---------------------------------------------------------------------

  /** One rung: the absolute arm, or the relative one where it is defined. */
  function Rung(diff: real, rel: Option<real>, maxDiff: real, maxRelative: real): Arms {
    var absolute, relative := diff <= maxDiff, rel.Some? && rel.value <= maxRelative;
    if absolute && relative then BothArms
    else if absolute then AbsoluteArm
    else if relative then RelativeArm
    else NoArm
  }

  function EvaluateDirectTier(diff: real, rel: Option<real>, t: Thresholds): (Tier, Arms) {
    var recommended := Rung(diff, rel, t.recommendedMaxDiff, t.recommendedMaxRelative);
    var goodValue := Rung(diff, rel, t.goodValueMaxDiff, t.goodValueMaxRelative);
    if recommended != NoArm then (Recommended, recommended)
    else if goodValue != NoArm then (GoodValue, goodValue)
    else (NotRecommended, NoArm)
  }

  /** Undefined, not infinite, for a stop price of zero. */
  function Relative(diff: real, stop: real): Option<real> {
    if stop == 0.0 then None else Some(diff / stop)
  }

  function Larger(a: real, b: real): real { if a < b then b else a }

  /** The largest price difference a rung tolerates. */
  function Limit(stop: real, maxDiff: real, maxRelative: real): real {
    if stop == 0.0 then maxDiff else Larger(maxDiff, maxRelative * stop)
  }

  /** The largest price difference at which the policy still favours the direct flight. */
  function PolicyLimit(stop: real, t: Thresholds): real {
    Larger(Limit(stop, t.recommendedMaxDiff, t.recommendedMaxRelative),
        Limit(stop, t.goodValueMaxDiff, t.goodValueMaxRelative))
  }

  lemma RelativeWithin(diff: real, stop: real, r: real)
    requires stop > 0.0
    ensures diff / stop <= r <==> diff <= r * stop
  {
    assert diff == (diff / stop) * stop;
    if diff / stop <= r {
      assert (r - diff / stop) * stop >= 0.0;
    } else {
      assert (diff / stop - r) * stop > 0.0;
    }
  }

  lemma RungIsLimit(diff: real, stop: real, maxDiff: real, maxRelative: real)
    requires stop >= 0.0
    ensures Rung(diff, Relative(diff, stop), maxDiff, maxRelative) != NoArm
        <==> diff <= Limit(stop, maxDiff, maxRelative)
  {
    if stop > 0.0 {
      RelativeWithin(diff, stop, maxRelative);
      assert Relative(diff, stop) == Some(diff / stop);
    }
  }

  /** The ladder without division: each tier is a bound on the price difference. */
  lemma TierIsBands(diff: real, stop: real, t: Thresholds)
    requires stop >= 0.0
    ensures EvaluateDirectTier(diff, Relative(diff, stop), t).0 ==
            if diff <= Limit(stop, t.recommendedMaxDiff, t.recommendedMaxRelative) then Recommended
            else if diff <= Limit(stop, t.goodValueMaxDiff, t.goodValueMaxRelative) then GoodValue
            else NotRecommended
  {
    hide Rung, Relative, Limit;
    RungIsLimit(diff, stop, t.recommendedMaxDiff, t.recommendedMaxRelative);
    RungIsLimit(diff, stop, t.goodValueMaxDiff, t.goodValueMaxRelative);
  }

  function Rank(t: Tier): nat {
    match t case Recommended => 0 case GoodValue => 1 case NotRecommended => 2 case NotAvailable => 3
  }

  /** A stop fare below zero turns the relative arm around: every direct flight passes one arm. */
  lemma BelowZeroAlwaysRecommended(diff: real, stop: real, t: Thresholds)
    requires stop < 0.0 && t.recommendedMaxDiff >= 0.0 && t.recommendedMaxRelative >= 0.0
    ensures EvaluateDirectTier(diff, Relative(diff, stop), t).0 == Recommended
  {
    if diff > 0.0 {
      assert (diff / stop) * stop == diff;
      assert diff / stop <= 0.0;
    }
  }

  /** Against one stop fare, a dearer direct flight never gets a better tier. */
  lemma TierNeverImproves(cheaper: real, dearer: real, stop: real, t: Thresholds)
    requires cheaper <= dearer
    requires stop >= 0.0 || (t.recommendedMaxDiff >= 0.0 && t.recommendedMaxRelative >= 0.0)
    ensures Rank(EvaluateDirectTier(cheaper - stop, Relative(cheaper - stop, stop), t).0)
         <= Rank(EvaluateDirectTier(dearer - stop, Relative(dearer - stop, stop), t).0)
  {
    if stop >= 0.0 {
      TierIsBands(cheaper - stop, stop, t);
      TierIsBands(dearer - stop, stop, t);
    } else {
      BelowZeroAlwaysRecommended(cheaper - stop, stop, t);
      BelowZeroAlwaysRecommended(dearer - stop, stop, t);
    }
  }

  // -- the analysis ---------------------------------------------------------------------

  /** The cheapest of a pool, ties going to the smaller identity. */
  function Cheapest(pool: seq<NormalizedItinerary>): Option<NormalizedItinerary> {
    if pool == [] then None else Some(pool[SurvivorIndex(pool)])
  }

  /** The policy favours what the score does not, or the reverse. */
  datatype Divergence = PolicyOnly | ScoreOnly

  datatype Analysis = Analysis(
    cheapestDirect: Option<NormalizedItinerary>,
    cheapestStop: Option<NormalizedItinerary>,
    priceDifference: Option<real>,
    relativeDifference: Option<real>,
    tier: Tier,
    arms: Arms,
    timeSaved: Option<int>,
    divergence: Option<Divergence>)

  function ComputeDivergence(tier: Tier, direct: NormalizedItinerary, stop: NormalizedItinerary,
                             settings: ScoringSettings): Result<Option<Divergence>, ScoreError> {
    match ScoreItinerary(direct, settings, Some(Eur(stop.priceEur)))
    case Err(e) => Err(e)
    case Ok(d) =>
      match ScoreItinerary(stop, settings, None)
      case Err(e) => Err(e)
      case Ok(s) =>
        var policyFavors, scoreFavors := tier == Recommended || tier == GoodValue, d.Adjusted() < s.Adjusted();
        Ok(if policyFavors == scoreFavors then None else Some(if policyFavors then PolicyOnly else ScoreOnly))
  }

  function AnalyzePair(d: NormalizedItinerary, s: NormalizedItinerary, thresholds: Thresholds,
                       settings: ScoringSettings): Result<Analysis, ScoreError> {
    var diff := Eur(d.priceEur) - Eur(s.priceEur);
    var rel := Relative(diff, Eur(s.priceEur));
    var (tier, arms) := EvaluateDirectTier(diff, rel, thresholds);
    match ComputeDivergence(tier, d, s, settings)
    case Err(e) => Err(e)
    case Ok(divergence) =>
      Ok(Analysis(Some(d), Some(s), Some(diff), rel, tier, arms,
                  Some(TotalDuration(s.legs) - TotalDuration(d.legs)), divergence))
  }

  function AnalyzeDestination(directPool: seq<NormalizedItinerary>, stopPool: seq<NormalizedItinerary>,
                              thresholds: Thresholds, settings: ScoringSettings): Result<Analysis, ScoreError> {
    match (Cheapest(directPool), Cheapest(stopPool))
    case (None, s) => Ok(Analysis(None, s, None, None, NotAvailable, NoDirect, None, None))
    case (Some(d), None) => Ok(Analysis(Some(d), None, None, None, Recommended, NoAlternative, None, None))
    case (Some(d), Some(s)) => AnalyzePair(d, s, thresholds, settings)
  }

  /** With a side missing nothing is compared: without a direct flight there is none to recommend, and without
      an alternative the direct flight is recommended. */
  lemma OneSidedAnalysis(direct: seq<NormalizedItinerary>, stop: seq<NormalizedItinerary>, thresholds: Thresholds,
                         settings: ScoringSettings)
    requires direct == [] || stop == []
    ensures var r := AnalyzeDestination(direct, stop, thresholds, settings);
            && r.Ok? && r.value.cheapestDirect == Cheapest(direct) && r.value.cheapestStop == Cheapest(stop)
            && r.value.priceDifference.None? && r.value.relativeDifference.None?
            && r.value.timeSaved.None? && r.value.divergence.None?
            && (direct == [] ==> r.value.tier == NotAvailable && r.value.arms == NoDirect)
            && (direct != [] ==> r.value.tier == Recommended && r.value.arms == NoAlternative)
  {
    hide ScoreItinerary, SurvivorIndex;
  }

  /** The record's numbers: the difference is what the direct flight costs more, the saving is what it is
      faster by, the relative difference exists unless the stop fare is zero, and a direct
      flight that is cheaper is always recommended under a ladder without negative limits. */
  lemma PairRecord(d: NormalizedItinerary, s: NormalizedItinerary, t: Thresholds, settings: ScoringSettings)
    requires AnalyzePair(d, s, t, settings).Ok?
    ensures var a := AnalyzePair(d, s, t, settings).value;
            && a.priceDifference.Some? && Eur(s.priceEur) + a.priceDifference.value == Eur(d.priceEur)
            && a.timeSaved.Some? && TotalDuration(d.legs) + a.timeSaved.value == TotalDuration(s.legs)
            && (a.relativeDifference.Some? <==> s.priceEur.amount != 0)
            && (a.relativeDifference.Some? ==> a.relativeDifference.value * Eur(s.priceEur) == a.priceDifference.value)
            && (d.priceEur.amount <= s.priceEur.amount && t.recommendedMaxDiff >= 0.0 ==> a.tier == Recommended)
  {
    hide ScoreItinerary, TotalDuration;
    if Eur(s.priceEur) != 0.0 {
      assert (Eur(d.priceEur) - Eur(s.priceEur)) / Eur(s.priceEur) * Eur(s.priceEur) == Eur(d.priceEur) - Eur(s.priceEur);
    }
  }

  /** The worked example: 1195 euros direct in 8 hours against 1000 euros in 15 with a
      penalty of 10 is good value by the ladder, yet scores 1099 against 1055. */
  lemma WorkedDivergence(d: NormalizedItinerary, s: NormalizedItinerary, settings: ScoringSettings)
    requires settings.mode == FixedBonus && settings.directBonusEur == -120.0 && settings.timeValueEurPerHour == 3.0
    requires d.priceEur.amount == 119500 && TotalDuration(d.legs) == 8 * 60 * MINUTE
    requires s.priceEur.amount == 100000 && TotalDuration(s.legs) == 15 * 60 * MINUTE
    requires StopCount(d.legs) == 0 && PenaltySum(AllLayovers(d.legs), settings.bands) == Ok(0.0)
    requires StopCount(s.legs) == 1 && PenaltySum(AllLayovers(s.legs), settings.bands) == Ok(10.0)
    ensures ScoreItinerary(d, settings, Some(1000.0)).value.Adjusted() == 1099.0
    ensures ScoreItinerary(s, settings, None).value.Adjusted() == 1055.0
    ensures var r := AnalyzePair(d, s, DEFAULT_THRESHOLDS, settings);
            r.Ok? && r.value.tier == GoodValue && r.value.arms == RelativeArm && r.value.divergence == Some(PolicyOnly)
  {
    hide PenaltySum, TotalDuration, StopCount, AllLayovers;
    assert 195.0 / 1000.0 == 0.195;
  }

  // -- when the tier and the score disagree --------------------------------------------

  /** A scored pair: what the direct flight saves in time and layover penalties, in euros. */
  function Slack(d: ScoreComponents, s: ScoreComponents): real {
    (s.elapsed + s.penalty) - (d.elapsed + d.penalty)
  }

  /** The price difference from which the score prefers the one-stop flight. */
  function ScoreLimit(slack: real, settings: ScoringSettings, stop: real): real {
    slack + match settings.mode case FixedBonus => -settings.directBonusEur case ProportionalBonus => PROPORTIONAL_RATIO * stop
  }

  function Verdict(diff: real, policyLimit: real, scoreLimit: real): Option<Divergence> {
    if scoreLimit <= diff <= policyLimit then Some(PolicyOnly)
    else if policyLimit < diff < scoreLimit then Some(ScoreOnly)
    else None
  }

  /** Policy and score disagree exactly when the price difference lies between their two limits. */
  lemma DivergenceIsAWindow(d: NormalizedItinerary, s: NormalizedItinerary, thresholds: Thresholds,
                            settings: ScoringSettings)
    requires StopCount(d.legs) == 0 && StopCount(s.legs) >= 1 && Eur(s.priceEur) >= 0.0
    requires AnalyzePair(d, s, thresholds, settings).Ok?
    ensures var a, price := AnalyzePair(d, s, thresholds, settings).value, Eur(s.priceEur);
            var x, y := ScoreItinerary(d, settings, Some(price)).value, ScoreItinerary(s, settings, None).value;
            a.divergence == Verdict(Eur(d.priceEur) - price, PolicyLimit(price, thresholds),
                                    ScoreLimit(Slack(x, y), settings, price))
  {
    hide PenaltySum, StopCount, TotalDuration, AllLayovers, ElapsedComponent, EvaluateDirectTier, Limit;
    var price := Eur(s.priceEur);
    TierIsBands(Eur(d.priceEur) - price, price, thresholds);
  }

  /** In proportional mode, no difference within a relative limit `r` is one the score
      rejects, whatever the direct fare, exactly when the limit's share of the stop
      fare stays below the time saved plus the bonus. */
  lemma RelativeArmSafeIff(r: real, slack: real, settings: ScoringSettings, stop: real)
    requires stop > 0.0 && settings.mode == ProportionalBonus
    ensures (forall diff: real :: Relative(diff, stop).value <= r ==> diff < ScoreLimit(slack, settings, stop))
       <==> r * stop < slack + PROPORTIONAL_RATIO * stop
  {
    forall diff: real ensures Relative(diff, stop).value <= r <==> diff <= r * stop {
      RelativeWithin(diff, stop, r);
    }
    assert Relative(r * stop, stop).value <= r;
  }

  /** With limits of at most a fifth and a direct flight that saves time, the
      proportional bonus removes every divergence of the relative arm. */
  lemma ProportionalAgreesWithRelativeArm(d: NormalizedItinerary, s: NormalizedItinerary, t: Thresholds,
                                          settings: ScoringSettings)
    requires StopCount(d.legs) == 0 && StopCount(s.legs) >= 1 && Eur(s.priceEur) > 0.0
    requires settings.mode == ProportionalBonus
    requires t.recommendedMaxRelative <= PROPORTIONAL_RATIO && t.goodValueMaxRelative <= PROPORTIONAL_RATIO
    requires AnalyzePair(d, s, t, settings).Ok?
    requires var x, y := ScoreItinerary(d, settings, Some(Eur(s.priceEur))).value, ScoreItinerary(s, settings, None).value;
             y.elapsed + y.penalty > x.elapsed + x.penalty
    ensures var a := AnalyzePair(d, s, t, settings).value;
            a.arms == BothArms || a.arms == RelativeArm ==> a.divergence == None
  {
    hide PenaltySum, StopCount, TotalDuration, AllLayovers, ElapsedComponent;
    var stop := Eur(s.priceEur);
    var diff := Eur(d.priceEur) - stop;
    RelativeWithin(diff, stop, PROPORTIONAL_RATIO);
  }

  function Cost(cents: int): real { cents as real / 100.0 }

  /** In whole cents: some direct fare splits policy from score in the policy's favour
      exactly when the policy's limit, rounded down to a cent, reaches the score's. */
  lemma PolicyOnlyPriceExistsIff(stopCents: int, t: Thresholds, settings: ScoringSettings, slack: real)
    requires stopCents >= 0
    ensures var stop := stopCents as real / 100.0;
            var policy, score := PolicyLimit(stop, t), ScoreLimit(slack, settings, stop);
            (exists cents: int :: Verdict(Cost(cents) - stop, policy, score) == Some(PolicyOnly))
            <==> score * 100.0 <= (policy * 100.0).Floor as real
  {
    var stop := stopCents as real / 100.0;
    var policy, score := PolicyLimit(stop, t), ScoreLimit(slack, settings, stop);
    var top := (policy * 100.0).Floor;
    if score * 100.0 <= top as real {
      assert Cost(stopCents + top) - stop == top as real / 100.0;
      assert Verdict(Cost(stopCents + top) - stop, policy, score) == Some(PolicyOnly);
    }
    forall cents: int | Verdict(Cost(cents) - stop, policy, score) == Some(PolicyOnly)
      ensures score * 100.0 <= top as real
    {
      var n := cents - stopCents;
      assert n as real == (Cost(cents) - stop) * 100.0 <= policy * 100.0;
      assert n <= top;
    }
  }

  /** And some splits them in the score's favour exactly when the next cent above the policy's limit
      is still below the score's. */
  lemma ScoreOnlyPriceExistsIff(stopCents: int, t: Thresholds, settings: ScoringSettings, slack: real)
    requires stopCents >= 0
    ensures var stop := stopCents as real / 100.0;
            var policy, score := PolicyLimit(stop, t), ScoreLimit(slack, settings, stop);
            (exists cents: int :: Verdict(Cost(cents) - stop, policy, score) == Some(ScoreOnly))
            <==> ((policy * 100.0).Floor + 1) as real < score * 100.0
  {
    hide PolicyLimit, ScoreLimit;
    var stop := stopCents as real / 100.0;
    var policy, score := PolicyLimit(stop, t), ScoreLimit(slack, settings, stop);
    var next := (policy * 100.0).Floor + 1;
    if next as real < score * 100.0 {
      assert Cost(stopCents + next) - stop == next as real / 100.0;
      assert Verdict(Cost(stopCents + next) - stop, policy, score) == Some(ScoreOnly);
    }
    forall cents: int | Verdict(Cost(cents) - stop, policy, score) == Some(ScoreOnly)
      ensures next as real < score * 100.0
    {
      var n := cents - stopCents;
      assert policy * 100.0 < (Cost(cents) - stop) * 100.0 == n as real;
      assert next <= n;
    }
  }

  const DEFAULT_THRESHOLDS := Thresholds(100.0, 0.10, 150.0, 0.20)

  /** The shipped ladder, in cents: recommended up to 100 euros or a tenth more, good value up to 150 or a fifth. */
  lemma ShippedTiers(directCents: int, stopCents: int)
    requires stopCents >= 0
    ensures var stop := stopCents as real / 100.0;
            var extra := directCents - stopCents;
            EvaluateDirectTier(extra as real / 100.0, Relative(extra as real / 100.0, stop), DEFAULT_THRESHOLDS).0 ==
            if extra <= 10_000 || 10 * extra <= stopCents then Recommended
            else if extra <= 15_000 || 5 * extra <= stopCents then GoodValue
            else NotRecommended
  {
    var stop := stopCents as real / 100.0;
    TierIsBands((directCents - stopCents) as real / 100.0, stop, DEFAULT_THRESHOLDS);
  }

  /** The cents of the shipped ladder's policy limit, rounded down. */
  lemma DefaultPolicyCents(stopCents: int)
    requires stopCents >= 0
    ensures (PolicyLimit(stopCents as real / 100.0, DEFAULT_THRESHOLDS) * 100.0).Floor
         == if stopCents / 5 < 15000 then 15000 else stopCents / 5
  {
    var stop := stopCents as real / 100.0;
    assert Limit(stop, 100.0, 0.10) == Larger(100.0, 0.10 * stop);
    assert Limit(stop, 150.0, 0.20) == Larger(150.0, 0.20 * stop);
    assert PolicyLimit(stop, DEFAULT_THRESHOLDS) * 100.0 == Larger(15000.0, 0.20 * stopCents as real);
    FifthRoundedDown(stopCents);
  }

  lemma FifthRoundedDown(n: int)
    ensures (0.20 * n as real).Floor == n / 5
  {
    var q, r := n / 5, n % 5;
    assert n == 5 * q + r;
    assert 0.20 * n as real == q as real + 0.20 * r as real;
  }

  /** The shipped ladder against the shipped bonus of 120 euros. Disagreement in the policy's favour is
      possible exactly if time and penalties saved are worth at most 30 euros, or a fifth of the stop fare
      covers the bonus plus that saving; in the score's favour exactly if they are worth at least
      two cents more than both allow. */
  lemma DefaultDivergenceThreshold(stopCents: int, settings: ScoringSettings, slack: real)
    requires stopCents >= 0 && settings.mode == FixedBonus && settings.directBonusEur == -120.0
    ensures var stop := stopCents as real / 100.0;
            var policy, score := PolicyLimit(stop, DEFAULT_THRESHOLDS), ScoreLimit(slack, settings, stop);
            && ((exists cents: int :: Verdict(Cost(cents) - stop, policy, score) == Some(PolicyOnly))
                <==> slack <= 30.0 || 100.0 * (120.0 + slack) <= (stopCents / 5) as real)
            && ((exists cents: int :: Verdict(Cost(cents) - stop, policy, score) == Some(ScoreOnly))
                <==> slack > 30.01 && 100.0 * (120.0 + slack) > (stopCents / 5 + 1) as real)
  {
    hide PolicyLimit, Verdict, Cost;
    PolicyOnlyPriceExistsIff(stopCents, DEFAULT_THRESHOLDS, settings, slack);
    ScoreOnlyPriceExistsIff(stopCents, DEFAULT_THRESHOLDS, settings, slack);
    DefaultPolicyCents(stopCents);
  }

  // -- pools -----------------------------------------------------------------------------

  predicate HasStops(it: NormalizedItinerary) { StopCount(it.legs) >= 1 }

  /** What the first `n` tasks contribute to the direct pool of a destination. */
  function DirectPool(tasks: seq<SearchTask>, valid: FoundByTask, n: nat, destination: string): seq<NormalizedItinerary>
    requires n <= |tasks|
  {
    if n == 0 then []
    else DirectPool(tasks, valid, n - 1, destination)
         + if tasks[n - 1].request.destination == destination && tasks[n - 1].request.maxStops == 0
           then Found(valid, tasks[n - 1]) else []
  }

  /** And to the one-stop pool, from which direct flights are left out. */
  function StopPool(tasks: seq<SearchTask>, valid: FoundByTask, n: nat, destination: string): seq<NormalizedItinerary>
    requires n <= |tasks|
  {
    if n == 0 then []
    else StopPool(tasks, valid, n - 1, destination)
         + if tasks[n - 1].request.destination == destination && tasks[n - 1].request.maxStops != 0
           then Filter(HasStops, Found(valid, tasks[n - 1])) else []
  }

  datatype Pools = Pools(direct: seq<NormalizedItinerary>, oneStop: seq<NormalizedItinerary>)

  function PoolsAt(pools: map<string, Pools>, destination: string): Pools {
    if destination in pools then pools[destination] else Pools([], [])
  }

  function PoolsOf(tasks: seq<SearchTask>, valid: FoundByTask, n: nat, d: string): Pools
    requires n <= |tasks|
  {
    Pools(DirectPool(tasks, valid, n, d), StopPool(tasks, valid, n, d))
  }

  /** One task extends one pool of its own destination and nothing else. */
  lemma PoolsNext(tasks: seq<SearchTask>, valid: FoundByTask, n: nat, d: string)
    requires n < |tasks|
    ensures var t, p := tasks[n], PoolsOf(tasks, valid, n, d);
            PoolsOf(tasks, valid, n + 1, d) ==
            if t.request.destination != d then p
            else if t.request.maxStops == 0 then p.(direct := p.direct + Found(valid, t))
            else p.(oneStop := p.oneStop + Filter(HasStops, Found(valid, t)))
  {
  }

  function TaskDestination(t: SearchTask): string { t.request.destination }

  /** The dictionary of pools after the first `n` tasks. */
  ghost predicate Pooled(tasks: seq<SearchTask>, valid: FoundByTask, n: nat, pools: map<string, Pools>)
    requires n <= |tasks|
  {
    forall d :: PoolsAt(pools, d) == PoolsOf(tasks, valid, n, d) && (d in pools
        <==> d in Map(TaskDestination, tasks[..n]))
  }

  lemma PooledNext(tasks: seq<SearchTask>, valid: FoundByTask, n: nat, pools: map<string, Pools>)
    requires n < |tasks| && Pooled(tasks, valid, n, pools)
    ensures var t := tasks[n];
            var d := t.request.destination;
            var existing := PoolsAt(pools, d);
            Pooled(tasks, valid, n + 1, pools[d :=
              if t.request.maxStops == 0 then existing.(direct := existing.direct + Found(valid, t))
              else existing.(oneStop := existing.oneStop + Filter(HasStops, Found(valid, t)))])
  {
    hide PoolsOf;
    assert Map(TaskDestination, tasks[..n + 1]) == Map(TaskDestination, tasks[..n]) + [tasks[n].request.destination];
    forall e ensures PoolsAt(pools, e) == PoolsOf(tasks, valid, n, e) && (e in pools
        <==> e in Map(TaskDestination, tasks[..n])) {}
    PoolsNext(tasks, valid, n, tasks[n].request.destination);
    forall e | e != tasks[n].request.destination ensures PoolsOf(tasks, valid, n + 1, e) == PoolsOf(tasks, valid, n, e) {
      PoolsNext(tasks, valid, n, e);
    }
  }

  /** The accumulating loop: several tasks share a destination, and none overwrites another. */
  method BuildPools(tasks: seq<SearchTask>, valid: FoundByTask) returns (pools: map<string, Pools>)
    ensures forall d :: PoolsAt(pools, d) == PoolsOf(tasks, valid, |tasks|, d)
    ensures forall d :: d in pools <==> d in Map(TaskDestination, tasks)
  {
    hide PoolsOf;
    pools := map[];
    NothingPooled(tasks, valid);
    for n := 0 to |tasks|
      invariant Pooled(tasks, valid, n, pools)
    {
      hide Pooled;
      var task := tasks[n];
      var existing := PoolsAt(pools, task.request.destination);
      PooledNext(tasks, valid, n, pools);
      if task.request.maxStops == 0 {
        existing := existing.(direct := existing.direct + Found(valid, task));
      } else {
        existing := existing.(oneStop := existing.oneStop + Filter(HasStops, Found(valid, task)));
      }
      pools := pools[task.request.destination := existing];
    }
    assert tasks[..|tasks|] == tasks;
  }

  lemma NothingPooled(tasks: seq<SearchTask>, valid: FoundByTask)
    ensures Pooled(tasks, valid, 0, map[])
  {
  }

  predicate DirectFrom(t: SearchTask, valid: FoundByTask, d: string, x: NormalizedItinerary) {
    t.request.destination == d && t.request.maxStops == 0 && x in Found(valid, t)
  }

  predicate StopFrom(t: SearchTask, valid: FoundByTask, d: string, x: NormalizedItinerary) {
    t.request.destination == d && t.request.maxStops != 0 && x in Found(valid, t) && StopCount(x.legs) >= 1
  }

  lemma {:induction false} DirectIndex(tasks: seq<SearchTask>, valid: FoundByTask, n: nat, d: string,
                                       x: NormalizedItinerary)
    requires n <= |tasks|
    ensures x in DirectPool(tasks, valid, n, d) <==> exists i :: 0 <= i < n && DirectFrom(tasks[i], valid, d, x)
  {
    hide Found, HasStops;
    if n > 0 { DirectIndex(tasks, valid, n - 1, d, x); }
  }

  lemma {:induction false} StopIndex(tasks: seq<SearchTask>, valid: FoundByTask, n: nat, d: string,
                                     x: NormalizedItinerary)
    requires n <= |tasks|
    ensures x in StopPool(tasks, valid, n, d) <==> exists i :: 0 <= i < n && StopFrom(tasks[i], valid, d, x)
  {
    hide Found;
    if n > 0 {
      StopIndex(tasks, valid, n - 1, d, x);
      FilterMember(HasStops, Found(valid, tasks[n - 1]), x);
    }
  }

  /** The pools hold exactly what the tasks of their kind found. */
  lemma PoolMember(tasks: seq<SearchTask>, valid: FoundByTask, d: string, x: NormalizedItinerary)
    ensures x in DirectPool(tasks, valid, |tasks|, d) <==> exists t :: t in tasks && DirectFrom(t, valid, d, x)
    ensures x in StopPool(tasks, valid, |tasks|, d) <==> exists t :: t in tasks && StopFrom(t, valid, d, x)
  {
    hide DirectFrom, StopFrom, DirectPool, StopPool;
    DirectIndex(tasks, valid, |tasks|, d, x);
    StopIndex(tasks, valid, |tasks|, d, x);
  }

  /** The recorded flight of a pool, in plain terms: none of the pool costs less, and none of the same
      price has a smaller identity. */
  lemma CheapestIsLeast(pool: seq<NormalizedItinerary>, x: NormalizedItinerary)
    requires x in pool
    ensures var c := Cheapest(pool);
            && c.Some? && c.value in pool
            && (c.value.priceEur.amount < x.priceEur.amount
                || (c.value.priceEur.amount == x.priceEur.amount && c.value.itineraryId <= x.itineraryId))
  {
    var j :| 0 <= j < |pool| && pool[j] == x;
    SurvivorIsFirstCheapest(pool, j);
  }

  function AnalyzeRun(tasks: seq<SearchTask>, valid: FoundByTask, destination: string, thresholds: Thresholds,
                      settings: ScoringSettings)
    : Result<Analysis, ScoreError>
  {
    AnalyzeDestination(DirectPool(tasks, valid, |tasks|, destination), StopPool(tasks, valid, |tasks|, destination),
                       thresholds, settings)
  }

  lemma PoolsOfMembers(a: seq<SearchTask>, b: seq<SearchTask>, va: FoundByTask, vb: FoundByTask, d: string,
                       x: NormalizedItinerary)
    requires multiset(a) == multiset(b) && SamePrices(va, vb, a)
    ensures x in DirectPool(a, va, |a|, d) <==> x in DirectPool(b, vb, |b|, d)
    ensures x in StopPool(a, va, |a|, d) <==> x in StopPool(b, vb, |b|, d)
  {
    hide Found, HasStops, DirectPool, StopPool;
    PoolMember(a, va, d, x);
    PoolMember(b, vb, d, x);
    forall t ensures t in a && DirectFrom(t, va, d, x) <==> t in b && DirectFrom(t, vb, d, x)
             ensures t in a && StopFrom(t, va, d, x) <==> t in b && StopFrom(t, vb, d, x) {
      SameMembers(a, b, t);
      if t in a { SameMembers(Found(va, t), Found(vb, t), x); }
    }
  }

  /** Everything recorded for a task passed the rules for its request, whose window the bands tile. */
  ghost predicate Accepted(k: Classifier, tasks: seq<SearchTask>, valid: FoundByTask, settings: ScoringSettings) {
    forall t :: t in tasks ==>
      && WindowTiled(settings, t.request)
      && forall x :: x in Found(valid, t) ==> Wellformed(x) && Validate(k, x, t.request) == []
  }

  lemma ScorableFrom(k: Classifier, t: SearchTask, x: NormalizedItinerary, settings: ScoringSettings,
                     price: Option<real>)
    requires Wellformed(x) && Validate(k, x, t.request) == [] && WindowTiled(settings, t.request)
    ensures price.Some? || HasStops(x) ==> ScoreItinerary(x, settings, price).Ok?
    ensures 0 <= StopCount(x.legs) <= t.request.maxStops
  {
    AcceptedIsScorable(k, x, t.request, settings, price);
    AcceptedIff(k, x, t.request);
    StopsAreLayovers(x.legs);
  }

  lemma StopsScorable(k: Classifier, tasks: seq<SearchTask>, valid: FoundByTask, d: string, settings: ScoringSettings,
                      x: NormalizedItinerary)
    requires Accepted(k, tasks, valid, settings) && x in StopPool(tasks, valid, |tasks|, d)
    ensures StopCount(x.legs) >= 1 && ScoreItinerary(x, settings, None).Ok?
  {
    PoolMember(tasks, valid, d, x);
    var t :| t in tasks && StopFrom(t, valid, d, x);
    ScorableFrom(k, t, x, settings, None);
  }

  lemma DirectScorable(k: Classifier, tasks: seq<SearchTask>, valid: FoundByTask, d: string, settings: ScoringSettings,
                       x: NormalizedItinerary, price: real)
    requires Accepted(k, tasks, valid, settings) && x in DirectPool(tasks, valid, |tasks|, d)
    ensures StopCount(x.legs) == 0 && ScoreItinerary(x, settings, Some(price)).Ok?
  {
    PoolMember(tasks, valid, d, x);
    var t :| t in tasks && DirectFrom(t, valid, d, x);
    ScorableFrom(k, t, x, settings, Some(price));
  }

  lemma PairAnalyzed(d: NormalizedItinerary, s: NormalizedItinerary, t: Thresholds, settings: ScoringSettings)
    requires ScoreItinerary(d, settings, Some(Eur(s.priceEur))).Ok? && ScoreItinerary(s, settings, None).Ok?
    ensures var r := AnalyzePair(d, s, t, settings);
            r.Ok? && r.value.tier != NotAvailable && r.value.cheapestDirect == Some(d)
                && r.value.cheapestStop == Some(s)
  {
    hide ScoreItinerary;
  }

  /** An analysis of accepted itineraries never raises, in either bonus mode, and its
      comparison is of a direct flight with one that stops. */
  lemma AnalysisNeverRaises(k: Classifier, tasks: seq<SearchTask>, valid: FoundByTask, d: string,
                            thresholds: Thresholds, settings: ScoringSettings)
    requires Accepted(k, tasks, valid, settings)
    ensures AnalyzeRun(tasks, valid, d, thresholds, settings).Ok?
    ensures var a := AnalyzeRun(tasks, valid, d, thresholds, settings).value;
            && (a.tier == NotAvailable <==> a.cheapestDirect.None?)
            && (a.cheapestDirect.Some? ==> StopCount(a.cheapestDirect.value.legs) == 0)
            && (a.cheapestStop.Some? ==> StopCount(a.cheapestStop.value.legs) >= 1)
  {
    hide ScoreItinerary, Accepted, AnalyzePair, StopCount, DirectPool, StopPool;
    var direct, stop := DirectPool(tasks, valid, |tasks|, d), StopPool(tasks, valid, |tasks|, d);
    if stop != [] {
      StopsScorable(k, tasks, valid, d, settings, Cheapest(stop).value);
    }
    if direct != [] {
      var x := Cheapest(direct).value;
      DirectScorable(k, tasks, valid, d, settings, x, if stop != [] then Eur(Cheapest(stop).value.priceEur) else 0.0);
      if stop != [] {
        PairAnalyzed(x, Cheapest(stop).value, thresholds, settings);
      }
    }
  }
}
