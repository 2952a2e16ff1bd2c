/** The early-stop rule for one destination: an order-dependent loop and the declaration it carries out. */
module EarlyStop {
  import opened Wrappers
  import opened Seqs
  import opened Domain

  /** An origin's cheapest valid fare in cents, or none at all. */
  datatype OriginFare = OriginFare(origin: string, wave: int, price: Option<int>)

  datatype PricedFare = PricedFare(origin: string, wave: int, price: int)

  datatype Evaluation = Evaluation(
    evaluatedAtWave: int,
    triggered: bool,
    triggeringOrigin: Option<string>,
    triggeringDestination: Option<string>,
    margin: Option<Money>,
    comparedAgainst: seq<string>)

  const MIN_PRIOR_ORIGINS := 2

  function Quiet(wave: int, compared: seq<string>): Evaluation {
    Evaluation(wave, false, None, None, None, compared)
  }

  function Stop(f: PricedFare, destination: string, margin: int, compared: seq<string>): Evaluation {
    Evaluation(f.wave, true, Some(f.origin), Some(destination), Some(Money(margin, "EUR")), compared)
  }

  predicate Reaches(margin: int, threshold: real) {
    margin as real / 100.0 >= threshold
  }

  function PriceIfAny(f: OriginFare): seq<PricedFare> {
    match f.price
    case Some(p) => [PricedFare(f.origin, f.wave, p)]
    case None => []
  }

  /** The fares that exist, among the first `n`. */
  function PricedTo(fares: seq<OriginFare>, n: nat): seq<PricedFare>
    requires n <= |fares|
  {
    if n == 0 then [] else PricedTo(fares, n - 1) + PriceIfAny(fares[n - 1])
  }

  function Priced(fares: seq<OriginFare>): seq<PricedFare> {
    PricedTo(fares, |fares|)
  }

  lemma PricedAll(fares: seq<OriginFare>)
    ensures Priced(fares) == PricedTo(fares, |fares|)
  {}

  lemma {:induction false} PricedGrows(fares: seq<OriginFare>, m: nat, n: nat)
    requires m <= n <= |fares|
    ensures PricedTo(fares, m) <= PricedTo(fares, n)
    decreases n - m
  {
    if m < n {
      PricedGrows(fares, m, n - 1);
    }
  }

  lemma {:induction false} PricedSamePrefix(a: seq<OriginFare>, b: seq<OriginFare>, n: nat)
    requires a <= b && n <= |a|
    ensures PricedTo(a, n) == PricedTo(b, n)
  {
    if n > 0 {
      PricedSamePrefix(a, b, n - 1);
    }
  }

  /** The origins of the first `n` priced fares. */
  function Origins(p: seq<PricedFare>, n: nat): (r: seq<string>)
    requires n <= |p|
    ensures |r| == n
    ensures forall i :: 0 <= i < n ==> r[i] == p[i].origin
  {
    seq(n, i requires 0 <= i < n => p[i].origin)
  }

  /** The price dictionary after `n` priced fares: a repeated origin keeps its latest price. */
  function Known(p: seq<PricedFare>, n: nat): (m: map<string, int>)
    requires n <= |p|
    ensures forall i :: 0 <= i < n ==> p[i].origin in m
  {
    if n == 0 then map[] else Known(p, n - 1)[p[n - 1].origin := p[n - 1].price]
  }

  /** The least known price among the listed origins. */
  function LeastOf(known: map<string, int>, origins: seq<string>): int
    requires origins != [] && forall i :: 0 <= i < |origins| ==> origins[i] in known
  {
    if |origins| == 1 then known[origins[0]]
    else
      var rest := LeastOf(known, origins[1..]);
      if known[origins[0]] < rest then known[origins[0]] else rest
  }

  /** By how much position `i` undercuts the best of the earlier ones. */
  function Margin(p: seq<PricedFare>, i: nat): int
    requires 0 < i < |p|
  {
    LeastOf(Known(p, i), Origins(p, i)) - p[i].price
  }

  predicate TriggersAt(p: seq<PricedFare>, threshold: real, i: nat) {
    MIN_PRIOR_ORIGINS <= i < |p| && Reaches(Margin(p, i), threshold)
  }

  function FirstTrigger(p: seq<PricedFare>, threshold: real, from: nat): Option<nat>
    decreases |p| - from
  {
    if from >= |p| then None
    else if TriggersAt(p, threshold, from) then Some(from)
    else FirstTrigger(p, threshold, from + 1)
  }

  lemma {:induction false} SearchResult(p: seq<PricedFare>, threshold: real, from: nat)
    ensures match FirstTrigger(p, threshold, from)
            case Some(i) => from <= i < |p| && TriggersAt(p, threshold, i)
                            && forall k :: from <= k < i ==> !TriggersAt(p, threshold, k)
            case None => forall k :: from <= k ==> !TriggersAt(p, threshold, k)
    decreases |p| - from
  {
    if from < |p| {
      SearchResult(p, threshold, from + 1);
    }
  }

  /** The search finds the least triggering position. */
  lemma FirstTriggerIsLeast(p: seq<PricedFare>, threshold: real, i: nat)
    requires TriggersAt(p, threshold, i) && forall k :: 0 <= k < i ==> !TriggersAt(p, threshold, k)
    ensures FirstTrigger(p, threshold, 0) == Some(i)
  {
    SearchResult(p, threshold, 0);
  }

  /** The rule as declared: stop at the first undercutting origin; otherwise
      report the last comparison made, or that none could be made. */
  function Expected(destination: string, fares: seq<OriginFare>, threshold: real): Evaluation {
    ExpectedFor(destination, Priced(fares), if fares == [] then 0 else fares[|fares| - 1].wave, threshold)
  }

  function ExpectedFor(destination: string, p: seq<PricedFare>, finalWave: int, threshold: real): Evaluation {
    SearchResult(p, threshold, 0);
    match FirstTrigger(p, threshold, 0)
    case Some(i) => Stop(p[i], destination, Margin(p, i), Origins(p, i))
    case None =>
      if |p| > MIN_PRIOR_ORIGINS then Quiet(p[|p| - 1].wave, Origins(p, |p| - 1))
      else Quiet(finalWave, Origins(p, |p|))
  }

  /** The next fare, if it exists, is the next priced fare of the whole list. */
  lemma PricedNext(fares: seq<OriginFare>, n: nat)
    requires n < |fares|
    ensures var i, p := |PricedTo(fares, n)|, Priced(fares);
            && i <= |p|
            && |PricedTo(fares, n + 1)| == i + (if fares[n].price.Some? then 1 else 0)
            && (fares[n].price.Some? ==>
                  i < |p| && p[i] == PricedFare(fares[n].origin, fares[n].wave, fares[n].price.value))
  {
    PricedGrows(fares, n, |fares|);
    PricedGrows(fares, n + 1, |fares|);
    if fares[n].price.Some? {
      var i := |PricedTo(fares, n)|;
      assert PricedTo(fares, n + 1)[i] == Priced(fares)[i];
    }
  }

  /** What the loop has recorded of the first `i` priced fares. */
  ghost predicate Recorded(p: seq<PricedFare>, i: nat, threshold: real, origins: seq<string>,
                           prices: map<string, int>, lastCheck: Option<Evaluation>) {
    && i <= |p|
    && origins == Origins(p, i) && prices == Known(p, i)
    && (forall k :: 0 <= k < i ==> !TriggersAt(p, threshold, k))
    && lastCheck == if i > MIN_PRIOR_ORIGINS then Some(Quiet(p[i - 1].wave, Origins(p, i - 1))) else None
  }

  lemma RecordNext(p: seq<PricedFare>, i: nat, threshold: real, origins: seq<string>,
                   prices: map<string, int>, lastCheck: Option<Evaluation>)
    requires Recorded(p, i, threshold, origins, prices, lastCheck) && i < |p| && !TriggersAt(p, threshold, i)
    ensures Recorded(p, i + 1, threshold, origins + [p[i].origin], prices[p[i].origin := p[i].price],
                     if i >= MIN_PRIOR_ORIGINS then Some(Quiet(p[i].wave, origins)) else lastCheck)
  {
    assert Origins(p, i + 1) == Origins(p, i) + [p[i].origin];
  }

  lemma RecordedAll(destination: string, p: seq<PricedFare>, finalWave: int, threshold: real, origins: seq<string>,
                    prices: map<string, int>, lastCheck: Option<Evaluation>)
    requires Recorded(p, |p|, threshold, origins, prices, lastCheck)
    ensures ExpectedFor(destination, p, finalWave, threshold)
         == if lastCheck.Some? then lastCheck.value else Quiet(finalWave, origins)
  {
    SearchResult(p, threshold, 0);
  }

  /** At the next priced fare the loop computes exactly the declared margin. */
  lemma CompareNext(p: seq<PricedFare>, i: nat, threshold: real, origins: seq<string>,
                    prices: map<string, int>, lastCheck: Option<Evaluation>)
    requires Recorded(p, i, threshold, origins, prices, lastCheck)
    ensures |origins| == i <= |p| && forall k :: 0 <= k < |origins| ==> origins[k] in prices
    ensures 0 < i < |p| ==> LeastOf(prices, origins) - p[i].price == Margin(p, i)
  {}

  /** A fare that reaches the threshold is the declared stop. */
  lemma StopNext(destination: string, p: seq<PricedFare>, i: nat, finalWave: int, threshold: real,
                 origins: seq<string>, prices: map<string, int>, lastCheck: Option<Evaluation>)
    requires Recorded(p, i, threshold, origins, prices, lastCheck) && TriggersAt(p, threshold, i)
    ensures ExpectedFor(destination, p, finalWave, threshold) == Stop(p[i], destination, Margin(p, i), origins)
  {
    FirstTriggerIsLeast(p, threshold, i);
  }

  lemma StartRecorded(fares: seq<OriginFare>, threshold: real)
    ensures |PricedTo(fares, 0)| == 0 && Recorded(Priced(fares), 0, threshold, [], map[], None)
  {}

  /** The loop: skip missing fares, compare once two origins are known, stop at the first trigger. */
  method Evaluate(destination: string, fares: seq<OriginFare>, threshold: real) returns (e: Evaluation)
    ensures e == Expected(destination, fares, threshold)
  {
    hide Recorded, PricedTo, Priced, ExpectedFor, LeastOf, Margin, Reaches, Known, Origins;
    var origins: seq<string> := [];
    var prices: map<string, int> := map[];
    var lastCheck: Option<Evaluation> := None;
    ghost var p := Priced(fares);
    var finalWave := if fares == [] then 0 else fares[|fares| - 1].wave;
    StartRecorded(fares, threshold);
    for n := 0 to |fares|
      invariant Recorded(p, |PricedTo(fares, n)|, threshold, origins, prices, lastCheck)
    {
      var f := fares[n];
      PricedNext(fares, n);
      ghost var i := |PricedTo(fares, n)|;
      CompareNext(p, i, threshold, origins, prices, lastCheck);
      if f.price.None? {
        continue;
      }
      if |origins| >= MIN_PRIOR_ORIGINS {
        var margin := LeastOf(prices, origins) - f.price.value;
        if Reaches(margin, threshold) {
          StopNext(destination, p, i, finalWave, threshold, origins, prices, lastCheck);
          return Stop(PricedFare(f.origin, f.wave, f.price.value), destination, margin, origins);
        }
      }
      RecordNext(p, i, threshold, origins, prices, lastCheck);
      if |origins| >= MIN_PRIOR_ORIGINS {
        lastCheck := Some(Quiet(f.wave, origins));
      }
      origins, prices := origins + [f.origin], prices[f.origin := f.price.value];
    }
    PricedAll(fares);
    RecordedAll(destination, p, finalWave, threshold, origins, prices, lastCheck);
    if lastCheck.Some? { return lastCheck.value; }
    return Quiet(finalWave, origins);
  }

  // -- laws of the rule --------------------------------------------------------------------

  ghost predicate DistinctOrigins(p: seq<PricedFare>) {
    forall i, j :: 0 <= i < j < |p| ==> p[i].origin != p[j].origin
  }

  lemma {:induction false} KnownOfDistinct(p: seq<PricedFare>, n: nat, k: nat)
    requires DistinctOrigins(p) && k < n <= |p|
    ensures Known(p, n)[p[k].origin] == p[k].price
  {
    if k < n - 1 {
      KnownOfDistinct(p, n - 1, k);
    }
  }

  lemma {:induction false} LeastIsLeast(known: map<string, int>, origins: seq<string>) returns (at: nat)
    requires origins != [] && forall i :: 0 <= i < |origins| ==> origins[i] in known
    ensures forall i :: 0 <= i < |origins| ==> LeastOf(known, origins) <= known[origins[i]]
    ensures at < |origins| && LeastOf(known, origins) == known[origins[at]]
  {
    at := 0;
    if |origins| > 1 {
      var rest := LeastIsLeast(known, origins[1..]);
      forall i | 0 <= i < |origins| ensures LeastOf(known, origins) <= known[origins[i]] {
        if i > 0 { assert origins[i] == origins[1..][i - 1]; }
      }
      if LeastOf(known, origins) != known[origins[0]] { at := rest + 1; }
    }
  }

  /** For distinct origins the comparison basis is the minimum of exactly the earlier prices. */
  lemma BasisIsEarlierMinimum(p: seq<PricedFare>, i: nat) returns (least: nat)
    requires DistinctOrigins(p) && 0 < i < |p|
    ensures least < i && Margin(p, i) == p[least].price - p[i].price
    ensures forall k :: 0 <= k < i ==> p[least].price <= p[k].price
  {
    forall k | 0 <= k < i ensures Known(p, i)[Origins(p, i)[k]] == p[k].price {
      KnownOfDistinct(p, i, k);
    }
    least := LeastIsLeast(Known(p, i), Origins(p, i));
  }

  /** Position `i` costs at least the threshold less than every earlier fare. */
  predicate Undercuts(p: seq<PricedFare>, threshold: real, i: nat) {
    MIN_PRIOR_ORIGINS <= i < |p| && forall k :: 0 <= k < i ==> p[k].price as real >= p[i].price as real + 100.0 * threshold
  }

  lemma TriggerIsUndercut(p: seq<PricedFare>, threshold: real, i: nat)
    requires DistinctOrigins(p)
    ensures TriggersAt(p, threshold, i) <==> Undercuts(p, threshold, i)
  {
    if MIN_PRIOR_ORIGINS <= i < |p| {
      var least := BasisIsEarlierMinimum(p, i);
    }
  }

  /** The record triggers exactly when some priced position undercuts all earlier
      fares; it then names the first such position and the origins before it. */
  lemma TriggerIff(destination: string, fares: seq<OriginFare>, threshold: real, i: nat)
    requires DistinctOrigins(Priced(fares))
    ensures var e := Expected(destination, fares, threshold);
            e.triggered <==> exists k :: Undercuts(Priced(fares), threshold, k)
    ensures var p, e := Priced(fares), Expected(destination, fares, threshold);
            Undercuts(p, threshold, i) && (forall k :: 0 <= k < i ==> !Undercuts(p, threshold, k)) ==>
              && e.triggered && e.triggeringOrigin == Some(p[i].origin) && e.evaluatedAtWave == p[i].wave
              && e.triggeringDestination == Some(destination) && e.comparedAgainst == Origins(p, i)
              && e.margin.Some? && e.margin.value.currency == "EUR"
              && (forall k :: 0 <= k < i ==> p[i].price + e.margin.value.amount <= p[k].price)
              && (exists k :: 0 <= k < i && p[i].price + e.margin.value.amount == p[k].price)
    ensures var p, e := Priced(fares), Expected(destination, fares, threshold);
            !e.triggered ==>
              && e.margin.None? && e.triggeringOrigin.None? && e.triggeringDestination.None?
              && (if |p| > 2 then e.evaluatedAtWave == p[|p| - 1].wave && e.comparedAgainst == Origins(p, |p| - 1)
                  else e.comparedAgainst == Origins(p, |p|)
                       && e.evaluatedAtWave == if fares == [] then 0 else fares[|fares| - 1].wave)
  {
    var p := Priced(fares);
    forall k: nat ensures TriggersAt(p, threshold, k) <==> Undercuts(p, threshold, k) {
      TriggerIsUndercut(p, threshold, k);
    }
    SearchResult(p, threshold, 0);
    if Undercuts(p, threshold, i) && (forall k :: 0 <= k < i ==> !Undercuts(p, threshold, k)) {
      FirstTriggerIsLeast(p, threshold, i);
      var least := BasisIsEarlierMinimum(p, i);
    }
  }

  lemma {:induction false} KnownPrefix(p: seq<PricedFare>, q: seq<PricedFare>, n: nat)
    requires p <= q && n <= |p|
    ensures Known(p, n) == Known(q, n) && Origins(p, n) == Origins(q, n)
  {
    if n > 0 {
      KnownPrefix(p, q, n - 1);
    }
  }

  /** Whether a position triggers depends on the fares up to it only. */
  lemma TriggerPrefix(p: seq<PricedFare>, q: seq<PricedFare>, threshold: real, i: nat)
    requires p <= q && i < |p|
    ensures TriggersAt(p, threshold, i) <==> TriggersAt(q, threshold, i)
    ensures i > 0 ==> Margin(p, i) == Margin(q, i)
  {
    KnownPrefix(p, q, i);
  }

  /** Once triggered, origins of lower priority cannot change the record. */
  lemma ExtensionStable(destination: string, fares: seq<OriginFare>, more: seq<OriginFare>, threshold: real)
    requires Expected(destination, fares, threshold).triggered
    ensures Expected(destination, fares + more, threshold) == Expected(destination, fares, threshold)
  {
    var p, q := Priced(fares), Priced(fares + more);
    PricedSamePrefix(fares, fares + more, |fares|);
    PricedGrows(fares + more, |fares|, |fares + more|);
    SearchResult(p, threshold, 0);
    var i := FirstTrigger(p, threshold, 0).value;
    forall k | 0 <= k <= i ensures TriggersAt(q, threshold, k) <==> TriggersAt(p, threshold, k) {
      TriggerPrefix(p, q, threshold, k);
    }
    TriggerPrefix(p, q, threshold, i);
    KnownPrefix(p, q, i);
    FirstTriggerIsLeast(q, threshold, i);
  }

  /** A higher threshold never triggers earlier. */
  lemma HigherThresholdLater(p: seq<PricedFare>, low: real, high: real)
    requires low <= high
    ensures FirstTrigger(p, high, 0).Some? ==>
              FirstTrigger(p, low, 0).Some? && FirstTrigger(p, low, 0).value <= FirstTrigger(p, high, 0).value
  {
    SearchResult(p, high, 0);
    SearchResult(p, low, 0);
    if FirstTrigger(p, high, 0).Some? {
      assert TriggersAt(p, low, FirstTrigger(p, high, 0).value);
    }
  }

  /** A missing fare is not a fare of zero: lists with the same priced fares get
      the same record, but for the wave of a rule that could not be applied. */
  lemma MissingFaresDoNotCount(destination: string, a: seq<OriginFare>, b: seq<OriginFare>, threshold: real)
    requires Priced(a) == Priced(b)
    ensures var e, f := Expected(destination, a, threshold), Expected(destination, b, threshold);
            && e.(evaluatedAtWave := f.evaluatedAtWave) == f
            && (|Priced(a)| > MIN_PRIOR_ORIGINS ==> e == f)
  {
    SearchResult(Priced(a), threshold, 0);
  }
}
