/**
 Tasks run one after another: the executor's own loops, tied to the transition
 system, and the exact condition under which the schedule is invisible.
 */
module ExecutorSequential {
  import opened Wrappers
  import opened Seqs
  import opened Domain
  import opened Outcomes
  import opened Cache
  import opened Executor
  import opened ExecutorTheorems

  ghost predicate Ready(c: Config, s: State, i: nat) {
    && WellFormed(c) && Shape(c, s) && i < |c.tasks| && LocalOk(c, s, i)
    && TableLoads(c, s.table)
    && (s.phases[i].Waiting? ==> s.permits > 0 && NextInLine(s, i))
  }

  lemma StepReady(c: Config, s: State, i: nat)
    requires Ready(c, s, i) && !s.phases[i].Done?
    ensures Enabled(c, s, i) && Ready(c, Step(c, s, i), i)
    ensures 0 <= Weight(c, Step(c, s, i).phases[i]) < Weight(c, s.phases[i])
  {
    StepLocal(c, s, i);
    StepLoads(c, s, i);
    StepWeight(c, s, i);
  }

  /** Task `i` runs to its end while every other task stands still. */
  ghost function Solo(c: Config, s: State, i: nat): (s': State)
    requires Ready(c, s, i)
    ensures Ready(c, s', i) && s'.phases[i].Done?
    decreases Weight(c, s.phases[i])
  {
    if s.phases[i].Done? then s
    else
      StepReady(c, s, i);
      Solo(c, Step(c, s, i), i)
  }

  lemma {:induction false} SoloIsRun(c: Config, s: State, i: nat) returns (sched: seq<nat>)
    requires Ready(c, s, i)
    ensures IsRun(c, s, sched) && Run(c, s, sched) == Solo(c, s, i)
    decreases Weight(c, s.phases[i])
  {
    if s.phases[i].Done? {
      sched := [];
    } else {
      StepReady(c, s, i);
      var rest := SoloIsRun(c, Step(c, s, i), i);
      sched := [i] + rest;
    }
  }

  /** One step's own share of the permits and of the budget. */
  lemma StepShare(c: Config, s: State, i: nat)
    requires Shape(c, s) && Enabled(c, s, i) && LocalOk(c, s, i)
    ensures var s' := Step(c, s, i);
            && s'.permits + InFlight(s'.phases[i], s'.results[i]) == s.permits + InFlight(s.phases[i], s.results[i])
            && s'.remaining + Retries(s'.phases[i], s'.results[i]) == s.remaining + Retries(s.phases[i], s.results[i])
            && (0 <= s.remaining ==> 0 <= s'.remaining)
  {
    hide WantedFrom, Served, Upsert, Corrupt, ResolveTtl, NextInLine;
  }

  lemma {:induction false} SoloFrame(c: Config, s: State, i: nat)
    requires Ready(c, s, i)
    ensures var s' := Solo(c, s, i);
            && s'.phases == s.phases[i := Done]
            && s'.results == s.results[i := s'.results[i]]
            && s'.permits == s.permits + InFlight(s.phases[i], s.results[i])
            && s.remaining - s'.remaining == Retries(s'.phases[i], s'.results[i]) - Retries(s.phases[i], s.results[i])
            && (0 <= s.remaining ==> 0 <= s'.remaining)
    decreases Weight(c, s.phases[i])
  {
    if !s.phases[i].Done? {
      StepReady(c, s, i);
      StepFrame(c, s, i);
      StepShare(c, s, i);
      SoloFrame(c, Step(c, s, i), i);
    }
  }

  lemma {:induction false} SoloDecided(c: Config, start: Table, s: State, i: nat)
    requires Ready(c, s, i) && DecidedBy(c, start, s, i)
    ensures DecidedBy(c, start, Solo(c, s, i), i)
    decreases Weight(c, s.phases[i])
  {
    hide DecidedBy;
    if !s.phases[i].Done? {
      StepReady(c, s, i);
      StepDecided(c, start, s, i);
      SoloDecided(c, start, Step(c, s, i), i);
    }
  }

  /** Alone, a task takes all the retries it wants that the budget still holds. */
  lemma SoloResult(c: Config, start: Table, s: State, i: nat)
    requires Ready(c, s, i) && DecidedBy(c, start, s, i) && 0 <= s.remaining
    requires s.phases[i].Waiting? || s.phases[i] == Calling(1)
    ensures var g := Min(s.remaining, WantedGiven(c, start, i));
            && Solo(c, s, i).remaining == s.remaining - g
            && Solo(c, s, i).results[i] == Some(OutcomeOf(c, start, i, g))
  {
    hide WantedFrom, Solo;
    SoloFrame(c, s, i);
    SoloDecided(c, start, s, i);
    SettledByShare(c, start, Solo(c, s, i), i);
  }

  // -- one task after another, in the order of the plan -----------------------------------

  /** A reachable state in which the tasks below `n` have been admitted, the others
      still wait, and a permit is free. */
  ghost predicate AtTask(c: Config, start: Table, s: State, n: nat) {
    && WellFormed(c) && OwnKeys(c) && Inv(c, s) && TableLoads(c, s.table) && AllDecided(c, start, s)
    && s.permits > 0 && 0 <= s.remaining && n <= |c.tasks|
    && forall k :: 0 <= k < |c.tasks| ==> (s.phases[k].Waiting? <==> n <= k)
  }

  lemma StartsAtTask(c: Config, start: Table)
    requires WellFormed(c) && OwnKeys(c) && TableLoads(c, start) && c.maxConcurrent >= 1 && 0 <= c.budget
    ensures AtTask(c, start, Init(c, start), 0)
  {
    InitInv(c, start);
    InitDecided(c, start);
  }

  lemma RunKeeps(c: Config, start: Table, s: State, sched: seq<nat>)
    requires WellFormed(c) && OwnKeys(c) && Inv(c, s) && TableLoads(c, s.table) && AllDecided(c, start, s)
    requires IsRun(c, s, sched)
    ensures var s' := Run(c, s, sched); Inv(c, s') && TableLoads(c, s'.table) && AllDecided(c, start, s')
  {
    RunLoads(c, s, sched);
    RunDecided(c, start, s, sched);
  }

  /** The next task, run to its end. */
  lemma SoloNext(c: Config, start: Table, s: State, n: nat)
    requires AtTask(c, start, s, n) && n < |c.tasks|
    ensures Ready(c, s, n) && AtTask(c, start, Solo(c, s, n), n + 1)
    ensures var s' := Solo(c, s, n);
            && s'.phases == s.phases[n := Done] && s'.results == s.results[n := s'.results[n]]
            && s'.permits == s.permits
  {
    hide Solo, DecidedBy, Run;
    assert LocalOk(c, s, n);
    var sched := SoloIsRun(c, s, n);
    RunKeeps(c, start, s, sched);
    SoloFrame(c, s, n);
  }

  /** Tasks `lo` to `hi`, one after another. */
  ghost function PlanRun(c: Config, start: Table, s: State, lo: nat, hi: nat): (s': State)
    requires AtTask(c, start, s, lo) && lo <= hi <= |c.tasks|
    ensures AtTask(c, start, s', hi)
    decreases hi - lo
  {
    if lo == hi then s
    else
      SoloNext(c, start, s, lo);
      PlanRun(c, start, Solo(c, s, lo), lo + 1, hi)
  }

  lemma {:induction false} PlanRunIsRun(c: Config, start: Table, s: State, lo: nat, hi: nat) returns (sched: seq<nat>)
    requires AtTask(c, start, s, lo) && lo <= hi <= |c.tasks|
    ensures IsRun(c, s, sched) && Run(c, s, sched) == PlanRun(c, start, s, lo, hi)
    decreases hi - lo
  {
    if lo == hi {
      sched := [];
    } else {
      SoloNext(c, start, s, lo);
      var first := SoloIsRun(c, s, lo);
      var rest := PlanRunIsRun(c, start, Solo(c, s, lo), lo + 1, hi);
      RunConcat(c, s, first, rest);
      sched := first + rest;
    }
  }

  function WantsBetween(c: Config, start: Table, lo: nat, hi: nat): nat
    requires lo <= hi <= |c.keys|
    decreases hi - lo
  {
    if lo == hi then 0 else WantedGiven(c, start, lo) + WantsBetween(c, start, lo + 1, hi)
  }

  /** Exactly those tasks end, and they spend the budget greedily. */
  lemma {:induction false} PlanRunSpends(c: Config, start: Table, s: State, lo: nat, hi: nat)
    requires AtTask(c, start, s, lo) && lo <= hi <= |c.tasks|
    ensures var s' := PlanRun(c, start, s, lo, hi);
            && s'.remaining == Max(0, s.remaining - WantsBetween(c, start, lo, hi))
            && s'.permits == s.permits
            && forall k :: 0 <= k < |c.tasks| ==>
                 if lo <= k < hi then s'.phases[k].Done?
                 else s'.phases[k] == s.phases[k] && s'.results[k] == s.results[k]
    decreases hi - lo
  {
    hide Solo, DecidedBy, Inv, TableLoads, OutcomeOf, WantedGiven;
    if lo < hi {
      SoloNext(c, start, s, lo);
      assert DecidedBy(c, start, s, lo);
      SoloResult(c, start, s, lo);
      PlanRunSpends(c, start, Solo(c, s, lo), lo + 1, hi);
    }
  }

  lemma {:induction false} WantsInRange(c: Config, start: Table, lo: nat, hi: nat)
    requires |c.keys| == |c.tasks| && lo <= hi <= |c.tasks|
    ensures WantsBetween(c, start, lo, hi) == Sum(Wants(c, start)[lo..hi])
    decreases hi - lo
  {
    hide WantedGiven;
    if lo < hi {
      assert Wants(c, start)[lo..hi][1..] == Wants(c, start)[lo + 1..hi];
      WantsInRange(c, start, lo + 1, hi);
    }
  }

  // -- the exact condition for schedule independence ---------------------------------

  /** All complete runs from `start` return the same list. */
  ghost predicate ScheduleInvisible(c: Config, start: Table)
    requires WellFormed(c)
  {
    forall a: seq<nat>, b: seq<nat> ::
      && IsRun(c, Init(c, start), a) && IsRun(c, Init(c, start), b)
      && Complete(Run(c, Init(c, start), a)) && Complete(Run(c, Init(c, start), b))
      ==> Run(c, Init(c, start), a).results == Run(c, Init(c, start), b).results
  }

  /** Two different tasks that would both retry. */
  predicate Contended(c: Config, start: Table)
    requires |c.keys| == |c.tasks|
  {
    exists i, j :: 0 <= i < j < |c.tasks| && WantedGiven(c, start, i) > 0 && WantedGiven(c, start, j) > 0
  }

  /** Task `i` is the first that wants a retry, and a later one wants one too. */
  predicate FirstContender(c: Config, start: Table, i: nat)
    requires |c.keys| == |c.tasks|
  {
    && i < |c.tasks| && WantedGiven(c, start, i) > 0
    && WantsBetween(c, start, 0, i) == 0 && WantsBetween(c, start, i + 1, |c.tasks|) > 0
  }

  lemma {:induction false} NobodyWants(c: Config, start: Table, lo: nat, hi: nat)
    requires |c.keys| == |c.tasks| && lo <= hi <= |c.tasks|
    ensures WantsBetween(c, start, lo, hi) == 0 <==> forall k :: lo <= k < hi ==> WantedGiven(c, start, k) == 0
    decreases hi - lo
  {
    hide WantedGiven;
    if lo < hi { NobodyWants(c, start, lo + 1, hi); }
  }

  lemma {:induction false} SomeFirst(c: Config, start: Table, i: nat) returns (first: nat)
    requires |c.keys| == |c.tasks| && i < |c.tasks| && WantedGiven(c, start, i) > 0
    ensures first <= i && WantedGiven(c, start, first) > 0 && forall k :: 0 <= k < first ==> WantedGiven(c, start, k) == 0
  {
    hide WantedGiven;
    if k: nat :| k < i && WantedGiven(c, start, k) > 0 {
      first := SomeFirst(c, start, k);
    } else {
      first := i;
    }
  }

  lemma ContendersExist(c: Config, start: Table) returns (i: nat)
    requires |c.keys| == |c.tasks| && Contended(c, start)
    ensures FirstContender(c, start, i)
    ensures Sum(Wants(c, start)) == WantedGiven(c, start, i) + WantsBetween(c, start, i + 1, |c.tasks|)
  {
    hide WantedGiven, WantsBetween;
    var a, b :| 0 <= a < b < |c.tasks| && WantedGiven(c, start, a) > 0 && WantedGiven(c, start, b) > 0;
    i := SomeFirst(c, start, a);
    NobodyWants(c, start, 0, i);
    NobodyWants(c, start, i + 1, |c.tasks|);
    SumAround(c, start, i);
    assert WantedGiven(c, start, b) > 0 && i < b;
  }

  lemma SumAround(c: Config, start: Table, i: nat)
    requires |c.keys| == |c.tasks| && i < |c.tasks|
    ensures Sum(Wants(c, start))
         == WantsBetween(c, start, 0, i) + WantedGiven(c, start, i) + WantsBetween(c, start, i + 1, |c.tasks|)
  {
    hide WantedGiven, WantsBetween;
    var w := Wants(c, start);
    WantsInRange(c, start, 0, i);
    WantsInRange(c, start, i + 1, |c.tasks|);
    assert w == w[0..i] + ([w[i]] + w[i + 1..|c.tasks|]);
    SumConcat(w[0..i], [w[i]] + w[i + 1..|c.tasks|]);
    SumConcat([w[i]], w[i + 1..|c.tasks|]);
    SumConstant([w[i]], w[i]);
  }

  /** In plan order the first contender is reached with the whole budget. */
  lemma ReachContender(c: Config, start: Table, i: nat) returns (sched: seq<nat>)
    requires AtTask(c, start, Init(c, start), 0) && FirstContender(c, start, i)
    ensures IsRun(c, Init(c, start), sched)
    ensures var mid := Run(c, Init(c, start), sched);
            && AtTask(c, start, mid, i) && mid.remaining == c.budget && mid.permits == c.maxConcurrent
            && forall k :: 0 <= k < i ==> mid.phases[k].Done?
  {
    hide Inv, AllDecided, TableLoads, WantsBetween, WantedGiven;
    sched := PlanRunIsRun(c, start, Init(c, start), 0, i);
    PlanRunSpends(c, start, Init(c, start), 0, i);
  }

  /** Run there and then, it takes its retries from that. */
  lemma FirstTakesAll(c: Config, start: Table, i: nat) returns (sched: seq<nat>)
    requires AtTask(c, start, Init(c, start), 0) && FirstContender(c, start, i)
    ensures IsRun(c, Init(c, start), sched) && Complete(Run(c, Init(c, start), sched))
    ensures Run(c, Init(c, start), sched).results[i]
         == Some(OutcomeOf(c, start, i, Min(c.budget, WantedGiven(c, start, i))))
  {
    hide Solo, DecidedBy, Inv, OutcomeOf, WantedGiven, WantsBetween, PlanRun, Run, Complete;
    var n, s := |c.tasks|, Init(c, start);
    var before := ReachContender(c, start, i);
    var mid := Run(c, s, before);
    SoloNext(c, start, mid, i);
    Decided(c, start, mid, i);
    SoloResult(c, start, mid, i);
    var own := SoloIsRun(c, mid, i);
    var next := Solo(c, mid, i);
    var after := PlanRunIsRun(c, start, next, i + 1, n);
    PlanRunSpends(c, start, next, i + 1, n);
    RunConcat(c, s, before, own);
    RunConcat(c, s, before + own, after);
    sched := before + own + after;
    AllDone(PlanRun(c, start, next, i + 1, n));
  }

  lemma AllDone(s: State)
    requires forall k :: 0 <= k < |s.phases| ==> s.phases[k].Done?
    ensures Complete(s)
  {
  }

  /** A task that misses is admitted and started, and then held in its first call. */
  lemma HoldFirstCall(c: Config, start: Table, s: State, i: nat) returns (sched: seq<nat>)
    requires AtTask(c, start, s, i) && i < |c.tasks| && s.permits >= 2 && Lookup(c, start, i).None?
    ensures IsRun(c, s, sched)
    ensures var h := Run(c, s, sched);
            && AtTask(c, start, h, i + 1)
            && h.phases == s.phases[i := Calling(1)] && h.results == s.results && h.remaining == s.remaining
  {
    hide AllDecided;
    Decided(c, start, s, i);
    var s1 := Step(c, s, i);
    var called := s.phases[i := Calling(1)];
    assert IsRun(c, s1, []);
    if !c.caching {
      RunCons(c, s, i, []);
      sched := [i] + [];
    } else {
      var s2 := Step(c, s1, i);
      assert IsRun(c, s2, []);
      RunCons(c, s1, i, []);
      if s2.phases[i].Evicting? {
        assert IsRun(c, Step(c, s2, i), []);
        RunCons(c, s2, i, []);
        RunCons(c, s1, i, [i] + []);
        RunCons(c, s, i, [i] + ([i] + []));
        sched := [i] + ([i] + ([i] + []));
        assert Step(c, s2, i).phases == called;
      } else {
        RunCons(c, s, i, [i] + []);
        sched := [i] + ([i] + []);
        assert s2.phases == called;
      }
    }
    RunKeeps(c, start, s, sched);
  }

  lemma RunCons(c: Config, s: State, i: nat, rest: seq<nat>)
    requires Shape(c, s) && Enabled(c, s, i) && IsRun(c, Step(c, s, i), rest)
    ensures IsRun(c, s, [i] + rest) && Run(c, s, [i] + rest) == Run(c, Step(c, s, i), rest)
  {
    assert ([i] + rest)[1..] == rest;
  }

  lemma Decided(c: Config, start: Table, s: State, i: nat)
    requires AtTask(c, start, s, i) && i < |c.tasks|
    ensures DecidedBy(c, start, s, i) && Enabled(c, s, i)
  {
  }

  /** Held in its first call while all others finish, it takes from what they left. */
  lemma FirstTakesLast(c: Config, start: Table, i: nat) returns (sched: seq<nat>)
    requires AtTask(c, start, Init(c, start), 0) && FirstContender(c, start, i) && c.maxConcurrent >= 2
    ensures IsRun(c, Init(c, start), sched) && Complete(Run(c, Init(c, start), sched))
    ensures var left := Max(0, c.budget - WantsBetween(c, start, i + 1, |c.tasks|));
            Run(c, Init(c, start), sched).results[i]
            == Some(OutcomeOf(c, start, i, Min(left, WantedGiven(c, start, i))))
  {
    hide Solo, Inv, OutcomeOf, WantsBetween, WantedGiven, PlanRun, Run, Complete;
    var s := Init(c, start);
    MissIsLookedUp(c, start, i);
    var before := ReachContender(c, start, i);
    var mid := Run(c, s, before);
    var hold := HoldFirstCall(c, start, mid, i);
    var rest := FinishHeld(c, start, Run(c, mid, hold), i);
    RunConcat(c, s, before, hold);
    RunConcat(c, s, before + hold, rest);
    sched := before + hold + rest;
  }

  lemma MissIsLookedUp(c: Config, start: Table, i: nat)
    requires i < |c.keys| && WantedGiven(c, start, i) > 0
    ensures Lookup(c, start, i).None?
  {
  }

  lemma HeldIsReady(c: Config, start: Table, s: State, n: nat, i: nat)
    requires AtTask(c, start, s, n) && i < n && s.phases[i] == Calling(1)
    ensures Ready(c, s, i) && DecidedBy(c, start, s, i)
  {
    assert LocalOk(c, s, i);
  }

  /** With one task held in its first call and all before it done, the others run and then it does. */
  lemma FinishHeld(c: Config, start: Table, s: State, i: nat) returns (sched: seq<nat>)
    requires AtTask(c, start, s, i + 1) && i < |c.tasks| && s.phases[i] == Calling(1)
    requires forall k :: 0 <= k < i ==> s.phases[k].Done?
    ensures IsRun(c, s, sched) && Complete(Run(c, s, sched))
    ensures var left := Max(0, s.remaining - WantsBetween(c, start, i + 1, |c.tasks|));
            Run(c, s, sched).results[i] == Some(OutcomeOf(c, start, i, Min(left, WantedGiven(c, start, i))))
  {
    hide Solo, DecidedBy, OutcomeOf, WantsBetween, WantedGiven, PlanRun, Run, Complete, IsRun, Lookup, Min, Max;
    var n := |c.tasks|;
    var others := PlanRunIsRun(c, start, s, i + 1, n);
    PlanRunSpends(c, start, s, i + 1, n);
    var last := PlanRun(c, start, s, i + 1, n);
    HeldIsReady(c, start, last, n, i);
    SoloResult(c, start, last, i);
    SoloFrame(c, last, i);
    var own := SoloIsRun(c, last, i);
    RunConcat(c, s, others, own);
    sched := others + own;
    AllDone(Solo(c, last, i));
  }

  // -- the runs that cannot differ ---------------------------------------------------

  /** A bound of one leaves the scheduler no choice. */
  lemma OnlyOneEnabled(c: Config, s: State, i: nat, j: nat)
    requires Inv(c, s) && c.maxConcurrent == 1 && Enabled(c, s, i) && Enabled(c, s, j)
    ensures i == j
  {
    if i != j {
      InFlightBounds(s);
      if !s.phases[i].Waiting? && !s.phases[j].Waiting? {
        PositivePair(Views(InFlight, s), i, j);
      }
    }
  }

  lemma {:induction false} OneRunOnly(c: Config, s: State, a: seq<nat>, b: seq<nat>)
    requires Inv(c, s) && c.maxConcurrent == 1 && IsRun(c, s, a) && IsRun(c, s, b)
    requires Complete(Run(c, s, a)) && Complete(Run(c, s, b))
    ensures a == b
    decreases |a|
  {
    if a != [] && b != [] {
      OnlyOneEnabled(c, s, a[0], b[0]);
      StepInv(c, s, a[0]);
      OneRunOnly(c, Step(c, s, a[0]), a[1..], b[1..]);
      assert a == [a[0]] + a[1..] && b == [b[0]] + b[1..];
    }
  }

  lemma {:induction false} PositivePair(w: seq<int>, i: nat, j: nat)
    requires i < |w| && j < |w| && i != j && forall k :: 0 <= k < |w| ==> 0 <= w[k]
    ensures w[i] + w[j] <= Sum(w)
  {
    SumUpdate(w, i, 0);
    SumNonNegative(w[i := 0]);
    assert w[i := 0][j] == w[j];
  }

  /** With no contention the grants are forced, whatever the schedule. */
  lemma {:induction false} OnlyOneWants(w: seq<int>, i: nat)
    requires i < |w| && forall k :: 0 <= k < |w| && k != i ==> w[k] == 0
    ensures Sum(w) == w[i]
  {
    SumUpdate(w, i, 0);
    SumConstant(w[i := 0], 0);
  }

  /** Grants bounded by wants of which one at most is positive are fixed by their sum. */
  lemma GrantsForced(got: seq<int>, want: seq<int>, i: nat)
    requires |got| == |want| && i < |want|
    requires forall k :: 0 <= k < |want| ==> 0 <= got[k] <= want[k]
    requires forall a, b :: 0 <= a < b < |want| ==> want[a] == 0 || want[b] == 0
    ensures got[i] == if want[i] == 0 then 0 else Sum(got)
  {
    if want[i] > 0 {
      forall k | 0 <= k < |want| && k != i ensures got[k] == 0 {
        assert want[if k < i then k else i] == 0 || want[if k < i then i else k] == 0;
      }
      OnlyOneWants(got, i);
    }
  }

  /** The grants of a complete run whose budget is empty, or sufficient, or for one task only. */
  function ForcedShare(c: Config, start: Table, i: nat): nat
    requires i < |c.keys| == |c.tasks|
  {
    if c.budget <= 0 then 0
    else if Sum(Wants(c, start)) <= c.budget then WantedGiven(c, start, i)
    else Min(c.budget, WantedGiven(c, start, i))
  }

  lemma SharesForced(c: Config, start: Table, sched: seq<nat>, i: nat)
    requires WellFormed(c) && OwnKeys(c) && i < |c.tasks|
    requires c.budget <= 0 || Sum(Wants(c, start)) <= c.budget || !Contended(c, start)
    requires IsRun(c, Init(c, start), sched) && Complete(Run(c, Init(c, start), sched))
    ensures Run(c, Init(c, start), sched).results[i] == Some(OutcomeOf(c, start, i, ForcedShare(c, start, i)))
  {
    hide OutcomeOf, Complete, Run, Share, WantedGiven;
    CompleteRunSettles(c, start, sched);
    var s := Run(c, Init(c, start), sched);
    var got, want := Views(Retries, s), Wants(c, start);
    SumNonNegative(got);
    if 0 < c.budget && Sum(want) <= c.budget {
      SumMonotone(got, want);
    } else if 0 < c.budget {
      forall a, b | 0 <= a < b < |want| ensures want[a] == 0 || want[b] == 0 {
        assert want[a] == WantedGiven(c, start, a) && want[b] == WantedGiven(c, start, b);
      }
      GrantsForced(got, want, i);
      if want[i] > 0 { GrantsForced(want, want, i); }
    }
  }

  /** The schedule is invisible in the results exactly when the budget grants nothing, or
      everything the cache's misses want, or at most one task competes for it, or the
      semaphore admits one task at a time. */
  lemma ScheduleInvisibleIff(c: Config, start: Table)
    requires WellFormed(c) && OwnKeys(c) && TableLoads(c, start) && c.maxConcurrent >= 1
    ensures ScheduleInvisible(c, start)
       <==> || c.budget <= 0 || Sum(Wants(c, start)) <= c.budget || !Contended(c, start)
            || c.maxConcurrent == 1
  {
    hide Complete, Run, OutcomeOf, Contended;
    if c.budget <= 0 || Sum(Wants(c, start)) <= c.budget || !Contended(c, start) || c.maxConcurrent == 1 {
      forall a: seq<nat>, b: seq<nat>
        | && IsRun(c, Init(c, start), a) && IsRun(c, Init(c, start), b)
          && Complete(Run(c, Init(c, start), a)) && Complete(Run(c, Init(c, start), b))
        ensures Run(c, Init(c, start), a).results == Run(c, Init(c, start), b).results
      {
        SameResults(c, start, a, b);
      }
    } else {
      var i := ContendersExist(c, start);
      StartsAtTask(c, start);
      var first := FirstTakesAll(c, start, i);
      var last := FirstTakesLast(c, start, i);
      GrantsTell(c, start, i, Min(c.budget, WantedGiven(c, start, i)),
                 Min(Max(0, c.budget - WantsBetween(c, start, i + 1, |c.tasks|)), WantedGiven(c, start, i)));
    }
  }

  /** Different grants of a miss are different records. */
  lemma GrantsTell(c: Config, start: Table, i: nat, a: nat, b: nat)
    requires i < |c.keys| == |c.tasks| && Lookup(c, start, i).None? && a != b
    ensures OutcomeOf(c, start, i, a) != OutcomeOf(c, start, i, b)
  {
    assert OutcomeOf(c, start, i, a).outcome.attempts == 1 + a;
    assert OutcomeOf(c, start, i, b).outcome.attempts == 1 + b;
  }

  lemma SameResults(c: Config, start: Table, a: seq<nat>, b: seq<nat>)
    requires WellFormed(c) && OwnKeys(c)
    requires c.budget <= 0 || Sum(Wants(c, start)) <= c.budget || !Contended(c, start) || c.maxConcurrent == 1
    requires IsRun(c, Init(c, start), a) && Complete(Run(c, Init(c, start), a))
    requires IsRun(c, Init(c, start), b) && Complete(Run(c, Init(c, start), b))
    ensures Run(c, Init(c, start), a).results == Run(c, Init(c, start), b).results
  {
    hide Complete, OutcomeOf, Contended;
    if c.maxConcurrent == 1 {
      InitInv(c, start);
      OneRunOnly(c, Init(c, start), a, b);
    } else {
      var ra, rb := Run(c, Init(c, start), a).results, Run(c, Init(c, start), b).results;
      forall i | 0 <= i < |c.tasks| ensures ra[i] == rb[i] {
        SharesForced(c, start, a, i);
        SharesForced(c, start, b, i);
      }
      assert ra == rb;
    }
  }
}
