/** What every run of the executor keeps, and what every complete run delivers. */
module ExecutorTheorems {
  import opened Wrappers
  import opened Seqs
  import opened Domain
  import opened Outcomes
  import opened Cache
  import opened Executor

  // -- runs -----------------------------------------------------------------

  lemma {:induction false} RunConcat(c: Config, s: State, a: seq<nat>, b: seq<nat>)
    requires Shape(c, s) && IsRun(c, s, a) && IsRun(c, Run(c, s, a), b)
    ensures IsRun(c, s, a + b) && Run(c, s, a + b) == Run(c, Run(c, s, a), b)
    decreases |a|
  {
    if a == [] {
      assert a + b == b;
    } else {
      assert (a + b)[1..] == a[1..] + b;
      RunConcat(c, Step(c, s, a[0]), a[1..], b);
    }
  }

  /** A filled result slot keeps its value in every later state of the run. */
  lemma {:induction false} ResultsPersist(c: Config, s: State, sched: seq<nat>, i: nat)
    requires Inv(c, s) && IsRun(c, s, sched) && i < |c.tasks| && s.results[i].Some?
    ensures Run(c, s, sched).results[i] == s.results[i]
    decreases |sched|
  {
    if sched != [] {
      assert LocalOk(c, s, i);
      StepFrame(c, s, sched[0]);
      StepInv(c, s, sched[0]);
      ResultsPersist(c, Step(c, s, sched[0]), sched[1..], i);
    }
  }

  /** The budget is conserved, never overdrawn, and every grant is some task's retry. */
  lemma BudgetConservation(c: Config, table: Table, sched: seq<nat>)
    requires WellFormed(c) && IsRun(c, Init(c, table), sched)
    ensures var s := Run(c, Init(c, table), sched);
            && s.remaining + s.granted == c.budget
            && (0 <= c.budget ==> 0 <= s.remaining)
            && (c.budget <= 0 ==> s.granted == 0)
            && s.granted == Total(Retries, s)
            && s.calls == Total(CallsMade, s)
  {
    InitInv(c, table);
    RunInv(c, Init(c, table), sched);
  }

  /** Tasks past the semaphore, sleeping ones included, never exceed the bound;
      no task makes more than max(1, max_attempts) calls. */
  lemma ConcurrencyBound(c: Config, table: Table, sched: seq<nat>)
    requires WellFormed(c) && IsRun(c, Init(c, table), sched) && 0 <= c.maxConcurrent
    ensures var s := Run(c, Init(c, table), sched);
            && Total(InFlight, s) <= c.maxConcurrent
            && forall i :: 0 <= i < |c.tasks| ==>
                 CallsMade(s.phases[i], s.results[i]) <= 1 || CallsMade(s.phases[i], s.results[i]) <= c.maxAttempts
  {
    InitInv(c, table);
    RunInv(c, Init(c, table), sched);
    var s := Run(c, Init(c, table), sched);
    forall i | 0 <= i < |c.tasks|
      ensures CallsMade(s.phases[i], s.results[i]) <= 1 || CallsMade(s.phases[i], s.results[i]) <= c.maxAttempts
    {
      assert LocalOk(c, s, i);
    }
  }

  // -- progress and termination ------------------------------------------------

  /** Every row a lookup could serve parses. */
  ghost predicate TableLoads(c: Config, t: Table) {
    forall k :: k in t && Live(t[k], c.now) ==> c.codec.load(t[k].payload).Some?
  }

  lemma StepLoads(c: Config, s: State, i: nat)
    requires WellFormed(c) && Shape(c, s) && Enabled(c, s, i) && LocalOk(c, s, i) && TableLoads(c, s.table)
    ensures TableLoads(c, Step(c, s, i).table)
  {
    if s.phases[i].Storing? {
      assert c.provider(i, s.phases[i].answeredAt).Success?;
    }
  }

  lemma {:induction false} RunLoads(c: Config, s: State, sched: seq<nat>)
    requires WellFormed(c) && Inv(c, s) && IsRun(c, s, sched) && TableLoads(c, s.table)
    ensures TableLoads(c, Run(c, s, sched).table)
    decreases |sched|
  {
    if sched != [] {
      assert LocalOk(c, s, sched[0]);
      StepLoads(c, s, sched[0]);
      StepInv(c, s, sched[0]);
      RunLoads(c, Step(c, s, sched[0]), sched[1..]);
    }
  }

  /** No reachable state is stuck: while a slot is empty some task can move. */
  lemma Progress(c: Config, table: Table, sched: seq<nat>)
    requires WellFormed(c) && TableLoads(c, table) && c.maxConcurrent >= 1
    requires IsRun(c, Init(c, table), sched)
    ensures var s := Run(c, Init(c, table), sched);
            Complete(s) || exists i: nat :: Enabled(c, s, i)
  {
    InitInv(c, table);
    RunInv(c, Init(c, table), sched);
    RunLoads(c, Init(c, table), sched);
    StateProgress(c, Run(c, Init(c, table), sched));
  }

  lemma StateProgress(c: Config, s: State)
    requires Inv(c, s) && TableLoads(c, s.table) && c.maxConcurrent >= 1
    ensures Complete(s) || exists i: nat :: Enabled(c, s, i)
  {
    if !Complete(s) {
      var i :| 0 <= i < |s.phases| && !s.phases[i].Done?;
      if j: nat :| j < |s.phases| && InFlight(s.phases[j], s.results[j]) == 1 {
        assert Enabled(c, s, j);
      } else {
        SumConstant(Views(InFlight, s), 0);
        var first := FirstWaiting(s, i);
        assert Enabled(c, s, first);
      }
    }
  }

  lemma {:induction false} FirstWaiting(s: State, i: nat) returns (first: nat)
    requires i < |s.phases| && s.phases[i].Waiting?
    ensures first <= i && s.phases[first].Waiting? && NextInLine(s, first)
  {
    if NextInLine(s, i) {
      first := i;
    } else {
      var j: nat :| j < i && s.phases[j].Waiting?;
      first := FirstWaiting(s, j);
    }
  }

  /** An upper bound on the steps a task still has to take. */
  function Weight(c: Config, p: Phase): int {
    match p
    case Waiting => 3 * Cap(c) + 2
    case LookingUp => 3 * Cap(c) + 1
    case Evicting => 3 * Cap(c)
    case Calling(k) => 3 * (Cap(c) - k) + 2
    case Sleeping(k) => 3 * (Cap(c) - k) + 1
    case Storing(k, _) => 3 * (Cap(c) - k) + 1
    case Done => 0
  }

  function Weights(c: Config): View {
    (p, r) => Weight(c, p)
  }

  lemma StepWeight(c: Config, s: State, i: nat)
    requires Shape(c, s) && Enabled(c, s, i) && LocalOk(c, s, i)
    ensures 0 <= Weight(c, Step(c, s, i).phases[i]) < Weight(c, s.phases[i])
    ensures Total(Weights(c), Step(c, s, i)) < Total(Weights(c), s)
  {
    StepLocal(c, s, i);
    StepFrame(c, s, i);
    TotalStep(Weights(c), s, Step(c, s, i), i);
  }

  lemma {:induction false} RunWeight(c: Config, s: State, sched: seq<nat>)
    requires Inv(c, s) && IsRun(c, s, sched)
    ensures |sched| + Total(Weights(c), Run(c, s, sched)) <= Total(Weights(c), s)
    decreases |sched|
  {
    if sched != [] {
      assert LocalOk(c, s, sched[0]);
      StepWeight(c, s, sched[0]);
      StepInv(c, s, sched[0]);
      RunWeight(c, Step(c, s, sched[0]), sched[1..]);
    }
  }

  /** Every schedule is finite: no run is longer than the tasks' weights together. */
  lemma Termination(c: Config, table: Table, sched: seq<nat>)
    requires WellFormed(c) && IsRun(c, Init(c, table), sched)
    ensures |sched| <= |c.tasks| * (3 * Cap(c) + 2)
  {
    var s := Init(c, table);
    InitInv(c, table);
    RunWeight(c, s, sched);
    RunInv(c, s, sched);
    var last := Run(c, s, sched);
    forall i | 0 <= i < |c.tasks| ensures 0 <= Weight(c, last.phases[i]) {
      assert LocalOk(c, last, i);
    }
    SumNonNegative(Views(Weights(c), last));
    SumConstant(Views(Weights(c), s), 3 * Cap(c) + 2);
  }

  // -- complete runs --------------------------------------------------------------

  function Collected(results: seq<Option<TaskExecutionResult>>): (r: seq<TaskExecutionResult>)
    ensures |r| <= |results|
  {
    if results == [] then []
    else if results[0].Some? then [results[0].value] + Collected(results[1..])
    else Collected(results[1..])
  }

  lemma {:induction false} CollectedAll(results: seq<Option<TaskExecutionResult>>)
    requires forall i :: 0 <= i < |results| ==> results[i].Some?
    ensures |Collected(results)| == |results|
    ensures forall i :: 0 <= i < |results| ==> Collected(results)[i] == results[i].value
  {
    if results != [] {
      CollectedAll(results[1..]);
    }
  }

  /** The executor's closing assertion cannot fail: one result per task, in task order. */
  lemma OneResultPerTask(c: Config, table: Table, sched: seq<nat>)
    requires WellFormed(c) && IsRun(c, Init(c, table), sched)
    requires Complete(Run(c, Init(c, table), sched))
    ensures var r := Run(c, Init(c, table), sched).results;
            && |Collected(r)| == |c.tasks|
            && forall i :: 0 <= i < |c.tasks| ==>
                 r[i].Some? && Collected(r)[i] == r[i].value && r[i].value.outcome.taskId == c.tasks[i].taskId
  {
    InitInv(c, table);
    RunInv(c, Init(c, table), sched);
    var s := Run(c, Init(c, table), sched);
    forall i | 0 <= i < |c.tasks|
      ensures s.results[i].Some? && s.results[i].value.outcome.taskId == c.tasks[i].taskId
    {
      assert LocalOk(c, s, i);
    }
    CollectedAll(s.results);
  }

  /** Everything before attempt `k` failed transiently, with attempts left, if that many retries were wanted. */
  lemma {:induction false} WantedSoFar(c: Config, i: nat, j: nat, k: nat)
    requires j <= k && WantedFrom(c, i, j) == k - j + WantedFrom(c, i, k)
    ensures forall m :: j <= m < k ==> c.provider(i, m).Failure? && c.provider(i, m).transient && m < c.maxAttempts
    decreases k - j
  {
    if j < k {
      assert c.provider(i, j).Failure? && c.provider(i, j).transient && j < c.maxAttempts;
      WantedSoFar(c, i, j + 1, k);
      forall m | j <= m < k ensures c.provider(i, m).Failure? && c.provider(i, m).transient && m < c.maxAttempts {
        if m > j { assert j + 1 <= m; }
      }
    }
  }

  /** What a finished task has on record, field by field, under any schedule: a hit, or the end of its last
      provider call. Earlier calls failed transiently; a last transient failure below the
      attempt limit means that the budget was spent. */
  lemma RecordOfTask(c: Config, table: Table, sched: seq<nat>, i: nat)
    requires WellFormed(c) && IsRun(c, Init(c, table), sched) && Complete(Run(c, Init(c, table), sched))
    requires i < |c.tasks|
    ensures var s := Run(c, Init(c, table), sched);
            s.results[i].Some? &&
            var offers, o := s.results[i].value.offers, s.results[i].value.outcome;
            && o.taskId == c.tasks[i].taskId
            && o.offerCount == |offers| && o.acceptedCount == 0 && o.rejectionCounts == map[]
            && (o.error.None? ==> o.state == if offers == [] then NoOffers else Answered)
            && if o.cache == Hit then c.caching && o.attempts == 0 && o.error.None?
               else
                 && o.cache == (if c.caching then Miss else Bypass)
                 && 1 <= o.attempts && (o.attempts <= c.maxAttempts || o.attempts == 1)
                 && (forall k :: 1 <= k < o.attempts ==> c.provider(i, k).Failure? && c.provider(i, k).transient)
                 && match c.provider(i, o.attempts)
                    case Success(answer) => o.error.None? && offers == answer.offers
                    case Failure(kind, transient) =>
                      && o.error == Some(kind) && offers == []
                      && (kind == RateLimitedError ==> o.state == RateLimited)
                      && (kind == TimeoutError ==> o.state == TimedOut)
                      && (kind == OtherError ==> o.state == ProviderFailed)
                      && (transient && o.attempts < c.maxAttempts ==> s.remaining <= 0)
  {
    InitInv(c, table);
    RunInv(c, Init(c, table), sched);
    var s := Run(c, Init(c, table), sched);
    assert LocalOk(c, s, i);
    var o := s.results[i].value.outcome;
    if o.cache != Hit { WantedSoFar(c, i, 1, o.attempts); }
  }

  predicate WasHit(r: Option<TaskExecutionResult>) {
    r.Some? && r.value.outcome.cache == Hit
  }

  /** Retries wanted by the tasks the cache did not answer. */
  function WantedByMisses(c: Config, s: State): (w: seq<int>)
    requires Shape(c, s)
    ensures |w| == |c.tasks|
    ensures forall i :: 0 <= i < |w| ==> w[i] == if WasHit(s.results[i]) then 0 else Wanted(c, i)
  {
    seq(|c.tasks|, i requires 0 <= i < |c.tasks| => if WasHit(s.results[i]) then 0 else Wanted(c, i))
  }

  function MissFlags(s: State): (m: seq<int>)
    ensures |m| == |s.results|
    ensures forall i :: 0 <= i < |m| ==> m[i] == if WasHit(s.results[i]) then 0 else 1
  {
    seq(|s.results|, i requires 0 <= i < |s.results| => if WasHit(s.results[i]) then 0 else 1)
  }

  function Min(a: int, b: int): int { if a < b then a else b }
  function Max(a: int, b: int): int { if a < b then b else a }

  /** At the end, the grants are exactly the smaller of the budget and the
      retries wanted, and each miss costs one call plus its retries: the cost
      of a run does not depend on its schedule. */
  lemma CompleteRunCost(c: Config, s: State)
    requires Inv(c, s) && Complete(s)
    ensures s.granted == Min(Max(0, c.budget), Sum(WantedByMisses(c, s)))
    ensures s.calls == Sum(MissFlags(s)) + s.granted
    ensures Sum(WantedByMisses(c, s)) <= Max(0, c.budget) ==> Views(Retries, s) == WantedByMisses(c, s)
  {
    var got, want := Views(Retries, s), WantedByMisses(c, s);
    forall i | 0 <= i < |c.tasks| ensures got[i] <= want[i] && (got[i] < want[i] ==> s.remaining <= 0) {
      assert LocalOk(c, s, i);
    }
    SumMonotone(got, want);
    if got != want {
      var i :| 0 <= i < |c.tasks| && got[i] != want[i];
      assert s.remaining <= 0;
    }
    CallsSplit(c, s);
  }

  lemma CallsSplit(c: Config, s: State)
    requires Inv(c, s) && Complete(s)
    ensures Total(CallsMade, s) == Sum(MissFlags(s)) + Total(Retries, s)
  {
    var calls, flags, retries := Views(CallsMade, s), MissFlags(s), Views(Retries, s);
    forall i | 0 <= i < |c.tasks| ensures calls[i] == flags[i] + retries[i] {
      assert LocalOk(c, s, i);
    }
    SumPlus(calls, flags, retries);
  }

  lemma {:induction false} SumPlus(s: seq<int>, a: seq<int>, b: seq<int>)
    requires |s| == |a| == |b|
    requires forall i :: 0 <= i < |s| ==> s[i] == a[i] + b[i]
    ensures Sum(s) == Sum(a) + Sum(b)
  {
    if s != [] {
      SumPlus(s[1..], a[1..], b[1..]);
    }
  }

  // -- lookups, when every task has its own key -----------------------------------------

  /** With a cache, the tasks' keys are pairwise distinct. */
  ghost predicate OwnKeys(c: Config) {
    c.caching ==> Distinct(c.keys)
  }

  /** What the cache a run starts from would serve task `i`. */
  function Lookup(c: Config, start: Table, i: nat): Option<Json>
    requires i < |c.keys|
  {
    if c.caching then Served(start, c.keys[i], c.now) else None
  }

  function OffersIn(c: Config, payload: Json): seq<RawOffer> {
    match c.codec.load(payload)
    case Some(r) => r.offers
    case None => []
  }

  /** A step writes at most the moving task's own key. */
  lemma StepTable(c: Config, s: State, i: nat, key: string)
    requires Shape(c, s) && Enabled(c, s, i) && key != c.keys[i]
    ensures key in Step(c, s, i).table <==> key in s.table
    ensures key in s.table ==> Step(c, s, i).table[key] == s.table[key]
  {
  }

  /** Task `i`'s lookup is decided by the table the run started from. */
  predicate DecidedBy(c: Config, start: Table, s: State, i: nat)
    requires Shape(c, s) && i < |c.tasks|
  {
    var key := c.keys[i];
    if s.phases[i].Waiting? || s.phases[i].LookingUp? then
      (key in s.table <==> key in start) && (key in start ==> s.table[key] == start[key])
    else
      match Lookup(c, start, i)
      case Some(payload) =>
        c.codec.load(payload).Some? && s.results[i] == Some(ServedResult(c.tasks[i], OffersIn(c, payload)))
      case None => !WasHit(s.results[i])
  }

  lemma StepDecided(c: Config, start: Table, s: State, i: nat)
    requires Shape(c, s) && Enabled(c, s, i) && LocalOk(c, s, i) && DecidedBy(c, start, s, i)
    ensures DecidedBy(c, start, Step(c, s, i), i)
  {
  }

  /** Every task's lookup is so decided. */
  ghost predicate AllDecided(c: Config, start: Table, s: State)
    requires Shape(c, s)
  {
    forall i :: 0 <= i < |c.tasks| ==> DecidedBy(c, start, s, i)
  }

  lemma InitDecided(c: Config, start: Table)
    requires WellFormed(c)
    ensures AllDecided(c, start, Init(c, start))
  {
  }

  lemma OthersDecided(c: Config, start: Table, s: State, j: nat, i: nat)
    requires Shape(c, s) && Enabled(c, s, j) && LocalOk(c, s, j) && i < |c.tasks| && i != j
    requires OwnKeys(c) && DecidedBy(c, start, s, i)
    ensures DecidedBy(c, start, Step(c, s, j), i)
  {
    StepFrame(c, s, j);
    if c.caching { StepTable(c, s, j, c.keys[i]); }
  }

  lemma {:induction false} RunDecided(c: Config, start: Table, s: State, sched: seq<nat>)
    requires Inv(c, s) && IsRun(c, s, sched) && OwnKeys(c) && AllDecided(c, start, s)
    ensures Inv(c, Run(c, s, sched)) && AllDecided(c, start, Run(c, s, sched))
    decreases |sched|
  {
    if sched != [] {
      var j := sched[0];
      hide DecidedBy;
      assert LocalOk(c, s, j) && DecidedBy(c, start, s, j);
      StepDecided(c, start, s, j);
      StepInv(c, s, j);
      forall i | 0 <= i < |c.tasks| && i != j ensures DecidedBy(c, start, Step(c, s, j), i) {
        assert DecidedBy(c, start, s, i);
        OthersDecided(c, start, s, j, i);
      }
      RunDecided(c, start, Step(c, s, j), sched[1..]);
    }
  }

  // -- schedule independence ---------------------------------------------------------

  /** The retries task `i` wants of a run from `start`: none if the cache answers it. */
  function WantedGiven(c: Config, start: Table, i: nat): nat
    requires i < |c.keys|
  {
    if Lookup(c, start, i).Some? then 0 else Wanted(c, i)
  }

  function Wants(c: Config, start: Table): (w: seq<int>)
    requires |c.keys| == |c.tasks|
    ensures |w| == |c.tasks|
    ensures forall i :: 0 <= i < |w| ==> w[i] == WantedGiven(c, start, i) >= 0
  {
    seq(|c.tasks|, i requires 0 <= i < |c.tasks| => WantedGiven(c, start, i))
  }

  /** What task `i` records if it is granted `retries` retries: the cached answer, or its last attempt's. */
  function OutcomeOf(c: Config, start: Table, i: nat, retries: nat): TaskExecutionResult
    requires i < |c.keys| == |c.tasks|
  {
    match Lookup(c, start, i)
    case Some(payload) => ServedResult(c.tasks[i], OffersIn(c, payload))
    case None => FinalResult(c, i, 1 + retries)
  }

  /** The result list of a run in which every task gets all the retries it wants. */
  function Undisturbed(c: Config, start: Table): seq<Option<TaskExecutionResult>>
    requires |c.keys| == |c.tasks|
  {
    seq(|c.tasks|, i requires 0 <= i < |c.tasks| => Some(OutcomeOf(c, start, i, WantedGiven(c, start, i))))
  }

  /** In a finished run task `i` was granted `Share` retries. */
  function Share(s: State, i: nat): (r: nat)
    requires i < |s.phases| == |s.results|
  {
    var r := Retries(s.phases[i], s.results[i]);
    if r < 0 then 0 else r
  }

  lemma SettledByShare(c: Config, start: Table, s: State, i: nat)
    requires Shape(c, s) && i < |c.tasks| && s.phases[i].Done? && LocalOk(c, s, i) && DecidedBy(c, start, s, i)
    ensures s.results[i] == Some(OutcomeOf(c, start, i, Share(s, i)))
    ensures Share(s, i) <= WantedGiven(c, start, i) && Share(s, i) == Retries(s.phases[i], s.results[i])
    ensures WasHit(s.results[i]) <==> Lookup(c, start, i).Some?
  {
    hide WantedFrom;
  }

  /** A complete run, task by task: the cached answer, or the provider's after the retries granted;
      the grants add up to the smaller of the budget and what the cache's misses want. */
  lemma CompleteRunSettles(c: Config, start: Table, sched: seq<nat>)
    requires WellFormed(c) && OwnKeys(c)
    requires IsRun(c, Init(c, start), sched) && Complete(Run(c, Init(c, start), sched))
    ensures var s := Run(c, Init(c, start), sched);
            && (forall i :: 0 <= i < |c.tasks| ==>
                  && s.results[i] == Some(OutcomeOf(c, start, i, Share(s, i)))
                  && Share(s, i) == Views(Retries, s)[i] <= WantedGiven(c, start, i))
            && Sum(Views(Retries, s)) == Min(Max(0, c.budget), Sum(Wants(c, start)))
  {
    InitInv(c, start);
    InitDecided(c, start);
    RunDecided(c, start, Init(c, start), sched);
    var s := Run(c, Init(c, start), sched);
    forall i | 0 <= i < |c.tasks|
      ensures s.results[i] == Some(OutcomeOf(c, start, i, Share(s, i)))
      ensures Share(s, i) == Views(Retries, s)[i] <= WantedGiven(c, start, i)
      ensures WasHit(s.results[i]) <==> Lookup(c, start, i).Some?
    {
      assert LocalOk(c, s, i) && DecidedBy(c, start, s, i);
      SettledByShare(c, start, s, i);
    }
    assert WantedByMisses(c, s) == Wants(c, start);
    CompleteRunCost(c, s);
  }

  /** With a budget that covers what the cache's misses want, every complete interleaving
      returns the same list: each task's cached answer, or its own undisturbed outcome. */
  lemma ScheduleIndependence(c: Config, start: Table, sched: seq<nat>)
    requires WellFormed(c) && OwnKeys(c) && Sum(Wants(c, start)) <= Max(0, c.budget)
    requires IsRun(c, Init(c, start), sched) && Complete(Run(c, Init(c, start), sched))
    ensures Run(c, Init(c, start), sched).results == Undisturbed(c, start)
  {
    CompleteRunSettles(c, start, sched);
    var s := Run(c, Init(c, start), sched);
    SumMonotone(Views(Retries, s), Wants(c, start));
    forall i | 0 <= i < |c.tasks| ensures s.results[i] == Undisturbed(c, start)[i] {
      assert Views(Retries, s)[i] == Wants(c, start)[i];
    }
  }
}
