/**
 The bounded, retrying, cache-aside task executor as a transition system. One
 step moves one task between two suspension points; a run is any sequence of
 enabled steps, so every interleaving the scheduler could choose is covered.
 */
module Executor {
  import opened Wrappers
  import opened Seqs
  import opened Domain
  import opened Outcomes
  import opened Cache

  /** How one provider call ends. */
  datatype Attempt = Success(result: SearchResult) | Failure(kind: ErrorKind, transient: bool)

  /** Writing a search result as a payload, and reading a payload back. */
  datatype Codec = Codec(dump: SearchResult -> Json, load: Json -> Option<SearchResult>)

  datatype Config = Config(
    tasks: seq<SearchTask>,
    keys: seq<string>,
    provider: (nat, nat) -> Attempt,
    maxAttempts: int,
    maxConcurrent: int,
    budget: int,
    caching: bool,
    now: int,
    ttls: CacheSettings,
    codec: Codec)

  datatype TaskExecutionResult = TaskExecutionResult(outcome: TaskOutcome, offers: seq<RawOffer>)

  /** Where a task is suspended; attempts are numbered from 1. */
  datatype Phase =
    | Waiting
    | LookingUp
    | Evicting
    | Calling(attempt: nat)
    | Sleeping(after: nat)
    | Storing(answeredAt: nat, answer: SearchResult)
    | Done

  datatype State = State(
    phases: seq<Phase>,
    results: seq<Option<TaskExecutionResult>>,
    remaining: int,
    granted: nat,
    permits: int,
    calls: nat,
    table: Table)

  ghost predicate WellFormed(c: Config) {
    && |c.keys| == |c.tasks|
    && forall i: nat, k: nat :: c.provider(i, k).Success? ==>
         c.codec.load(c.codec.dump(c.provider(i, k).result)) == Some(c.provider(i, k).result)
  }

  /** The retry budget: the product truncated toward zero. */
  function BudgetFor(taskCount: nat, fraction: real): (b: int)
    ensures var x := taskCount as real * fraction;
            if x >= 0.0 then b as real <= x < (b + 1) as real else x <= b as real < x + 1.0 && b <= 0
  {
    var x := taskCount as real * fraction;
    if x >= 0.0 then x.Floor else -((-x).Floor)
  }

  function Init(c: Config, table: Table): State {
    State(seq(|c.tasks|, _ => Waiting), seq(|c.tasks|, _ => None), c.budget, 0, c.maxConcurrent, 0, table)
  }

  // -- what a task records --------------------------------------------------

  function ErrorState(kind: ErrorKind): TaskState {
    match kind
    case RateLimitedError => RateLimited
    case TimeoutError => TimedOut
    case OtherError => ProviderFailed
  }

  function CountState(offers: seq<RawOffer>): TaskState {
    if |offers| > 0 then Answered else NoOffers
  }

  function ServedResult(task: SearchTask, offers: seq<RawOffer>): TaskExecutionResult {
    TaskExecutionResult(
      TaskOutcome(task.taskId, CountState(offers), 0, |offers|, 0, map[], Hit, None), offers)
  }

  function FreshMark(c: Config): CacheMark {
    if c.caching then Miss else Bypass
  }

  /** The record of a task whose last provider call was attempt `k`. */
  function FinalResult(c: Config, i: nat, k: nat): TaskExecutionResult
    requires i < |c.tasks|
  {
    match c.provider(i, k)
    case Success(r) =>
      TaskExecutionResult(
        TaskOutcome(c.tasks[i].taskId, CountState(r.offers), k, |r.offers|, 0, map[], FreshMark(c), None), r.offers)
    case Failure(kind, _) =>
      TaskExecutionResult(
        TaskOutcome(c.tasks[i].taskId, ErrorState(kind), k, 0, 0, map[], FreshMark(c), Some(kind)), [])
  }

  // -- the steps -------------------------------------------------------------

  predicate Shape(c: Config, s: State) {
    |s.phases| == |s.results| == |c.tasks| == |c.keys|
  }

  /** The semaphore admits tasks in the order of the plan: nobody waits ahead of task `i`. */
  predicate NextInLine(s: State, i: nat) {
    forall j :: 0 <= j < i && j < |s.phases| ==> !s.phases[j].Waiting?
  }

  /** Whether task `i` can move. A live row whose payload does not parse raises
      out of the executor, so it is not a step of it. */
  predicate Enabled(c: Config, s: State, i: nat)
    requires Shape(c, s)
  {
    && i < |c.tasks|
    && match s.phases[i]
       case Waiting => s.permits > 0 && NextInLine(s, i)
       case LookingUp =>
         var hit := Served(s.table, c.keys[i], c.now);
         hit.Some? ==> c.codec.load(hit.value).Some?
       case Done => false
       case _ => true
  }

  function Move(s: State, i: nat, p: Phase): State
    requires i < |s.phases|
  {
    s.(phases := s.phases[i := p])
  }

  function StartCall(s: State, i: nat, attempt: nat): State
    requires i < |s.phases|
  {
    Move(s, i, Calling(attempt)).(calls := s.calls + 1)
  }

  function Finish(s: State, i: nat, r: TaskExecutionResult): State
    requires i < |s.phases| == |s.results|
  {
    Move(s, i, Done).(results := s.results[i := Some(r)], permits := s.permits + 1)
  }

  /** Whether failed attempt `k` earns another one; the budget is asked last. */
  predicate ShouldRetry(c: Config, s: State, transient: bool, k: nat) {
    transient && k < c.maxAttempts && s.remaining > 0
  }

  function Step(c: Config, s: State, i: nat): (s': State)
    requires Shape(c, s) && Enabled(c, s, i)
    ensures Shape(c, s')
  {
    match s.phases[i]
    case Waiting =>
      var acquired := s.(permits := s.permits - 1);
      if c.caching then Move(acquired, i, LookingUp) else StartCall(acquired, i, 1)
    case LookingUp =>
      var hit := Served(s.table, c.keys[i], c.now);
      if hit.Some? then Finish(s, i, ServedResult(c.tasks[i], c.codec.load(hit.value).value.offers))
      else if Corrupt(s.table, c.keys[i]) then Move(s, i, Evicting)
      else StartCall(s, i, 1)
    case Evicting =>
      StartCall(s.(table := s.table - {c.keys[i]}), i, 1)
    case Calling(k) =>
      (match c.provider(i, k)
       case Success(r) =>
         if c.caching then Move(s, i, Storing(k, r)) else Finish(s, i, FinalResult(c, i, k))
       case Failure(_, transient) =>
         if ShouldRetry(c, s, transient, k)
         then Move(s, i, Sleeping(k)).(remaining := s.remaining - 1, granted := s.granted + 1)
         else Finish(s, i, FinalResult(c, i, k)))
    case Sleeping(k) =>
      StartCall(s, i, k + 1)
    case Storing(k, r) =>
      var ttl := ResolveTtl(c.tasks[i].request.departureDate, c.now / DAY, c.ttls);
      Finish(s.(table := Upsert(s.table, c.keys[i], c.codec.dump(r), c.now, ttl)), i, FinalResult(c, i, k))
  }

  /** `sched` names, in order, the task that moves at each step. */
  predicate IsRun(c: Config, s: State, sched: seq<nat>)
    requires Shape(c, s)
    decreases |sched|
  {
    sched == [] || (Enabled(c, s, sched[0]) && IsRun(c, Step(c, s, sched[0]), sched[1..]))
  }

  function Run(c: Config, s: State, sched: seq<nat>): (s': State)
    requires Shape(c, s) && IsRun(c, s, sched)
    ensures Shape(c, s')
    decreases |sched|
  {
    if sched == [] then s else Run(c, Step(c, s, sched[0]), sched[1..])
  }

  predicate Complete(s: State) {
    forall i :: 0 <= i < |s.phases| ==> s.phases[i].Done?
  }

  // -- per-task measures of a state -------------------------------------------

  type View = (Phase, Option<TaskExecutionResult>) -> int

  function Retries(p: Phase, r: Option<TaskExecutionResult>): int {
    match p
    case Calling(k) => k - 1
    case Sleeping(k) => k
    case Storing(k, _) => k - 1
    case Done => if r.Some? && r.value.outcome.attempts > 0 then r.value.outcome.attempts - 1 else 0
    case _ => 0
  }

  function CallsMade(p: Phase, r: Option<TaskExecutionResult>): int {
    match p
    case Calling(k) => k
    case Sleeping(k) => k
    case Storing(k, _) => k
    case Done => if r.Some? then r.value.outcome.attempts else 0
    case _ => 0
  }

  /** Holding a permit: everything between the semaphore and the result, sleeping included. */
  function InFlight(p: Phase, r: Option<TaskExecutionResult>): int {
    if p.Waiting? || p.Done? then 0 else 1
  }

  function Views(f: View, s: State): (v: seq<int>)
    requires |s.phases| == |s.results|
    ensures |v| == |s.phases|
    ensures forall i :: 0 <= i < |v| ==> v[i] == f(s.phases[i], s.results[i])
  {
    seq(|s.phases|, i requires 0 <= i < |s.phases| => f(s.phases[i], s.results[i]))
  }

  function Total(f: View, s: State): int
    requires |s.phases| == |s.results|
  {
    Sum(Views(f, s))
  }

  /** Only task `i` moved, so the total moved by that task's share. */
  lemma TotalStep(f: View, s: State, s': State, i: nat)
    requires |s.phases| == |s.results| == |s'.phases| == |s'.results| && i < |s.phases|
    requires s'.phases == s.phases[i := s'.phases[i]] && s'.results == s.results[i := s'.results[i]]
    ensures Total(f, s') == Total(f, s) - f(s.phases[i], s.results[i]) + f(s'.phases[i], s'.results[i])
  {
    assert Views(f, s') == Views(f, s)[i := f(s'.phases[i], s'.results[i])];
    SumUpdate(Views(f, s), i, f(s'.phases[i], s'.results[i]));
  }

  // -- what a task would do with unlimited budget ------------------------------

  function Cap(c: Config): nat {
    if c.maxAttempts < 1 then 1 else c.maxAttempts
  }

  /** Retries wanted from attempt `k` on: transient failures before the attempt limit. */
  function WantedFrom(c: Config, i: nat, k: nat): nat
    decreases c.maxAttempts - k
  {
    var a := c.provider(i, k);
    if a.Failure? && a.transient && k < c.maxAttempts then 1 + WantedFrom(c, i, k + 1) else 0
  }

  function Wanted(c: Config, i: nat): nat {
    WantedFrom(c, i, 1)
  }

  // -- the invariant ------------------------------------------------------------

  predicate SettledFresh(c: Config, s: State, i: nat, k: nat)
    requires Shape(c, s) && i < |c.tasks|
  {
    && 1 <= k <= Cap(c)
    && s.results[i] == Some(FinalResult(c, i, k))
    && Wanted(c, i) == k - 1 + WantedFrom(c, i, k)
    && (WantedFrom(c, i, k) > 0 ==> s.remaining <= 0)
  }

  predicate LocalOk(c: Config, s: State, i: nat)
    requires Shape(c, s) && i < |c.tasks|
  {
    && (s.results[i].Some? <==> s.phases[i].Done?)
    && match s.phases[i]
       case Waiting => true
       case LookingUp => c.caching
       case Evicting => c.caching
       case Calling(k) => 1 <= k <= Cap(c) && Wanted(c, i) == k - 1 + WantedFrom(c, i, k)
       case Sleeping(k) => 1 <= k < Cap(c) && Wanted(c, i) == k + WantedFrom(c, i, k + 1)
       case Storing(k, r) =>
         c.caching && 1 <= k <= Cap(c) && Wanted(c, i) == k - 1 + WantedFrom(c, i, k)
         && c.provider(i, k) == Success(r)
       case Done =>
         var res := s.results[i].value;
         if res.outcome.cache == Hit then c.caching && res == ServedResult(c.tasks[i], res.offers)
         else SettledFresh(c, s, i, res.outcome.attempts)
  }

  ghost predicate Inv(c: Config, s: State) {
    && Shape(c, s)
    && (forall i :: 0 <= i < |c.tasks| ==> LocalOk(c, s, i))
    && s.remaining + s.granted == c.budget
    && (s.granted > 0 ==> 0 <= s.remaining)
    && s.granted == Total(Retries, s)
    && s.calls == Total(CallsMade, s)
    && s.permits == c.maxConcurrent - Total(InFlight, s)
    && (0 <= c.maxConcurrent ==> 0 <= s.permits)
  }

  lemma InitInv(c: Config, table: Table)
    requires WellFormed(c)
    ensures Inv(c, Init(c, table))
  {
    var s := Init(c, table);
    SumConstant(Views(Retries, s), 0);
    SumConstant(Views(CallsMade, s), 0);
    SumConstant(Views(InFlight, s), 0);
  }

  /** What every step leaves alone: the other tasks, and a budget that only falls. */
  lemma StepFrame(c: Config, s: State, i: nat)
    requires Shape(c, s) && Enabled(c, s, i)
    ensures var s' := Step(c, s, i);
            && s'.phases == s.phases[i := s'.phases[i]]
            && s'.results == s.results[i := s'.results[i]]
            && s'.remaining + s'.granted == s.remaining + s.granted
            && s'.remaining <= s.remaining
            && (s'.remaining < s.remaining ==> s.remaining > 0)
  {
  }

  lemma StepCalling(c: Config, s: State, i: nat)
    requires Shape(c, s) && Enabled(c, s, i) && LocalOk(c, s, i) && s.phases[i].Calling?
    ensures LocalOk(c, Step(c, s, i), i)
  {
    var k := s.phases[i].attempt;
    if c.provider(i, k).Failure? && !ShouldRetry(c, s, c.provider(i, k).transient, k) {
      assert SettledFresh(c, Step(c, s, i), i, k);
    }
  }

  lemma StepLocal(c: Config, s: State, i: nat)
    requires Shape(c, s) && Enabled(c, s, i) && LocalOk(c, s, i)
    ensures LocalOk(c, Step(c, s, i), i)
  {
    match s.phases[i]
    case Calling(k) =>
      StepCalling(c, s, i);
    case Storing(k, r) =>
      assert SettledFresh(c, Step(c, s, i), i, k);
    case _ =>
  }

  lemma StepOthers(c: Config, s: State, i: nat, j: nat)
    requires Shape(c, s) && Enabled(c, s, i) && j < |c.tasks| && j != i && LocalOk(c, s, j)
    ensures LocalOk(c, Step(c, s, i), j)
  {
    StepFrame(c, s, i);
  }

  /** How one step moves the three sums. */
  lemma StepCounts(c: Config, s: State, i: nat)
    requires Shape(c, s) && Enabled(c, s, i) && LocalOk(c, s, i)
    ensures var s' := Step(c, s, i);
            && s'.granted - s.granted == Total(Retries, s') - Total(Retries, s)
            && s'.calls - s.calls == Total(CallsMade, s') - Total(CallsMade, s)
            && s.permits - s'.permits == Total(InFlight, s') - Total(InFlight, s)
  {
    hide WantedFrom, Served, Upsert, Total;
    var s' := Step(c, s, i);
    StepFrame(c, s, i);
    TotalStep(Retries, s, s', i);
    TotalStep(CallsMade, s, s', i);
    TotalStep(InFlight, s, s', i);
  }

  lemma StepInv(c: Config, s: State, i: nat)
    requires Inv(c, s) && Enabled(c, s, i)
    ensures Inv(c, Step(c, s, i))
  {
    assert LocalOk(c, s, i);
    StepFrame(c, s, i);
    StepLocal(c, s, i);
    forall j | 0 <= j < |c.tasks| && j != i ensures LocalOk(c, Step(c, s, i), j) {
      StepOthers(c, s, i, j);
    }
    StepCounts(c, s, i);
    InFlightBounds(s);
  }

  lemma InFlightBounds(s: State)
    requires |s.phases| == |s.results|
    ensures 0 <= Total(InFlight, s)
    ensures forall i :: 0 <= i < |s.phases| ==> InFlight(s.phases[i], s.results[i]) <= Total(InFlight, s)
  {
    var v := Views(InFlight, s);
    SumNonNegative(v);
    forall i | 0 <= i < |s.phases| ensures InFlight(s.phases[i], s.results[i]) <= Total(InFlight, s) {
      assert v[i] <= Sum(v);
    }
  }

  lemma {:induction false} RunInv(c: Config, s: State, sched: seq<nat>)
    requires Inv(c, s) && IsRun(c, s, sched)
    ensures Inv(c, Run(c, s, sched))
    decreases |sched|
  {
    if sched != [] {
      StepInv(c, s, sched[0]);
      RunInv(c, Step(c, s, sched[0]), sched[1..]);
    }
  }
}
