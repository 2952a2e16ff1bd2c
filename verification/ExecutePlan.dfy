/**
 The executor's loops on its shared objects, with no other task interleaved:
 each method ends where the transition system's run of the same task ends.
 */
module ExecutePlan {
  import opened Wrappers
  import opened Seqs
  import opened Domain
  import opened Outcomes
  import opened Cache
  import opened Executor
  import opened ExecutorTheorems
  import opened ExecutorSequential

  /** The run-wide cap on retries, shared by every task. */
  class RetryBudget {
    var remaining: int

    constructor (total: int)
      ensures remaining == total
    {
      remaining := total;
    }

    method TryConsume() returns (granted: bool)
      modifies this
      ensures granted == (old(remaining) > 0)
      ensures remaining == if granted then old(remaining) - 1 else old(remaining)
    {
      if remaining <= 0 { return false; }
      remaining := remaining - 1;
      return true;
    }
  }

  /** The budget is asked only for a transient failure below the attempt limit. */
  method ShouldTryAgain(c: Config, transient: bool, attempt: nat, budget: RetryBudget) returns (again: bool)
    modifies budget
    ensures again == (transient && attempt < c.maxAttempts && old(budget.remaining) > 0)
    ensures budget.remaining == old(budget.remaining) - if again then 1 else 0
  {
    if !transient { return false; }
    if attempt >= c.maxAttempts { return false; }
    again := budget.TryConsume();
  }

  /** One more step leads to the same end. */
  lemma Advance(c: Config, s: State, i: nat)
    requires Ready(c, s, i) && !s.phases[i].Done?
    ensures Enabled(c, s, i) && Ready(c, Step(c, s, i), i)
    ensures Solo(c, Step(c, s, i), i) == Solo(c, s, i)
    ensures 0 <= Weight(c, Step(c, s, i).phases[i]) < Weight(c, s.phases[i])
  {
    StepReady(c, s, i);
  }

  lemma AtEnd(c: Config, s: State, i: nat, r: TaskExecutionResult)
    requires Ready(c, s, i) && s.phases[i].Done? && s.results[i] == Some(r)
    ensures Solo(c, s, i) == s && Solo(c, s, i).results[i] == Some(r)
  {
  }

  /** The retry loop and the write-back, from the first provider call on. */
  method SearchWithRetries(c: Config, i: nat, budget: RetryBudget, repo: CacheRepository, ghost s: State)
    returns (r: TaskExecutionResult)
    requires Ready(c, s, i) && s.phases[i] == Calling(1)
    requires budget.remaining == s.remaining && repo.raw == s.table
    modifies budget, repo`raw, repo`rawCounters
    ensures Solo(c, s, i).results[i] == Some(r)
    ensures budget.remaining == Solo(c, s, i).remaining
    ensures repo.raw == Solo(c, s, i).table
  {
    ghost var cur := s;
    var attempt := 1;
    while true
      invariant Ready(c, cur, i) && cur.phases[i] == Calling(attempt)
      invariant Solo(c, cur, i) == Solo(c, s, i)
      invariant budget.remaining == cur.remaining && repo.raw == cur.table
      decreases Weight(c, cur.phases[i])
    {
      var response := c.provider(i, attempt);
      Advance(c, cur, i);
      cur := Step(c, cur, i);
      if response.Failure? {
        var again := ShouldTryAgain(c, response.transient, attempt, budget);
        if again {
          Advance(c, cur, i);
          cur := Step(c, cur, i);
          attempt := attempt + 1;
          continue;
        }
        r := FinalResult(c, i, attempt);
        AtEnd(c, cur, i, r);
        return;
      }
      if c.caching {
        var ttl := ResolveTtl(c.tasks[i].request.departureDate, c.now / DAY, c.ttls);
        Advance(c, cur, i);
        cur := Step(c, cur, i);
        repo.PutRaw(c.keys[i], c.codec.dump(response.result), c.now, ttl);
      }
      r := FinalResult(c, i, attempt);
      AtEnd(c, cur, i, r);
      return;
    }
  }

  /** One task: the cache lookup, then the provider. */
  method SearchAndRecord(c: Config, i: nat, budget: RetryBudget, repo: CacheRepository, ghost s: State)
    returns (r: TaskExecutionResult)
    requires Ready(c, s, i) && s.phases[i].Waiting?
    requires budget.remaining == s.remaining && repo.raw == s.table
    modifies budget, repo`raw, repo`rawCounters
    ensures Solo(c, s, i).results[i] == Some(r)
    ensures budget.remaining == Solo(c, s, i).remaining
    ensures repo.raw == Solo(c, s, i).table
  {
    ghost var cur := s;
    Advance(c, cur, i);
    cur := Step(c, cur, i);
    if c.caching {
      var cached := repo.GetRaw(c.keys[i], c.now);
      Advance(c, cur, i);
      cur := Step(c, cur, i);
      if cached.Some? {
        r := ServedResult(c.tasks[i], c.codec.load(cached.value).value.offers);
        AtEnd(c, cur, i, r);
        return;
      }
      if cur.phases[i].Evicting? {
        Advance(c, cur, i);
        cur := Step(c, cur, i);
      }
    }
    r := SearchWithRetries(c, i, budget, repo, cur);
  }

  /** The first `n` tasks have ended, the others have not begun. */
  ghost predicate DoneBelow(c: Config, s: State, n: nat) {
    && WellFormed(c) && Inv(c, s) && TableLoads(c, s.table) && s.permits == c.maxConcurrent
    && forall k :: 0 <= k < |c.tasks| ==> s.phases[k] == if k < n then Done else Waiting
  }

  lemma ExtendRun(c: Config, start: State, sched: seq<nat>, n: nat) returns (longer: seq<nat>)
    requires Shape(c, start) && IsRun(c, start, sched) && DoneBelow(c, Run(c, start, sched), n)
    requires n < |c.tasks| && c.maxConcurrent >= 1
    ensures var cur := Run(c, start, sched);
            && Ready(c, cur, n) && IsRun(c, start, longer) && Run(c, start, longer) == Solo(c, cur, n)
            && DoneBelow(c, Solo(c, cur, n), n + 1)
            && Solo(c, cur, n).results == cur.results[n := Solo(c, cur, n).results[n]]
  {
    var cur := Run(c, start, sched);
    assert LocalOk(c, cur, n);
    SoloFrame(c, cur, n);
    var next := SoloIsRun(c, cur, n);
    RunInv(c, cur, next);
    RunLoads(c, cur, next);
    RunConcat(c, start, sched, next);
    longer := sched + next;
  }

  /** All tasks, one after another: one complete run of the transition system. */
  method ExecuteInPlanOrder(c: Config, repo: CacheRepository)
    returns (outcomes: seq<TaskExecutionResult>, ghost sched: seq<nat>)
    requires WellFormed(c) && TableLoads(c, repo.raw) && c.maxConcurrent >= 1
    modifies repo`raw, repo`rawCounters
    ensures IsRun(c, Init(c, old(repo.raw)), sched)
    ensures var end := Run(c, Init(c, old(repo.raw)), sched);
            && Complete(end)
            && outcomes == Collected(end.results)
            && repo.raw == end.table
    ensures |outcomes| == |c.tasks|
    ensures OwnKeys(c) && Sum(Wants(c, old(repo.raw))) <= Max(0, c.budget) ==>
              outcomes == Collected(Undisturbed(c, old(repo.raw)))
  {
    var budget := new RetryBudget(c.budget);
    var results := new Option<TaskExecutionResult>[|c.tasks|](_ => None);
    ghost var start := Init(c, repo.raw);
    ghost var cur := start;
    InitInv(c, repo.raw);
    sched := [];
    for index := 0 to |c.tasks|
      modifies repo`raw, repo`rawCounters, budget, results
      invariant IsRun(c, start, sched) && Run(c, start, sched) == cur && DoneBelow(c, cur, index)
      invariant budget.remaining == cur.remaining && repo.raw == cur.table
      invariant results[..] == cur.results
    {
      ghost var longer := ExtendRun(c, start, sched, index);
      var r := SearchAndRecord(c, index, budget, repo, cur);
      results[index] := Some(r);
      cur := Solo(c, cur, index);
      sched := longer;
    }
    outcomes := Collected(results[..]);
    OneResultPerTask(c, old(repo.raw), sched);
    if OwnKeys(c) && Sum(Wants(c, old(repo.raw))) <= Max(0, c.budget) {
      ScheduleIndependence(c, old(repo.raw), sched);
    }
  }
}
