/**
 What one run leaves in the cache for the next: task by task, a second run over
 the same keys is served exactly by the answers the first one stored, for as
 long as they live.
 */
module SecondRun {
  import opened Wrappers
  import opened Seqs
  import opened Domain
  import opened Outcomes
  import opened Cache
  import opened Executor
  import opened ExecutorTheorems

  function TtlOf(c: Config, i: nat): int
    requires i < |c.tasks|
  {
    ResolveTtl(c.tasks[i].request.departureDate, c.now / DAY, c.ttls)
  }

  /** Task `i` ended with an answer, from the provider or from the cache. */
  predicate GotAnswer(s: State, i: nat)
    requires i < |s.results|
  {
    s.results[i].Some? && !IsError(s.results[i].value.outcome.state)
  }

  /** Until task `i` ends with an answer of the provider's, its row is the one the run
      started from, unless that was damaged; then it is that answer, with the task's own lifetime. */
  predicate OwnsKey(c: Config, start: Table, s: State, i: nat)
    requires Shape(c, s) && i < |c.tasks|
  {
    var key := c.keys[i];
    if GotAnswer(s, i) && !WasHit(s.results[i]) then
      && key in s.table
      && var a := c.provider(i, s.results[i].value.outcome.attempts);
      && a.Success? && s.table[key].payload == c.codec.dump(a.result)
      && s.table[key].expiresAt == Some(c.now + TtlOf(c, i))
    else
      && (key in s.table ==> key in start && s.table[key] == start[key])
      && (key in start && start[key].expiresAt.Some? ==> key in s.table)
      && (s.phases[i].Evicting? ==> Corrupt(s.table, key))
  }

  lemma StepOwns(c: Config, start: Table, s: State, i: nat)
    requires Shape(c, s) && Enabled(c, s, i) && LocalOk(c, s, i) && OwnsKey(c, start, s, i) && c.caching
    ensures OwnsKey(c, start, Step(c, s, i), i)
  {
    assert s.results[i].None?;
    if s.phases[i].Storing? {
      var k := s.phases[i].answeredAt;
      assert Step(c, s, i).results[i] == Some(FinalResult(c, i, k));
    }
  }

  lemma OthersOwn(c: Config, start: Table, s: State, j: nat, i: nat)
    requires Shape(c, s) && Enabled(c, s, j) && i < |c.tasks| && i != j && Distinct(c.keys)
    requires OwnsKey(c, start, s, i)
    ensures OwnsKey(c, start, Step(c, s, j), i)
  {
    StepFrame(c, s, j);
    StepTable(c, s, j, c.keys[i]);
  }

  lemma {:induction false} RunOwns(c: Config, start: Table, s: State, sched: seq<nat>)
    requires Inv(c, s) && IsRun(c, s, sched) && Distinct(c.keys) && c.caching
    requires forall i :: 0 <= i < |c.tasks| ==> OwnsKey(c, start, s, i)
    ensures forall i :: 0 <= i < |c.tasks| ==> OwnsKey(c, start, Run(c, s, sched), i)
    decreases |sched|
  {
    if sched != [] {
      var j := sched[0];
      hide OwnsKey;
      assert LocalOk(c, s, j) && OwnsKey(c, start, s, j);
      StepOwns(c, start, s, j);
      StepInv(c, s, j);
      forall i | 0 <= i < |c.tasks| && i != j ensures OwnsKey(c, start, Step(c, s, j), i) {
        assert OwnsKey(c, start, s, i);
        OthersOwn(c, start, s, j, i);
      }
      RunOwns(c, start, Step(c, s, j), sched[1..]);
    }
  }

  // -- two runs ------------------------------------------------------------------

  /** A complete first run over pairwise distinct keys, from whatever the cache then held. */
  ghost predicate FirstRun(c: Config, start: Table, sched: seq<nat>) {
    && WellFormed(c) && c.caching && Distinct(c.keys)
    && IsRun(c, Init(c, start), sched) && Complete(Run(c, Init(c, start), sched))
  }

  /** The same searches again: everything else about the run may differ. */
  ghost predicate SameSearches(c1: Config, c2: Config) {
    && WellFormed(c2) && c2.caching
    && c2.tasks == c1.tasks && c2.keys == c1.keys && c2.codec == c1.codec
  }

  /** The payload and expiry a first run leaves under task `i`'s key: its own answer's,
      or those of a readable row it started from. */
  function LeftBehind(c: Config, start: Table, s: State, i: nat): Option<(Json, int)>
    requires Shape(c, s) && i < |c.tasks|
  {
    var key := c.keys[i];
    if GotAnswer(s, i) && !WasHit(s.results[i]) then
      match c.provider(i, s.results[i].value.outcome.attempts)
      case Success(r) => Some((c.codec.dump(r), c.now + TtlOf(c, i)))
      case Failure(_, _) => None
    else if key in start && start[key].expiresAt.Some? then
      Some((start[key].payload, start[key].expiresAt.value))
    else None
  }

  /** What task `i`'s key was left with is still live at the second clock. */
  predicate StillStored(c1: Config, start: Table, s1: State, c2: Config, i: nat)
    requires Shape(c1, s1) && i < |c1.tasks|
  {
    match LeftBehind(c1, start, s1, i)
    case Some(left) => c2.now < left.1
    case None => false
  }

  /** In a cache that knew none of the keys, only the first run's own answers are stored. */
  lemma ColdStored(c1: Config, start: Table, s1: State, c2: Config, i: nat)
    requires Shape(c1, s1) && i < |c1.tasks| && LocalOk(c1, s1, i) && DecidedBy(c1, start, s1, i) && c1.keys[i] !in start
    ensures StillStored(c1, start, s1, c2, i) <==> GotAnswer(s1, i) && c2.now < c1.now + TtlOf(c1, i)
  {
  }

  lemma StoredAnswer(c1: Config, start: Table, sched1: seq<nat>, c2: Config, i: nat)
    requires FirstRun(c1, start, sched1) && SameSearches(c1, c2) && i < |c1.tasks|
    ensures var s1 := Run(c1, Init(c1, start), sched1);
            var hit := Served(s1.table, c1.keys[i], c2.now);
            && (hit.Some? <==> StillStored(c1, start, s1, c2, i))
            && (hit.Some? ==> hit.value == LeftBehind(c1, start, s1, i).value.0)
            && (hit.Some? && GotAnswer(s1, i) ==>
                  var back := c2.codec.load(hit.value);
                  && back.Some?
                  && back.value.offers == s1.results[i].value.offers
                  && CountState(back.value.offers) == s1.results[i].value.outcome.state)
  {
    var s1 := Run(c1, Init(c1, start), sched1);
    InitInv(c1, start);
    InitDecided(c1, start);
    RunDecided(c1, start, Init(c1, start), sched1);
    RunOwns(c1, start, Init(c1, start), sched1);
    assert LocalOk(c1, s1, i) && OwnsKey(c1, start, s1, i) && DecidedBy(c1, start, s1, i);
  }

  /** In every complete second run a task is a hit exactly when what its key was left with is
      still live, and makes no attempt then; if the first run answered it, it records the
      same state and offers. Every other task costs a call plus its retries. */
  lemma SecondRunServes(c1: Config, start: Table, sched1: seq<nat>, c2: Config, sched2: seq<nat>)
    requires FirstRun(c1, start, sched1) && SameSearches(c1, c2)
    requires IsRun(c2, Init(c2, Run(c1, Init(c1, start), sched1).table), sched2)
    requires Complete(Run(c2, Init(c2, Run(c1, Init(c1, start), sched1).table), sched2))
    ensures var s1 := Run(c1, Init(c1, start), sched1);
            var s2 := Run(c2, Init(c2, s1.table), sched2);
            forall i :: 0 <= i < |c1.tasks| ==>
              && s1.results[i].Some? && s2.results[i].Some?
              && (WasHit(s2.results[i]) <==> StillStored(c1, start, s1, c2, i))
              && (WasHit(s2.results[i]) ==> s2.results[i].value.outcome.attempts == 0)
              && (WasHit(s2.results[i]) && GotAnswer(s1, i) ==>
                    && s2.results[i].value.outcome.state == s1.results[i].value.outcome.state
                    && s2.results[i].value.offers == s1.results[i].value.offers)
    ensures var s2 := Run(c2, Init(c2, Run(c1, Init(c1, start), sched1).table), sched2);
            s2.calls == Sum(MissFlags(s2)) + Min(Max(0, c2.budget), Sum(WantedByMisses(c2, s2)))
  {
    hide LeftBehind, Step;
    var s1 := Run(c1, Init(c1, start), sched1);
    InitInv(c1, start);
    RunInv(c1, Init(c1, start), sched1);
    InitInv(c2, s1.table);
    InitDecided(c2, s1.table);
    RunDecided(c2, s1.table, Init(c2, s1.table), sched2);
    var s2 := Run(c2, Init(c2, s1.table), sched2);
    forall i | 0 <= i < |c1.tasks|
      ensures s1.results[i].Some? && s2.results[i].Some?
      ensures WasHit(s2.results[i]) <==> StillStored(c1, start, s1, c2, i)
      ensures WasHit(s2.results[i]) ==> s2.results[i].value.outcome.attempts == 0
      ensures WasHit(s2.results[i]) && GotAnswer(s1, i) ==>
                && s2.results[i].value.outcome.state == s1.results[i].value.outcome.state
                && s2.results[i].value.offers == s1.results[i].value.offers
    {
      assert LocalOk(c1, s1, i) && LocalOk(c2, s2, i) && DecidedBy(c2, s1.table, s2, i);
      StoredAnswer(c1, start, sched1, c2, i);
    }
    CompleteRunCost(c2, s2);
  }

  /** If every task's key was left with something that is still live, the second
      run calls the provider in no reachable state at all. */
  lemma SecondRunIsFree(c1: Config, start: Table, sched1: seq<nat>, c2: Config, sched2: seq<nat>)
    requires FirstRun(c1, start, sched1) && SameSearches(c1, c2)
    requires forall i :: 0 <= i < |c1.tasks| ==> StillStored(c1, start, Run(c1, Init(c1, start), sched1), c2, i)
    requires IsRun(c2, Init(c2, Run(c1, Init(c1, start), sched1).table), sched2)
    ensures Run(c2, Init(c2, Run(c1, Init(c1, start), sched1).table), sched2).calls == 0
  {
    hide LeftBehind, Step;
    var s1 := Run(c1, Init(c1, start), sched1);
    InitInv(c2, s1.table);
    InitDecided(c2, s1.table);
    RunDecided(c2, s1.table, Init(c2, s1.table), sched2);
    var s2 := Run(c2, Init(c2, s1.table), sched2);
    forall i | 0 <= i < |c1.tasks| ensures Views(CallsMade, s2)[i] == 0 {
      StoredAnswer(c1, start, sched1, c2, i);
      assert LocalOk(c2, s2, i) && DecidedBy(c2, s1.table, s2, i);
    }
    SumConstant(Views(CallsMade, s2), 0);
  }
}
