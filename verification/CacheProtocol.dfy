/**
 The cache under concurrency. Each locked statement is one atomic step; a lookup
 suspends between its select and its delete, and rows may be damaged from
 outside at any moment. The log records every write and every served hit.
 */
module CacheProtocol {
  import opened Wrappers
  import opened Seqs
  import opened Domain
  import opened Cache

  datatype Event =
    | Put(key: string, payload: Json, expiry: int)
    | HitServed(key: string, payload: Json, now: int, selectedAt: nat)

  /** Where one client's operation is suspended. */
  datatype Client =
    | Idle
    | Selected(key: string, now: int, row: Option<Row>, selectedAt: nat)
    | Evicting(key: string, selectedAt: nat)
    | Evicted
    | Written

  datatype Layer = Layer(
    table: Table,
    clients: seq<Client>,
    counters: Counters,
    gets: nat,
    puts: nat,
    log: seq<Event>)

  datatype Action =
    | Select(client: nat, key: string, now: int)
    | Decide(client: nat)
    | Delete(client: nat)
    | CountMiss(client: nat)
    | Upserted(client: nat, key: string, payload: Json, now: int, ttl: int)
    | CountWrite(client: nat)
    | Damage(key: string)

  predicate Enabled(s: Layer, a: Action) {
    match a
    case Select(c, _, _) => c < |s.clients| && s.clients[c].Idle?
    case Decide(c) => c < |s.clients| && s.clients[c].Selected?
    case Delete(c) => c < |s.clients| && s.clients[c].Evicting?
    case CountMiss(c) => c < |s.clients| && s.clients[c].Evicted?
    case Upserted(c, _, _, _, _) => c < |s.clients| && s.clients[c].Idle?
    case CountWrite(c) => c < |s.clients| && s.clients[c].Written?
    case Damage(key) => key in s.table
  }

  function At(s: Layer, c: nat, p: Client): Layer
    requires c < |s.clients|
  {
    s.(clients := s.clients[c := p])
  }

  function Missed(s: Layer): Layer {
    s.(counters := s.counters.(misses := s.counters.misses + 1))
  }

  function Step(s: Layer, a: Action): Layer
    requires Enabled(s, a)
  {
    match a
    case Select(c, key, now) =>
      var row := if key in s.table then Some(s.table[key]) else None;
      At(s, c, Selected(key, now, row, |s.log|)).(gets := s.gets + 1)
    case Decide(c) =>
      var got := s.clients[c];
      if got.row.None? then Missed(At(s, c, Idle))
      else if Live(got.row.value, got.now) then
        At(s, c, Idle).(
          counters := s.counters.(hits := s.counters.hits + 1),
          log := s.log + [HitServed(got.key, got.row.value.payload, got.now, got.selectedAt)])
      else if got.row.value.expiresAt.None? then At(s, c, Evicting(got.key, got.selectedAt))
      else Missed(At(s, c, Idle))
    case Delete(c) =>
      At(s, c, Evicted).(table := s.table - {s.clients[c].key})
    case CountMiss(c) =>
      Missed(At(s, c, Idle))
    case Upserted(c, key, payload, now, ttl) =>
      At(s, c, Written).(
        table := Upsert(s.table, key, payload, now, ttl),
        log := s.log + [Put(key, payload, now + ttl)],
        puts := s.puts + 1)
    case CountWrite(c) =>
      At(s, c, Idle).(counters := s.counters.(writes := s.counters.writes + 1))
    case Damage(key) =>
      s.(table := s.table[key := s.table[key].(expiresAt := None)])
  }

  predicate IsRun(s: Layer, actions: seq<Action>)
    decreases |actions|
  {
    actions == [] || (Enabled(s, actions[0]) && IsRun(Step(s, actions[0]), actions[1..]))
  }

  function Run(s: Layer, actions: seq<Action>): Layer
    requires IsRun(s, actions)
    decreases |actions|
  {
    if actions == [] then s else Run(Step(s, actions[0]), actions[1..])
  }

  lemma RunCons(s: Layer, a: Action, rest: seq<Action>)
    requires Enabled(s, a) && IsRun(Step(s, a), rest)
    ensures IsRun(s, [a] + rest) && Run(s, [a] + rest) == Run(Step(s, a), rest)
  {
    assert ([a] + rest)[1..] == rest;
  }

  function Fresh(clients: nat): Layer {
    Layer(map[], seq(clients, _ => Idle), Counters(0, 0, 0), 0, 0, [])
  }

  // -- hits are honest ------------------------------------------------------------

  /** The last write to `key`, with the expiry it was given. */
  function LatestPut(log: seq<Event>, key: string): Option<(Json, int)> {
    if log == [] then None
    else
      var last := log[|log| - 1];
      if last.Put? && last.key == key then Some((last.payload, last.expiry))
      else LatestPut(log[..|log| - 1], key)
  }

  lemma LatestPutAppend(log: seq<Event>, e: Event, key: string)
    ensures LatestPut(log + [e], key)
         == if e.Put? && e.key == key then Some((e.payload, e.expiry)) else LatestPut(log, key)
  {
    assert (log + [e])[..|log|] == log;
  }

  /** A row carries the latest write's payload, and its expiry unless that was damaged. */
  predicate Faithful(row: Row, put: Option<(Json, int)>) {
    && put.Some?
    && row.payload == put.value.0
    && (row.expiresAt.Some? ==> row.expiresAt.value == put.value.1)
  }

  predicate Coherent(table: Table, log: seq<Event>) {
    forall key :: key in table ==> Faithful(table[key], LatestPut(log, key))
  }

  predicate ClientOk(client: Client, log: seq<Event>) {
    client.Selected? ==>
      && client.selectedAt <= |log|
      && (client.row.Some? ==> Faithful(client.row.value, LatestPut(log[..client.selectedAt], client.key)))
  }

  /** The event at `p`, if a hit, served the latest write as of its own select, before that write's expiry. */
  predicate HonestAt(log: seq<Event>, p: nat)
    requires p < |log|
  {
    log[p].HitServed? ==>
      var e := log[p];
      && e.selectedAt <= p
      && var put := LatestPut(log[..e.selectedAt], e.key);
      && put.Some? && put.value.0 == e.payload && e.now < put.value.1
  }

  predicate Safe(s: Layer) {
    && Coherent(s.table, s.log)
    && (forall c :: 0 <= c < |s.clients| ==> ClientOk(s.clients[c], s.log))
    && (forall p :: 0 <= p < |s.log| ==> HonestAt(s.log, p))
  }

  lemma LogGrows(s: Layer, a: Action)
    requires Enabled(s, a)
    ensures |s.log| <= |Step(s, a).log| && Step(s, a).log[..|s.log|] == s.log
  {
  }

  lemma ClientKept(client: Client, log: seq<Event>, longer: seq<Event>)
    requires ClientOk(client, log) && |log| <= |longer| && longer[..|log|] == log
    ensures ClientOk(client, longer)
  {
    if client.Selected? {
      assert longer[..client.selectedAt] == log[..client.selectedAt];
    }
  }

  lemma HonestKept(log: seq<Event>, longer: seq<Event>, p: nat)
    requires p < |log| <= |longer| && longer[..|log|] == log && HonestAt(log, p)
    ensures HonestAt(longer, p)
  {
    assert longer[p] == log[p];
    if log[p].HitServed? {
      assert longer[..log[p].selectedAt] == log[..log[p].selectedAt];
    }
  }

  lemma StepCoherent(s: Layer, a: Action)
    requires Enabled(s, a) && Coherent(s.table, s.log)
    ensures Coherent(Step(s, a).table, Step(s, a).log)
  {
    var s' := Step(s, a);
    forall key | key in s'.table ensures Faithful(s'.table[key], LatestPut(s'.log, key)) {
      if s'.log != s.log {
        LatestPutAppend(s.log, s'.log[|s.log|], key);
        assert s'.log == s.log + [s'.log[|s.log|]];
      }
    }
  }

  lemma StepSafe(s: Layer, a: Action)
    requires Enabled(s, a) && Safe(s)
    ensures Safe(Step(s, a))
  {
    var s' := Step(s, a);
    StepCoherent(s, a);
    LogGrows(s, a);
    forall c | 0 <= c < |s'.clients| ensures ClientOk(s'.clients[c], s'.log) {
      assert ClientOk(s.clients[c], s.log);
      ClientKept(s.clients[c], s.log, s'.log);
      assert s.log[..|s.log|] == s.log;
    }
    forall p | 0 <= p < |s'.log| ensures HonestAt(s'.log, p) {
      if p < |s.log| {
        HonestKept(s.log, s'.log, p);
      } else if s'.log[p].HitServed? {
        var client := s.clients[a.client];
        assert ClientOk(client, s.log);
        assert s'.log[..client.selectedAt] == s.log[..client.selectedAt];
      }
    }
  }

  lemma {:induction false} RunSafe(s: Layer, actions: seq<Action>)
    requires IsRun(s, actions) && Safe(s)
    ensures Safe(Run(s, actions))
    decreases |actions|
  {
    if actions != [] {
      StepSafe(s, actions[0]);
      RunSafe(Step(s, actions[0]), actions[1..]);
    }
  }

  /** Under every interleaving, damage included, each hit is the latest write as
      of its select and had not expired. */
  lemma HitsAreHonest(clients: nat, actions: seq<Action>, p: nat)
    requires IsRun(Fresh(clients), actions) && p < |Run(Fresh(clients), actions).log|
    ensures HonestAt(Run(Fresh(clients), actions).log, p)
  {
    RunSafe(Fresh(clients), actions);
  }

  // -- what the gap can lose, and what it cannot ----------------------------------

  /** A lookup that saw a damaged row deletes whatever another client wrote in between. */
  lemma GapLosesFreshEntry(s: Layer, a: nat, b: nat, key: string, payload: Json, now: int, ttl: int)
    requires a < |s.clients| && b < |s.clients| && a != b && s.clients[a].Idle? && s.clients[b].Idle?
    requires Corrupt(s.table, key) && ttl > 0
    ensures var actions := [Select(a, key, now), Decide(a), Upserted(b, key, payload, now, ttl), Delete(a)];
            && IsRun(s, actions)
            && key !in Run(s, actions).table
            && LatestPut(Run(s, actions).log, key) == Some((payload, now + ttl))
  {
    var s1 := Step(s, Select(a, key, now));
    var s2 := Step(s1, Decide(a));
    var s3 := Step(s2, Upserted(b, key, payload, now, ttl));
    RunCons(s3, Delete(a), []);
    RunCons(s2, Upserted(b, key, payload, now, ttl), [Delete(a)]);
    RunCons(s1, Decide(a), [Upserted(b, key, payload, now, ttl)] + [Delete(a)]);
    RunCons(s, Select(a, key, now), [Decide(a)] + ([Upserted(b, key, payload, now, ttl)] + [Delete(a)]));
    assert [Select(a, key, now)] + ([Decide(a)] + ([Upserted(b, key, payload, now, ttl)] + [Delete(a)]))
        == [Select(a, key, now), Decide(a), Upserted(b, key, payload, now, ttl), Delete(a)];
    LatestPutAppend(s.log, Put(key, payload, now + ttl), key);
  }

  /** A lookup of `key` that saw a damaged row and has yet to delete it. */
  predicate Pending(client: Client, key: string) {
    match client
    case Selected(k, _, row, _) => k == key && row.Some? && row.value.expiresAt.None?
    case Evicting(k, _) => k == key
    case _ => false
  }

  predicate PendingEviction(s: Layer, key: string) {
    exists c :: 0 <= c < |s.clients| && Pending(s.clients[c], key)
  }

  predicate Readable(table: Table, key: string) {
    key in table && table[key].expiresAt.Some?
  }

  /** Some write to `key` is in the log from position `at` on. */
  predicate WrittenSince(log: seq<Event>, at: nat, key: string) {
    exists p :: at <= p < |log| && log[p].Put? && log[p].key == key
  }

  /** If such a lookup now has a readable row before it, the row was written after its select. */
  predicate Overtaken(client: Client, key: string, table: Table, log: seq<Event>) {
    Pending(client, key) ==>
      client.selectedAt <= |log| && (Readable(table, key) ==> WrittenSince(log, client.selectedAt, key))
  }

  lemma StepOvertaken(s: Layer, a: Action, key: string, c: nat)
    requires Enabled(s, a) && c < |s.clients|
    requires Overtaken(s.clients[c], key, s.table, s.log) && (s.clients[c].Selected? ==> s.clients[c].selectedAt <= |s.log|)
    ensures var s' := Step(s, a); Overtaken(s'.clients[c], key, s'.table, s'.log)
  {
    var s' := Step(s, a);
    LogGrows(s, a);
    assert |s'.clients| == |s.clients|;
    if Pending(s'.clients[c], key) && Readable(s'.table, key) {
      if a.Upserted? && a.key == key {
        assert s'.log[|s.log|] == Put(key, a.payload, a.now + a.ttl);
      } else if Pending(s.clients[c], key) {
        var p :| s.clients[c].selectedAt <= p < |s.log| && s.log[p].Put? && s.log[p].key == key;
        assert s'.log[p] == s'.log[..|s.log|][p];
      }
    }
  }

  predicate AllOvertaken(s: Layer, key: string) {
    forall c :: 0 <= c < |s.clients| ==> Overtaken(s.clients[c], key, s.table, s.log)
  }

  lemma StepAllOvertaken(s: Layer, a: Action, key: string)
    requires Enabled(s, a) && Safe(s) && AllOvertaken(s, key)
    ensures AllOvertaken(Step(s, a), key)
  {
    hide Overtaken;
    var s' := Step(s, a);
    assert |s'.clients| == |s.clients|;
    forall c | 0 <= c < |s'.clients| ensures Overtaken(s'.clients[c], key, s'.table, s'.log) {
      assert ClientOk(s.clients[c], s.log) && Overtaken(s.clients[c], key, s.table, s.log);
      StepOvertaken(s, a, key, c);
    }
  }

  lemma {:induction false} RunOvertaken(s: Layer, actions: seq<Action>, key: string)
    requires IsRun(s, actions) && Safe(s) && AllOvertaken(s, key)
    ensures AllOvertaken(Run(s, actions), key)
    decreases |actions|
  {
    hide AllOvertaken, Safe;
    if actions != [] {
      StepSafe(s, actions[0]);
      StepAllOvertaken(s, actions[0], key);
      RunOvertaken(Step(s, actions[0]), actions[1..], key);
    }
  }

  /** Under every interleaving, with rows damaged at any moment, a delete removes a readable
      row only if a write to its key landed after the select that saw the damaged one. */
  lemma DeletesHitDamagedRows(clients: nat, actions: seq<Action>, c: nat)
    requires IsRun(Fresh(clients), actions) && Enabled(Run(Fresh(clients), actions), Delete(c))
    ensures var s := Run(Fresh(clients), actions);
            var pending := s.clients[c];
            Readable(s.table, pending.key) ==> WrittenSince(s.log, pending.selectedAt, pending.key)
  {
    var s := Run(Fresh(clients), actions);
    RunOvertaken(Fresh(clients), actions, s.clients[c].key);
    assert Overtaken(s.clients[c], s.clients[c].key, s.table, s.log);
  }

  /** No write to a key lands while a lookup that saw its damaged row is pending. */
  predicate NoOverlap(s: Layer, actions: seq<Action>)
    requires IsRun(s, actions)
    decreases |actions|
  {
    actions == [] ||
    ((actions[0].Upserted? ==> !PendingEviction(s, actions[0].key)) && NoOverlap(Step(s, actions[0]), actions[1..]))
  }

  lemma StepUnoverlapped(s: Layer, a: Action, key: string)
    requires Enabled(s, a) && (a.Upserted? ==> !PendingEviction(s, a.key))
    requires PendingEviction(s, key) ==> !Readable(s.table, key)
    ensures PendingEviction(Step(s, a), key) ==> !Readable(Step(s, a).table, key)
  {
    var s' := Step(s, a);
    if PendingEviction(s', key) {
      var c :| 0 <= c < |s'.clients| && Pending(s'.clients[c], key);
      if Pending(s.clients[c], key) {
        assert PendingEviction(s, key);
      }
    }
  }

  /** In runs without such an overlap every delete hits a damaged row, or none. */
  lemma {:induction false} UnoverlappedDeletesAreSafe(s: Layer, actions: seq<Action>, key: string)
    requires IsRun(s, actions) && NoOverlap(s, actions)
    requires PendingEviction(s, key) ==> !Readable(s.table, key)
    ensures PendingEviction(Run(s, actions), key) ==> !Readable(Run(s, actions).table, key)
    decreases |actions|
  {
    hide PendingEviction, Readable;
    if actions != [] {
      StepUnoverlapped(s, actions[0], key);
      UnoverlappedDeletesAreSafe(Step(s, actions[0]), actions[1..], key);
    }
  }

  /** Writes or damages the key. */
  predicate Touches(a: Action, key: string) {
    a == Damage(key) || (a.Upserted? && a.key == key)
  }

  predicate Spares(actions: seq<Action>, key: string) {
    forall i :: 0 <= i < |actions| ==> !Touches(actions[i], key)
  }

  lemma StepCalm(s: Layer, a: Action, key: string)
    requires Enabled(s, a) && !Touches(a, key) && Readable(s.table, key) && !PendingEviction(s, key)
    ensures Readable(Step(s, a).table, key) && !PendingEviction(Step(s, a), key)
  {
    var s' := Step(s, a);
    forall c | 0 <= c < |s'.clients| ensures !Pending(s'.clients[c], key) {
      assert !Pending(s.clients[c], key);
    }
  }

  lemma {:induction false} RunCalm(s: Layer, actions: seq<Action>, key: string)
    requires IsRun(s, actions) && Spares(actions, key) && Readable(s.table, key) && !PendingEviction(s, key)
    ensures Readable(Run(s, actions).table, key)
    decreases |actions|
  {
    hide PendingEviction, Readable, Touches;
    if actions != [] {
      StepCalm(s, actions[0], key);
      RunCalm(Step(s, actions[0]), actions[1..], key);
    }
  }

  /** A pending lookup left to finish deletes whatever its key then holds. */
  lemma PendingDeletes(s: Layer, c: nat, key: string) returns (rest: seq<Action>)
    requires c < |s.clients| && Pending(s.clients[c], key)
    ensures Spares(rest, key) && IsRun(s, rest) && key !in Run(s, rest).table
  {
    if s.clients[c].Evicting? {
      RunCons(s, Delete(c), []);
      rest := [Delete(c)] + [];
    } else {
      var s1 := Step(s, Decide(c));
      RunCons(s1, Delete(c), []);
      RunCons(s, Decide(c), [Delete(c)] + []);
      rest := [Decide(c)] + ([Delete(c)] + []);
    }
  }

  /** The exact condition: a fresh entry can be lost, with neither damage nor another write to
      its key, iff at the moment it is written some lookup that saw a damaged row of
      that key is still pending. */
  lemma FreshEntryLostIff(s: Layer, b: nat, key: string, payload: Json, now: int, ttl: int)
    requires b < |s.clients| && s.clients[b].Idle?
    ensures var written := Step(s, Upserted(b, key, payload, now, ttl));
            PendingEviction(s, key)
            <==> exists rest :: IsRun(written, rest) && Spares(rest, key) && key !in Run(written, rest).table
  {
    var written := Step(s, Upserted(b, key, payload, now, ttl));
    if PendingEviction(s, key) {
      var c :| 0 <= c < |s.clients| && Pending(s.clients[c], key);
      assert written.clients[c] == s.clients[c];
      var rest := PendingDeletes(written, c, key);
    } else {
      assert !PendingEviction(written, key) by {
        if c :| 0 <= c < |written.clients| && Pending(written.clients[c], key) {
          assert !Pending(s.clients[c], key);
        }
      }
      forall rest | IsRun(written, rest) && Spares(rest, key) ensures key in Run(written, rest).table {
        RunCalm(written, rest, key);
      }
    }
  }

  // -- a key that is never damaged -----------------------------------------------------

  /** The latest write to `key` is in the table as it was written. */
  ghost predicate Kept(table: Table, log: seq<Event>, key: string) {
    LatestPut(log, key).Some? ==>
      && key in table
      && table[key].payload == LatestPut(log, key).value.0
      && table[key].expiresAt == Some(LatestPut(log, key).value.1)
  }

  /** And nobody is about to delete it, or has seen a reason to. */
  ghost predicate Intact(s: Layer, key: string) {
    && Kept(s.table, s.log, key) && !PendingEviction(s, key)
    && (key in s.table ==> Readable(s.table, key))
  }

  lemma StepKept(s: Layer, a: Action, key: string)
    requires Enabled(s, a) && !PendingEviction(s, key) && Kept(s.table, s.log, key) && a != Damage(key)
    ensures Kept(Step(s, a).table, Step(s, a).log, key)
  {
    hide LatestPut;
    var s' := Step(s, a);
    if a.Delete? { assert !Pending(s.clients[a.client], key); }
    if s'.log != s.log {
      LatestPutAppend(s.log, s'.log[|s.log|], key);
      assert s'.log == s.log + [s'.log[|s.log|]];
    }
  }

  lemma StepQuiet(s: Layer, a: Action, key: string)
    requires Enabled(s, a) && !PendingEviction(s, key) && (key in s.table ==> Readable(s.table, key)) && a != Damage(key)
    ensures !PendingEviction(Step(s, a), key)
    ensures key in Step(s, a).table ==> Readable(Step(s, a).table, key)
  {
    var s' := Step(s, a);
    forall c | 0 <= c < |s'.clients| ensures !Pending(s'.clients[c], key) {
      assert !Pending(s.clients[c], key);
    }
  }

  /** Whatever happens to other keys, a key that is never damaged never loses its entry, and
      only a later write to it changes it. */
  lemma {:induction false} UndamagedLosesNothing(s: Layer, actions: seq<Action>, key: string)
    requires IsRun(s, actions) && Intact(s, key)
    requires forall i :: 0 <= i < |actions| ==> actions[i] != Damage(key)
    ensures Intact(Run(s, actions), key)
    decreases |actions|
  {
    hide Kept, PendingEviction, Readable;
    if actions != [] {
      StepKept(s, actions[0], key);
      StepQuiet(s, actions[0], key);
      UndamagedLosesNothing(Step(s, actions[0]), actions[1..], key);
    }
  }

  /** In every reachable state a select then finds a live row exactly when the latest write is still live. */
  lemma UndamagedLookup(clients: nat, actions: seq<Action>, key: string, now: int)
    requires IsRun(Fresh(clients), actions)
    requires forall i :: 0 <= i < |actions| ==> actions[i] != Damage(key)
    ensures var s := Run(Fresh(clients), actions);
            var put := LatestPut(s.log, key);
            && (put.Some? && now < put.value.1 ==> Served(s.table, key, now) == Some(put.value.0))
            && (put.None? || put.value.1 <= now ==> Served(s.table, key, now) == None)
  {
    UndamagedLosesNothing(Fresh(clients), actions, key);
    RunSafe(Fresh(clients), actions);
  }

  // -- the tallies ------------------------------------------------------------------

  function Reading(c: Client): int { if c.Selected? || c.Evicting? || c.Evicted? then 1 else 0 }
  function Writing(c: Client): int { if c.Written? then 1 else 0 }

  predicate Tallied(s: Layer) {
    && s.gets == s.counters.hits + s.counters.misses + Sum(Map(Reading, s.clients))
    && s.puts == s.counters.writes + Sum(Map(Writing, s.clients))
  }

  lemma MapUpdate(f: Client -> int, s: seq<Client>, i: nat, v: Client)
    requires i < |s|
    ensures Sum(Map(f, s[i := v])) == Sum(Map(f, s)) - f(s[i]) + f(v)
  {
    assert Map(f, s[i := v]) == Map(f, s)[i := f(v)];
    SumUpdate(Map(f, s), i, f(v));
  }

  lemma StepTallied(s: Layer, a: Action)
    requires Enabled(s, a) && Tallied(s)
    ensures Tallied(Step(s, a))
  {
    hide Live, Upsert, Sum, Map;
    if !a.Damage? {
      var c, p := a.client, Step(s, a).clients[a.client];
      MapUpdate(Reading, s.clients, c, p);
      MapUpdate(Writing, s.clients, c, p);
    }
  }

  lemma {:induction false} RunTallied(s: Layer, actions: seq<Action>)
    requires IsRun(s, actions) && Tallied(s)
    ensures Tallied(Run(s, actions))
    decreases |actions|
  {
    if actions != [] {
      StepTallied(s, actions[0]);
      RunTallied(Step(s, actions[0]), actions[1..]);
    }
  }

  /** When no operation is in flight, every lookup was tallied once, as a hit or
      a miss, and every write once. */
  lemma QuiescentTallies(clients: nat, actions: seq<Action>)
    requires IsRun(Fresh(clients), actions)
    requires forall c :: 0 <= c < |Run(Fresh(clients), actions).clients| ==> Run(Fresh(clients), actions).clients[c].Idle?
    ensures var s := Run(Fresh(clients), actions);
            s.counters.hits + s.counters.misses == s.gets && s.counters.writes == s.puts
  {
    SumConstant(Map(Reading, Fresh(clients).clients), 0);
    SumConstant(Map(Writing, Fresh(clients).clients), 0);
    RunTallied(Fresh(clients), actions);
    var s := Run(Fresh(clients), actions);
    SumConstant(Map(Reading, s.clients), 0);
    SumConstant(Map(Writing, s.clients), 0);
  }

  // -- one lookup alone is the repository's lookup -----------------------------------

  /** The steps of an undisturbed lookup. */
  function LookupSteps(s: Layer, c: nat, key: string, now: int): seq<Action> {
    if Corrupt(s.table, key) then [Select(c, key, now), Decide(c), Delete(c), CountMiss(c)]
    else [Select(c, key, now), Decide(c)]
  }

  /** The state in which an undisturbed lookup has decided: served, missed, or about to evict. */
  function Decided(s: Layer, c: nat, key: string, now: int): Layer
    requires c < |s.clients|
  {
    var started := s.(gets := s.gets + 1);
    if Corrupt(s.table, key) then At(started, c, Evicting(key, |s.log|))
    else match Served(s.table, key, now)
         case Some(payload) => started.(counters := s.counters.(hits := s.counters.hits + 1),
                                        log := s.log + [HitServed(key, payload, now, |s.log|)])
         case None => Missed(started)
  }

  lemma SelectAndDecide(s: Layer, c: nat, key: string, now: int)
    requires c < |s.clients| && s.clients[c].Idle?
    ensures Step(Step(s, Select(c, key, now)), Decide(c)) == Decided(s, c, key, now)
  {
    var got := Step(s, Select(c, key, now)).clients[c];
    assert s.clients[c := got][c := Idle] == s.clients;
    var pending := Evicting(key, |s.log|);
    assert s.clients[c := got][c := pending] == s.clients[c := pending];
  }

  lemma EvictAndCount(s: Layer, c: nat, key: string, now: int)
    requires c < |s.clients| && s.clients[c].Idle? && Corrupt(s.table, key)
    ensures Step(Step(Decided(s, c, key, now), Delete(c)), CountMiss(c))
         == Missed(s.(gets := s.gets + 1, table := s.table - {key}))
  {
    assert s.clients[c := Evicting(key, |s.log|)][c := Evicted][c := Idle] == s.clients;
  }

  lemma LookupAlone(s: Layer, c: nat, key: string, now: int)
    requires c < |s.clients| && s.clients[c].Idle?
    ensures IsRun(s, LookupSteps(s, c, key, now))
    ensures var s' := Run(s, LookupSteps(s, c, key, now));
            && s'.table == AfterLookup(s.table, key)
            && s'.clients == s.clients
            && s'.log == s.log + match Served(s.table, key, now)
                                 case Some(payload) => [HitServed(key, payload, now, |s.log|)]
                                 case None => []
  {
    var s1, s2 := Step(s, Select(c, key, now)), Decided(s, c, key, now);
    SelectAndDecide(s, c, key, now);
    if Corrupt(s.table, key) {
      EvictAndCount(s, c, key, now);
      EvictionRun(s2, c);
      RunCons(s1, Decide(c), [Delete(c), CountMiss(c)]);
      RunCons(s, Select(c, key, now), [Decide(c)] + [Delete(c), CountMiss(c)]);
      assert [Select(c, key, now)] + ([Decide(c)] + [Delete(c), CountMiss(c)]) == LookupSteps(s, c, key, now);
    } else {
      RunCons(s1, Decide(c), []);
      RunCons(s, Select(c, key, now), [Decide(c)]);
      assert [Select(c, key, now)] + [Decide(c)] == LookupSteps(s, c, key, now);
    }
  }

  lemma EvictionRun(s: Layer, c: nat)
    requires c < |s.clients| && s.clients[c].Evicting?
    ensures IsRun(s, [Delete(c), CountMiss(c)])
    ensures Run(s, [Delete(c), CountMiss(c)]) == Step(Step(s, Delete(c)), CountMiss(c))
  {
    RunCons(Step(s, Delete(c)), CountMiss(c), []);
    RunCons(s, Delete(c), [CountMiss(c)]);
    assert [Delete(c)] + [CountMiss(c)] == [Delete(c), CountMiss(c)];
  }

  // -- two layers --------------------------------------------------------------------

  datatype Which = RawLayer | NormalizedLayer

  datatype Repository = Repository(raw: Layer, normalized: Layer)

  function On(r: Repository, w: Which): Layer {
    if w.RawLayer? then r.raw else r.normalized
  }

  predicate RepositoryRun(r: Repository, actions: seq<(Which, Action)>)
    decreases |actions|
  {
    actions == [] ||
    (Enabled(On(r, actions[0].0), actions[0].1) && RepositoryRun(RepositoryStep(r, actions[0]), actions[1..]))
  }

  function RepositoryStep(r: Repository, a: (Which, Action)): Repository
    requires Enabled(On(r, a.0), a.1)
  {
    if a.0.RawLayer? then r.(raw := Step(r.raw, a.1)) else r.(normalized := Step(r.normalized, a.1))
  }

  function RunRepository(r: Repository, actions: seq<(Which, Action)>): Repository
    requires RepositoryRun(r, actions)
    decreases |actions|
  {
    if actions == [] then r else RunRepository(RepositoryStep(r, actions[0]), actions[1..])
  }

  function OnlyOn(actions: seq<(Which, Action)>, w: Which): seq<Action> {
    if actions == [] then []
    else if actions[0].0 == w then [actions[0].1] + OnlyOn(actions[1..], w)
    else OnlyOn(actions[1..], w)
  }

  /** Erasing one layer's actions from any run changes nothing the other layer can see. */
  lemma {:induction false} LayersAreIndependent(r: Repository, actions: seq<(Which, Action)>, w: Which)
    requires RepositoryRun(r, actions)
    ensures IsRun(On(r, w), OnlyOn(actions, w))
    ensures On(RunRepository(r, actions), w) == Run(On(r, w), OnlyOn(actions, w))
    decreases |actions|
  {
    if actions != [] {
      LayersAreIndependent(RepositoryStep(r, actions[0]), actions[1..], w);
      if actions[0].0 == w {
        assert OnlyOn(actions, w)[1..] == OnlyOn(actions[1..], w);
      }
    }
  }
}
