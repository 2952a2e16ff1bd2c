/** The replay of the early-stop rule over a finished run, destination by destination. */
module Waves {
  import opened Wrappers
  import opened Seqs
  import opened StableSort
  import opened Domain
  import opened Itineraries
  import opened EarlyStop

  type Pair = (string, string)

  type FoundByTask = map<string, seq<NormalizedItinerary>>

  function PairOf(t: SearchTask): Pair { (t.request.origin, t.request.destination) }

  /** A task that left no accepted itineraries behind counts as having found none. */
  function Found(valid: FoundByTask, t: SearchTask): seq<NormalizedItinerary> {
    if t.taskId in valid then valid[t.taskId] else []
  }

  function Cents(it: NormalizedItinerary): int { it.priceEur.amount }

  // -- the cheapest fare of a pair -------------------------------------------------------

  /** Every price the first `n` tasks found for a pair, whatever their stop mode. */
  function OfferedTo(tasks: seq<SearchTask>, valid: FoundByTask, n: nat, key: Pair): seq<int>
    requires n <= |tasks|
  {
    if n == 0 then []
    else OfferedTo(tasks, valid, n - 1, key)
         + if PairOf(tasks[n - 1]) == key then Map(Cents, Found(valid, tasks[n - 1])) else []
  }

  function Offered(tasks: seq<SearchTask>, valid: FoundByTask, key: Pair): seq<int> {
    OfferedTo(tasks, valid, |tasks|, key)
  }

  function Least(s: seq<int>): (r: Option<int>)
    ensures r.None? <==> s == []
    ensures r.Some? ==> r.value in s && forall x :: x in s ==> r.value <= x
  {
    if s == [] then None
    else
      assert s == [s[0]] + s[1..];
      match Least(s[1..])
      case None => Some(s[0])
      case Some(m) => Some(if s[0] < m then s[0] else m)
  }

  lemma LeastIs(s: seq<int>, m: int)
    requires m in s && forall x :: x in s ==> m <= x
    ensures Least(s) == Some(m)
  {
    assert Least(s).value in s;
  }

  lemma LeastSnoc(s: seq<int>, x: int)
    ensures Least(s + [x]) == match Least(s) case None => Some(x) case Some(m) => Some(if x < m then x else m)
  {
    var t := s + [x];
    assert t[|s|] == x;
    match Least(s)
    case None => LeastIs(t, x);
    case Some(m) =>
      assert m in t;
      LeastIs(t, if x < m then x else m);
  }

  /** The minimum depends on which prices occur, not on their order or number. */
  lemma LeastOfMembers(s: seq<int>, t: seq<int>)
    requires forall x :: x in s <==> x in t
    ensures Least(s) == Least(t)
  {
  }

  function Get<K, V>(m: map<K, V>, k: K): Option<V> {
    if k in m then Some(m[k]) else None
  }

  /** The inner loop: lower the pair's entry to the cheapest of what one task found. */
  method LowerPrice(its: seq<NormalizedItinerary>, key: Pair, start: map<Pair, int>, ghost before: seq<int>)
    returns (prices: map<Pair, int>)
    requires Get(start, key) == Least(before)
    ensures Get(prices, key) == Least(before + Map(Cents, its))
    ensures forall k :: k != key ==> Get(prices, k) == Get(start, k)
  {
    hide Least;
    prices := start;
    assert before + Map(Cents, its[..0]) == before;
    for m := 0 to |its|
      invariant forall k :: k != key ==> Get(prices, k) == Get(start, k)
      invariant Get(prices, key) == Least(before + Map(Cents, its[..m]))
    {
      var price := its[m].priceEur.amount;
      LeastSnoc(before + Map(Cents, its[..m]), price);
      assert before + Map(Cents, its[..m + 1]) == before + Map(Cents, its[..m]) + [price];
      if key !in prices || price < prices[key] {
        prices := prices[key := price];
      }
    }
    assert its[..|its|] == its;
  }

  lemma OfferedNext(tasks: seq<SearchTask>, valid: FoundByTask, n: nat, k: Pair)
    requires n < |tasks|
    ensures OfferedTo(tasks, valid, n + 1, k)
         == if PairOf(tasks[n]) == k then OfferedTo(tasks, valid, n, k) + Map(Cents, Found(valid, tasks[n]))
            else OfferedTo(tasks, valid, n, k)
  {
  }

  /** The loop over tasks and what each found. A pair nobody priced has no entry. */
  method CheapestPrices(tasks: seq<SearchTask>, valid: FoundByTask) returns (prices: map<Pair, int>)
    ensures forall key :: Get(prices, key) == Least(Offered(tasks, valid, key))
  {
    hide Least;
    prices := map[];
    assert forall key: Pair :: Least(OfferedTo(tasks, valid, 0, key)) == None;
    for n := 0 to |tasks|
      invariant forall key :: Get(prices, key) == Least(OfferedTo(tasks, valid, n, key))
    {
      hide OfferedTo;
      var key := PairOf(tasks[n]);
      ghost var start := prices;
      prices := LowerPrice(Found(valid, tasks[n]), key, prices, OfferedTo(tasks, valid, n, key));
      forall k ensures Get(prices, k) == Least(OfferedTo(tasks, valid, n + 1, k)) {
        OfferedNext(tasks, valid, n, k);
      }
    }
  }

  ghost predicate Finds(tasks: seq<SearchTask>, valid: FoundByTask, key: Pair, price: int) {
    exists t :: t in tasks && t.request.origin == key.0 && t.request.destination == key.1
                && price in Map(Cents, Found(valid, t))
  }

  lemma {:induction false} OfferedIffFound(tasks: seq<SearchTask>, valid: FoundByTask, n: nat, key: Pair, price: int)
    requires n <= |tasks|
    ensures price in OfferedTo(tasks, valid, n, key) <==> Finds(tasks[..n], valid, key, price)
  {
    if n > 0 {
      OfferedIffFound(tasks, valid, n - 1, key, price);
      assert tasks[..n] == tasks[..n - 1] + [tasks[n - 1]];
    }
  }

  /** The price of a pair is the least one some task found, and it has none if no task found any. */
  lemma CheapestIsFound(tasks: seq<SearchTask>, valid: FoundByTask, key: Pair)
    ensures match Least(Offered(tasks, valid, key))
            case None => forall price :: !Finds(tasks, valid, key, price)
            case Some(p) => Finds(tasks, valid, key, p) && forall price :: Finds(tasks, valid, key, price) ==> p <= price
  {
    assert tasks[..|tasks|] == tasks;
    forall price ensures price in Offered(tasks, valid, key) <==> Finds(tasks, valid, key, price) {
      OfferedIffFound(tasks, valid, |tasks|, key, price);
    }
  }

  // -- the origins in priority order -------------------------------------------------------

  datatype Entry = Entry(origin: string, priority: int, wave: int)

  function EntryOf(t: SearchTask): Entry { Entry(t.request.origin, t.originPriority, t.wave) }

  function EntryOrigin(e: Entry): string { e.origin }

  predicate ByPriority(a: Entry, b: Entry) { a.priority <= b.priority }

  /** The dictionary of origins, in order of first appearance, each with its first task's priority and wave. */
  function FirstSeen(tasks: seq<SearchTask>, n: nat): (r: seq<Entry>)
    requires n <= |tasks|
  {
    if n == 0 then []
    else
      var r := FirstSeen(tasks, n - 1);
      if tasks[n - 1].request.origin in Map(EntryOrigin, r) then r else r + [EntryOf(tasks[n - 1])]
  }

  function PriorityOrder(tasks: seq<SearchTask>): seq<Entry> {
    Sort(ByPriority, FirstSeen(tasks, |tasks|))
  }

  ghost predicate Gathered(tasks: seq<SearchTask>, n: nat, order: seq<string>, seen: map<string, (int, int)>)
    requires n <= |tasks|
  {
    var f := FirstSeen(tasks, n);
    && order == Map(EntryOrigin, f)
    && (forall o :: o in seen <==> o in order)
    && (forall i :: 0 <= i < |order| ==> order[i] in seen && seen[order[i]] == (f[i].priority, f[i].wave))
  }

  lemma CollectNext(tasks: seq<SearchTask>, n: nat, order: seq<string>, seen: map<string, (int, int)>)
    requires n < |tasks| && Gathered(tasks, n, order, seen)
    ensures var t := tasks[n];
            if t.request.origin in seen then Gathered(tasks, n + 1, order, seen)
            else Gathered(tasks, n + 1, order + [t.request.origin], seen[t.request.origin := (t.originPriority, t.wave)])
  {
    var t, f := tasks[n], FirstSeen(tasks, n);
    if t.request.origin !in seen {
      assert Map(EntryOrigin, f + [EntryOf(t)]) == order + [t.request.origin];
      forall i | 0 <= i < |order| ensures order[i] != t.request.origin { assert order[i] in order; }
    }
  }

  method OriginsInPriorityOrder(tasks: seq<SearchTask>) returns (origins: seq<Entry>)
    ensures origins == PriorityOrder(tasks)
  {
    var order: seq<string> := [];
    var seen: map<string, (int, int)> := map[];
    for n := 0 to |tasks|
      invariant Gathered(tasks, n, order, seen)
    {
      var t := tasks[n];
      CollectNext(tasks, n, order, seen);
      if t.request.origin !in seen {
        seen := seen[t.request.origin := (t.originPriority, t.wave)];
        order := order + [t.request.origin];
      }
    }
    var items := seq(|order|, i requires 0 <= i < |order| && order[i] in seen =>
                       Entry(order[i], seen[order[i]].0, seen[order[i]].1));
    assert items == FirstSeen(tasks, |tasks|) by {
      forall i | 0 <= i < |order| ensures items[i] == FirstSeen(tasks, |tasks|)[i] {
        assert order[i] == FirstSeen(tasks, |tasks|)[i].origin;
      }
    }
    origins := Sort(ByPriority, items);
  }

  lemma {:induction false} FirstSeenEntries(tasks: seq<SearchTask>, n: nat)
    requires n <= |tasks|
    ensures Distinct(Map(EntryOrigin, FirstSeen(tasks, n)))
    ensures forall e :: e in FirstSeen(tasks, n) ==> exists t :: t in tasks && EntryOf(t) == e
    ensures forall i :: 0 <= i < n ==> tasks[i].request.origin in Map(EntryOrigin, FirstSeen(tasks, n))
  {
    if n > 0 {
      FirstSeenEntries(tasks, n - 1);
      var f, t := FirstSeen(tasks, n - 1), tasks[n - 1];
      assert t in tasks;
      if t.request.origin !in Map(EntryOrigin, f) {
        assert Map(EntryOrigin, f + [EntryOf(t)]) == Map(EntryOrigin, f) + [t.request.origin];
      }
    }
  }

  /** As the planner numbers them: every origin has one priority and one wave. */
  ghost predicate OneRankPerOrigin(tasks: seq<SearchTask>) {
    forall s, t :: s in tasks && t in tasks && s.request.origin == t.request.origin ==> EntryOf(s) == EntryOf(t)
  }

  /** No two origins share a priority. */
  ghost predicate PrioritiesDiffer(tasks: seq<SearchTask>) {
    forall s, t :: s in tasks && t in tasks && s.originPriority == t.originPriority
        ==> s.request.origin == t.request.origin
  }

  lemma FirstSeenMember(tasks: seq<SearchTask>, e: Entry)
    requires OneRankPerOrigin(tasks)
    ensures e in FirstSeen(tasks, |tasks|) <==> exists t :: t in tasks && EntryOf(t) == e
  {
    FirstSeenEntries(tasks, |tasks|);
    if exists t :: t in tasks && EntryOf(t) == e {
      var t :| t in tasks && EntryOf(t) == e;
      var f := FirstSeen(tasks, |tasks|);
      var i :| 0 <= i < |f| && Map(EntryOrigin, f)[i] == e.origin;
      assert f[i] in f;
    }
  }

  lemma DistinctEntries(tasks: seq<SearchTask>)
    ensures Distinct(FirstSeen(tasks, |tasks|))
  {
    FirstSeenEntries(tasks, |tasks|);
    var f := FirstSeen(tasks, |tasks|);
    forall i, j | 0 <= i < j < |f| ensures f[i] != f[j] {
      assert Map(EntryOrigin, f)[i] != Map(EntryOrigin, f)[j];
    }
  }

  lemma SameMembers<T>(s: seq<T>, t: seq<T>, x: T)
    requires multiset(s) == multiset(t)
    ensures x in s <==> x in t
  {
    assert x in multiset(s) <==> x in multiset(t);
  }

  lemma FirstSeenBag(a: seq<SearchTask>, b: seq<SearchTask>)
    requires OneRankPerOrigin(a) && multiset(a) == multiset(b)
    ensures multiset(FirstSeen(a, |a|)) == multiset(FirstSeen(b, |b|))
  {
    forall t ensures t in a <==> t in b { SameMembers(a, b, t); }
    DistinctEntries(a);
    DistinctEntries(b);
    forall e ensures e in FirstSeen(a, |a|) <==> e in FirstSeen(b, |b|) {
      FirstSeenMember(a, e);
      FirstSeenMember(b, e);
    }
    DistinctBags(FirstSeen(a, |a|), FirstSeen(b, |b|));
  }

  /** The entry of an origin is that of its first task, ... */
  lemma {:induction false} FirstSeenFirst(tasks: seq<SearchTask>, n: nat, e: Entry) returns (m: nat)
    requires n <= |tasks| && e in FirstSeen(tasks, n)
    ensures m < n && EntryOf(tasks[m]) == e
    ensures forall l :: 0 <= l < m ==> tasks[l].request.origin != e.origin
  {
    if e in FirstSeen(tasks, n - 1) {
      m := FirstSeenFirst(tasks, n - 1, e);
    } else {
      m := n - 1;
      FirstSeenEntries(tasks, n - 1);
      forall l | 0 <= l < m ensures tasks[l].request.origin != e.origin {
        assert tasks[l].request.origin in Map(EntryOrigin, FirstSeen(tasks, n - 1));
      }
    }
  }

  /** ... and the origins come by rising priority, each once, none left out. */
  lemma PriorityOrderRises(tasks: seq<SearchTask>)
    ensures var p := PriorityOrder(tasks);
            && (forall i, j :: 0 <= i < j < |p| ==> p[i].priority <= p[j].priority && p[i].origin != p[j].origin)
            && (forall t :: t in tasks ==> exists i :: 0 <= i < |p| && p[i].origin == t.request.origin)
            && (forall i :: 0 <= i < |p| ==> FromFirstTask(tasks, p[i]))
  {
    hide Sort;
    var f, p := FirstSeen(tasks, |tasks|), PriorityOrder(tasks);
    PriorityIsOrder();
    SortSorted(ByPriority, f);
    SortBag(ByPriority, f);
    FirstSeenEntries(tasks, |tasks|);
    forall i, j | 0 <= i < j < |p| ensures p[i].priority <= p[j].priority && p[i].origin != p[j].origin {
      assert ByPriority(p[i], p[j]);
      OriginsOfBag(f, p, i, j);
    }
    forall t | t in tasks ensures exists i :: 0 <= i < |p| && p[i].origin == t.request.origin {
      assert t.request.origin in Map(EntryOrigin, f);
      var i :| 0 <= i < |f| && Map(EntryOrigin, f)[i] == t.request.origin;
      SameMembers(f, p, f[i]);
    }
    forall i | 0 <= i < |p| ensures FromFirstTask(tasks, p[i]) {
      SameMembers(f, p, p[i]);
      var m := FirstSeenFirst(tasks, |tasks|, p[i]);
      assert OriginFirstAt(tasks, m, p[i]);
    }
  }

  /** The entry is that of the first task of its origin. */
  ghost predicate FromFirstTask(tasks: seq<SearchTask>, e: Entry) {
    exists m: nat :: OriginFirstAt(tasks, m, e)
  }

  predicate OriginFirstAt(tasks: seq<SearchTask>, m: nat, e: Entry) {
    && m < |tasks|
    && e.origin == tasks[m].request.origin && e.priority == tasks[m].originPriority && e.wave == tasks[m].wave
    && forall l :: 0 <= l < m ==> tasks[l].request.origin != e.origin
  }

  lemma OriginsOfBag(f: seq<Entry>, p: seq<Entry>, i: nat, j: nat)
    requires multiset(f) == multiset(p) && Distinct(Map(EntryOrigin, f)) && i < j < |p|
    ensures p[i].origin != p[j].origin
  {
    MapBag(EntryOrigin, f, p);
    if p[i].origin == p[j].origin {
      var q := Map(EntryOrigin, p);
      TwiceInBag(q, i, j);
      DistinctCount(Map(EntryOrigin, f), q[i]);
    }
  }

  lemma PriorityIsOrder()
    ensures TotalPreorder(ByPriority)
  {
  }

  /** With distinct priorities the order of origins does not depend on the order of tasks. */
  lemma PriorityOrderIgnoresTaskOrder(a: seq<SearchTask>, b: seq<SearchTask>)
    requires OneRankPerOrigin(a) && PrioritiesDiffer(a) && multiset(a) == multiset(b)
    ensures PriorityOrder(a) == PriorityOrder(b)
  {
    PriorityIsOrder();
    FirstSeenBag(a, b);
    var f := FirstSeen(a, |a|);
    forall x, y | x in f && y in f && ByPriority(x, y) && ByPriority(y, x) ensures x == y {
      FirstSeenMember(a, x);
      FirstSeenMember(a, y);
    }
    SortIgnoresArrival(ByPriority, f, FirstSeen(b, |b|));
  }

  lemma {:induction false} FirstTaskFirst(tasks: seq<SearchTask>, n: nat)
    requires 0 < n <= |tasks|
    ensures FirstSeen(tasks, n) != [] && FirstSeen(tasks, n)[0] == EntryOf(tasks[0])
  {
    if n > 1 { FirstTaskFirst(tasks, n - 1); }
  }

  /** Among the origins tied with it, the origin of the task moved to the front comes first. */
  lemma FrontLeadsItsTies(tasks: seq<SearchTask>, i: nat)
    requires i < |tasks|
    ensures multiset(ToFront(tasks, i)) == multiset(tasks)
    ensures var e, s := EntryOf(tasks[i]), Filter(Tied(ByPriority, EntryOf(tasks[i])), PriorityOrder(ToFront(tasks, i)));
            s != [] && s[0] == e
  {
    ToFrontBag(tasks, i);
    PriorityIsOrder();
    var moved := ToFront(tasks, i);
    FirstTaskFirst(moved, |moved|);
    SortStable(ByPriority, FirstSeen(moved, |moved|), EntryOf(tasks[i]));
  }

  /** Distinct priorities are exactly what makes the order of origins a function of the set of tasks. */
  lemma PriorityOrderCanonicalIff(tasks: seq<SearchTask>)
    requires OneRankPerOrigin(tasks)
    ensures PrioritiesDiffer(tasks)
       <==> forall other :: multiset(other) == multiset(tasks) ==> PriorityOrder(other) == PriorityOrder(tasks)
  {
    if PrioritiesDiffer(tasks) {
      forall other | multiset(other) == multiset(tasks) ensures PriorityOrder(other) == PriorityOrder(tasks) {
        PriorityOrderIgnoresTaskOrder(tasks, other);
      }
    } else {
      var s, t :| s in tasks && t in tasks && s.originPriority == t.originPriority
          && s.request.origin != t.request.origin;
      var i :| 0 <= i < |tasks| && tasks[i] == s;
      var j :| 0 <= j < |tasks| && tasks[j] == t;
      FrontLeadsItsTies(tasks, i);
      FrontLeadsItsTies(tasks, j);
      TiedAlike(EntryOf(s), EntryOf(t), PriorityOrder(ToFront(tasks, i)));
      assert PriorityOrder(ToFront(tasks, i)) != PriorityOrder(ToFront(tasks, j));
    }
  }

  lemma {:induction false} TiedAlike(x: Entry, y: Entry, s: seq<Entry>)
    requires x.priority == y.priority
    ensures Filter(Tied(ByPriority, x), s) == Filter(Tied(ByPriority, y), s)
  {
    if s != [] {
      TiedAlike(x, y, s[1..]);
      var h := s[0];
      assert ByPriority(x, h) == ByPriority(y, h) && ByPriority(h, x) == ByPriority(h, y);
      assert Tied(ByPriority, x)(h) == Tied(ByPriority, y)(h);
    }
  }

  // -- the replay -----------------------------------------------------------------------------

  /** The fares of one destination, in priority order. */
  function FaresOf(origins: seq<Entry>, tasks: seq<SearchTask>, valid: FoundByTask,
                   destination: string): (r: seq<OriginFare>)
    ensures |r| == |origins|
    ensures forall i :: 0 <= i < |r| ==>
              r[i] == OriginFare(origins[i].origin, origins[i].wave, Least(Offered(tasks, valid, (origins[i].origin, destination))))
  {
    seq(|origins|, i requires 0 <= i < |origins| =>
      OriginFare(origins[i].origin, origins[i].wave, Least(Offered(tasks, valid, (origins[i].origin, destination)))))
  }

  function Replayed(tasks: seq<SearchTask>, valid: FoundByTask, destination: string, threshold: real): Evaluation {
    Expected(destination, FaresOf(PriorityOrder(tasks), tasks, valid, destination), threshold)
  }

  method ReplayEarlyStop(tasks: seq<SearchTask>, valid: FoundByTask, destinations: seq<string>, threshold: real)
    returns (evaluations: map<string, Evaluation>)
    ensures forall d :: d in evaluations <==> d in destinations
    ensures forall d :: d in evaluations ==> evaluations[d] == Replayed(tasks, valid, d, threshold)
  {
    hide Offered, Expected, PriorityOrder, Least;
    var prices := CheapestPrices(tasks, valid);
    var origins := OriginsInPriorityOrder(tasks);
    evaluations := map[];
    for n := 0 to |destinations|
      invariant forall d :: d in evaluations <==> d in destinations[..n]
      invariant forall d :: d in evaluations ==> evaluations[d] == Replayed(tasks, valid, d, threshold)
    {
      var d := destinations[n];
      var fares := seq(|origins|, i requires 0 <= i < |origins| =>
                         OriginFare(origins[i].origin, origins[i].wave, Get(prices, (origins[i].origin, d))));
      assert fares == FaresOf(origins, tasks, valid, d);
      var e := Evaluate(d, fares, threshold);
      evaluations := evaluations[d := e];
    }
  }

  /** The same accepted prices per task, in any order. */
  ghost predicate SamePrices(a: FoundByTask, b: FoundByTask, tasks: seq<SearchTask>) {
    forall t :: t in tasks ==> multiset(Found(a, t)) == multiset(Found(b, t))
  }

  lemma LeastIgnoresOrder(a: seq<SearchTask>, b: seq<SearchTask>, va: FoundByTask, vb: FoundByTask, key: Pair)
    requires multiset(a) == multiset(b) && SamePrices(va, vb, a)
    ensures Least(Offered(a, va, key)) == Least(Offered(b, vb, key))
  {
    assert a[..|a|] == a && b[..|b|] == b;
    forall price ensures price in Offered(a, va, key) <==> price in Offered(b, vb, key) {
      OfferedIffFound(a, va, |a|, key, price);
      OfferedIffFound(b, vb, |b|, key, price);
      forall t ensures (t in a <==> t in b)
               && (t in a ==> (price in Map(Cents, Found(va, t)) <==> price in Map(Cents, Found(vb, t)))) {
        SameMembers(a, b, t);
        if t in a {
          MapBag(Cents, Found(va, t), Found(vb, t));
          SameMembers(Map(Cents, Found(va, t)), Map(Cents, Found(vb, t)), price);
        }
      }
    }
    LeastOfMembers(Offered(a, va, key), Offered(b, vb, key));
  }

  /** The replay is a function of the plan and of what each task found, never of the order of execution. */
  lemma ReplayIgnoresExecutionOrder(a: seq<SearchTask>, b: seq<SearchTask>, va: FoundByTask, vb: FoundByTask,
                                    destination: string, threshold: real)
    requires Permutation(a, b) && (forall t :: t in a ==> Permutation(Found(va, t), Found(vb, t)))
    requires OneRankPerOrigin(a) && PrioritiesDiffer(a)
    ensures Replayed(a, va, destination, threshold) == Replayed(b, vb, destination, threshold)
  {
    hide Expected;
    PermutationBag(a, b);
    forall t | t in a ensures multiset(Found(va, t)) == multiset(Found(vb, t)) {
      PermutationBag(Found(va, t), Found(vb, t));
    }
    PriorityOrderIgnoresTaskOrder(a, b);
    var origins := PriorityOrder(a);
    forall i | 0 <= i < |origins|
      ensures FaresOf(origins, a, va, destination)[i] == FaresOf(origins, b, vb, destination)[i]
    {
      LeastIgnoresOrder(a, b, va, vb, (origins[i].origin, destination));
    }
    assert FaresOf(origins, a, va, destination) == FaresOf(origins, b, vb, destination);
  }

  lemma {:induction false} PricedComesFrom(fares: seq<OriginFare>, n: nat, x: PricedFare)
    requires n <= |fares|
    ensures x in PricedTo(fares, n) <==> exists i :: 0 <= i < n && fares[i] == OriginFare(x.origin, x.wave, Some(x.price))
  {
    if n > 0 { PricedComesFrom(fares, n - 1, x); }
  }

  /** Every fare the rule compares is one some task really found for that origin
      and destination, at that pair's least price: absence is never a price. */
  lemma ComparedFaresAreReal(tasks: seq<SearchTask>, valid: FoundByTask, destination: string, x: PricedFare)
    requires x in Priced(FaresOf(PriorityOrder(tasks), tasks, valid, destination))
    ensures Finds(tasks, valid, (x.origin, destination), x.price)
    ensures forall price :: Finds(tasks, valid, (x.origin, destination), price) ==> x.price <= price
  {
    var fares := FaresOf(PriorityOrder(tasks), tasks, valid, destination);
    PricedComesFrom(fares, |fares|, x);
    CheapestIsFound(tasks, valid, (x.origin, destination));
  }
}
