/** Sorting that keeps tied elements in their order of arrival, and the laws the rankings rest on. */
module StableSort {
  import opened Seqs

  ghost predicate TotalPreorder<T(!new)>(leq: (T, T) -> bool) {
    && (forall x, y :: leq(x, y) || leq(y, x))
    && (forall x, y, z :: leq(x, y) && leq(y, z) ==> leq(x, z))
  }

  ghost predicate Sorted<T(!new)>(leq: (T, T) -> bool, s: seq<T>) {
    forall i, j :: 0 <= i < j < |s| ==> leq(s[i], s[j])
  }

  /** Before the first element that is not smaller: an earlier arrival stays earlier. */
  function Insert<T>(leq: (T, T) -> bool, x: T, s: seq<T>): (r: seq<T>)
    ensures |r| == |s| + 1
  {
    if s == [] || leq(x, s[0]) then [x] + s else [s[0]] + Insert(leq, x, s[1..])
  }

  function Sort<T>(leq: (T, T) -> bool, s: seq<T>): (r: seq<T>)
    ensures |r| == |s|
  {
    if s == [] then [] else Insert(leq, s[0], Sort(leq, s[1..]))
  }

  lemma {:induction false} InsertBag<T>(leq: (T, T) -> bool, x: T, s: seq<T>)
    ensures multiset(Insert(leq, x, s)) == multiset(s) + multiset{x}
  {
    if s != [] && !leq(x, s[0]) {
      InsertBag(leq, x, s[1..]);
      assert s == [s[0]] + s[1..];
    }
  }

  /** Sorting rearranges. */
  lemma {:induction false} SortBag<T>(leq: (T, T) -> bool, s: seq<T>)
    ensures multiset(Sort(leq, s)) == multiset(s)
  {
    if s != [] {
      SortBag(leq, s[1..]);
      InsertBag(leq, s[0], Sort(leq, s[1..]));
      assert s == [s[0]] + s[1..];
    }
  }

  lemma MemberOfSorted<T>(leq: (T, T) -> bool, s: seq<T>, x: T)
    ensures x in Sort(leq, s) <==> x in s
  {
    SortBag(leq, s);
    assert x in multiset(Sort(leq, s)) <==> x in multiset(s);
  }

  lemma {:induction false} InsertSorted<T(!new)>(leq: (T, T) -> bool, x: T, s: seq<T>)
    requires TotalPreorder(leq) && Sorted(leq, s)
    ensures Sorted(leq, Insert(leq, x, s))
  {
    if s != [] && !leq(x, s[0]) {
      InsertSorted(leq, x, s[1..]);
      InsertBag(leq, x, s[1..]);
      var r := Insert(leq, x, s[1..]);
      forall j | 0 <= j < |r| ensures leq(s[0], r[j]) {
        assert r[j] in multiset(r);
        assert r[j] == x || r[j] in s[1..];
      }
    } else if s != [] {
      forall j | 0 <= j < |s| ensures leq(x, s[j]) {
        assert leq(s[0], s[j]) || j == 0;
      }
    }
  }

  lemma {:induction false} SortSorted<T(!new)>(leq: (T, T) -> bool, s: seq<T>)
    requires TotalPreorder(leq)
    ensures Sorted(leq, Sort(leq, s))
  {
    if s != [] {
      SortSorted(leq, s[1..]);
      InsertSorted(leq, s[0], Sort(leq, s[1..]));
    }
  }

  /** Everything tied with `x`. */
  function Tied<T>(leq: (T, T) -> bool, x: T): T -> bool {
    y => leq(x, y) && leq(y, x)
  }

  /** A kept element goes in after filtering just where it would have gone before. */
  lemma {:induction false} InsertFilter<T(!new)>(leq: (T, T) -> bool, p: T -> bool, x: T, s: seq<T>)
    requires TotalPreorder(leq) && Sorted(leq, s)
    ensures Filter(p, Insert(leq, x, s)) == if p(x) then Insert(leq, x, Filter(p, s)) else Filter(p, s)
  {
    if s == [] {
    } else if leq(x, s[0]) {
      assert ([x] + s)[1..] == s;
      var f := Filter(p, s);
      if p(x) && f != [] {
        FilterMember(p, s, f[0]);
        var j :| 0 <= j < |s| && s[j] == f[0];
        assert leq(s[0], s[j]) || j == 0;
        assert leq(x, f[0]);
      }
    } else {
      InsertFilter(leq, p, x, s[1..]);
      var r := Insert(leq, x, s[1..]);
      assert ([s[0]] + r)[1..] == r;
      if p(s[0]) {
        assert ([s[0]] + Filter(p, s[1..]))[1..] == Filter(p, s[1..]);
      }
    }
  }

  /** Filtering and sorting commute. */
  lemma {:induction false} SortFilter<T(!new)>(leq: (T, T) -> bool, p: T -> bool, s: seq<T>)
    requires TotalPreorder(leq)
    ensures Filter(p, Sort(leq, s)) == Sort(leq, Filter(p, s))
  {
    if s != [] {
      SortFilter(leq, p, s[1..]);
      SortSorted(leq, s[1..]);
      InsertFilter(leq, p, s[0], Sort(leq, s[1..]));
      if p(s[0]) {
        assert ([s[0]] + Filter(p, s[1..]))[1..] == Filter(p, s[1..]);
      }
    }
  }

  lemma {:induction false} SortOfTied<T(!new)>(leq: (T, T) -> bool, s: seq<T>)
    requires forall x, y :: x in s && y in s ==> leq(x, y)
    ensures Sort(leq, s) == s
  {
    if s != [] { SortOfTied(leq, s[1..]); }
  }

  /** Stability: within every class of ties the order of arrival is kept. */
  lemma SortStable<T(!new)>(leq: (T, T) -> bool, s: seq<T>, x: T)
    requires TotalPreorder(leq)
    ensures Filter(Tied(leq, x), Sort(leq, s)) == Filter(Tied(leq, x), s)
  {
    SortFilter(leq, Tied(leq, x), s);
    SortOfClass(leq, leq, x, s);
  }

  /** A class of ties is already sorted by any order for which its members tie. */
  lemma SortOfClass<T(!new)>(leq: (T, T) -> bool, other: (T, T) -> bool, x: T, s: seq<T>)
    requires TotalPreorder(leq)
    requires forall y, z :: leq(y, z) && leq(z, y) ==> other(y, z)
    ensures Sort(other, Filter(Tied(leq, x), s)) == Filter(Tied(leq, x), s)
  {
    var f := Filter(Tied(leq, x), s);
    forall y, z | y in f && z in f ensures other(y, z) {
      FilterMember(Tied(leq, x), s, y);
      FilterMember(Tied(leq, x), s, z);
    }
    SortOfTied(other, f);
  }

  lemma TiedToItself<T(!new)>(leq: (T, T) -> bool, s: seq<T>)
    requires TotalPreorder(leq) && s != []
    ensures s[0] in Filter(Tied(leq, s[0]), s)
  {
    FilterMember(Tied(leq, s[0]), s, s[0]);
  }

  /** Sorted order and the order within ties determine the sequence. */
  lemma {:induction false} StableUnique<T(!new)>(leq: (T, T) -> bool, s: seq<T>, t: seq<T>)
    requires TotalPreorder(leq) && Sorted(leq, s) && Sorted(leq, t)
    requires forall x :: Filter(Tied(leq, x), s) == Filter(Tied(leq, x), t)
    ensures s == t
  {
    if t == [] {
      if s != [] { TiedToItself(leq, s); }
    } else if s == [] {
      TiedToItself(leq, t);
    } else {
      var x, y := s[0], t[0];
      FilterMember(Tied(leq, x), s, x);
      FilterMember(Tied(leq, x), t, x);
      FilterMember(Tied(leq, y), t, y);
      FilterMember(Tied(leq, y), s, y);
      assert leq(y, x) && leq(x, y) by {
        var i :| 0 <= i < |t| && t[i] == x;
        assert leq(t[0], t[i]) || i == 0;
        var j :| 0 <= j < |s| && s[j] == y;
        assert leq(s[0], s[j]) || j == 0;
      }
      assert Filter(Tied(leq, x), s)[0] == x && Filter(Tied(leq, x), t)[0] == y;
      forall z ensures Filter(Tied(leq, z), s[1..]) == Filter(Tied(leq, z), t[1..]) {
        var f, g := Filter(Tied(leq, z), s), Filter(Tied(leq, z), t);
        assert f == g && x == y;
        if Tied(leq, z)(x) {
          assert f[1..] == Filter(Tied(leq, z), s[1..]) && g[1..] == Filter(Tied(leq, z), t[1..]);
        }
      }
      StableUnique(leq, s[1..], t[1..]);
    }
  }

  /** A preliminary sort by a coarser key that only breaks ties already broken is invisible. */
  lemma SortAfterSort<T(!new)>(first: (T, T) -> bool, leq: (T, T) -> bool, s: seq<T>)
    requires TotalPreorder(first) && TotalPreorder(leq)
    requires forall x, y :: leq(x, y) && leq(y, x) ==> first(x, y)
    ensures Sort(leq, Sort(first, s)) == Sort(leq, s)
  {
    var a, b := Sort(leq, Sort(first, s)), Sort(leq, s);
    SortSorted(leq, Sort(first, s));
    SortSorted(leq, s);
    forall x ensures Filter(Tied(leq, x), a) == Filter(Tied(leq, x), b) {
      SortStable(leq, Sort(first, s), x);
      SortStable(leq, s, x);
      SortFilter(first, Tied(leq, x), s);
      SortOfClass(leq, first, x, s);
    }
    StableUnique(leq, a, b);
  }

  /** Two sorted arrangements of one bag whose ties are equal elements coincide. */
  lemma {:induction false} SortedBagsEqual<T(!new)>(leq: (T, T) -> bool, s: seq<T>, t: seq<T>)
    requires TotalPreorder(leq) && Sorted(leq, s) && Sorted(leq, t) && multiset(s) == multiset(t)
    requires forall x, y :: x in s && y in s && leq(x, y) && leq(y, x) ==> x == y
    ensures s == t
  {
    BagsSameSize(s, t);
    if s != [] {
      HeadIsLeast(leq, s, t);
      HeadIsLeast(leq, t, s);
      TailBags(s, t);
      SortedBagsEqual(leq, s[1..], t[1..]);
    }
  }

  lemma HeadIsLeast<T(!new)>(leq: (T, T) -> bool, s: seq<T>, t: seq<T>)
    requires TotalPreorder(leq) && Sorted(leq, s) && multiset(s) == multiset(t) && s != [] && t != []
    ensures leq(s[0], t[0]) && t[0] in s
  {
    assert t[0] in multiset(s);
    var j :| 0 <= j < |s| && s[j] == t[0];
    assert leq(s[0], s[j]) || j == 0;
  }

  lemma TailBags<T>(s: seq<T>, t: seq<T>)
    requires s != [] && t != [] && s[0] == t[0] && multiset(s) == multiset(t)
    ensures multiset(s[1..]) == multiset(t[1..])
  {
    assert s == [s[0]] + s[1..] && t == [t[0]] + t[1..];
    assert multiset(s[1..]) == multiset(s) - multiset{s[0]};
    assert multiset(t[1..]) == multiset(t) - multiset{t[0]};
  }

  /** When only equal elements tie, the sorted order does not depend on arrival. */
  lemma SortIgnoresArrival<T(!new)>(leq: (T, T) -> bool, s: seq<T>, t: seq<T>)
    requires TotalPreorder(leq) && multiset(s) == multiset(t)
    requires forall x, y :: x in s && y in s && leq(x, y) && leq(y, x) ==> x == y
    ensures Sort(leq, s) == Sort(leq, t)
  {
    SortSorted(leq, s);
    SortSorted(leq, t);
    SortBag(leq, s);
    SortBag(leq, t);
    forall x | x in Sort(leq, s) ensures x in s { MemberOfSorted(leq, s, x); }
    SortedBagsEqual(leq, Sort(leq, s), Sort(leq, t));
  }

  lemma {:induction false} InsertMap<T(!new), U(!new)>(a: (T, T) -> bool, b: (U, U) -> bool, f: T -> U, x: T, s: seq<T>)
    requires forall y, z :: a(y, z) <==> b(f(y), f(z))
    ensures Map(f, Insert(a, x, s)) == Insert(b, f(x), Map(f, s))
  {
    if s != [] && !a(x, s[0]) {
      InsertMap(a, b, f, x, s[1..]);
      assert Map(f, s)[1..] == Map(f, s[1..]);
    } else {
      assert Map(f, [x] + s) == [f(x)] + Map(f, s);
    }
  }

  /** Sorting through a view that carries the order is sorting the views. */
  lemma {:induction false} SortMap<T(!new), U(!new)>(a: (T, T) -> bool, b: (U, U) -> bool, f: T -> U, s: seq<T>)
    requires forall y, z :: a(y, z) <==> b(f(y), f(z))
    ensures Map(f, Sort(a, s)) == Sort(b, Map(f, s))
  {
    if s == [] {
      assert Map(f, s) == [];
    } else {
      SortMap(a, b, f, s[1..]);
      assert Map(f, s)[1..] == Map(f, s[1..]);
      InsertMap(a, b, f, s[0], Sort(a, s[1..]));
    }
  }

  // -- the order of strings ------------------------------------------------------------

  /** Lexicographic order by code point. */
  predicate StringLeq(a: string, b: string) {
    a == "" || (b != "" && (a[0] < b[0] || (a[0] == b[0] && StringLeq(a[1..], b[1..]))))
  }

  /** The first difference decides. */
  lemma {:induction false} FirstDifferenceDecides(a: string, b: string, n: nat)
    requires n < |a| && n < |b| && a[n] < b[n] && forall i :: 0 <= i < n ==> a[i] == b[i]
    ensures StringLeq(a, b) && !StringLeq(b, a)
  {
    if n > 0 { FirstDifferenceDecides(a[1..], b[1..], n - 1); }
  }

  /** A text comes before its continuations. */
  lemma {:induction false} PrefixFirst(a: string, b: string)
    requires a <= b
    ensures StringLeq(a, b)
  {
    if a != "" { PrefixFirst(a[1..], b[1..]); }
  }

  lemma {:induction false} StringLeqTotal(a: string, b: string)
    ensures StringLeq(a, b) || StringLeq(b, a)
    ensures StringLeq(a, b) && StringLeq(b, a) ==> a == b
  {
    if a != "" && b != "" {
      StringLeqTotal(a[1..], b[1..]);
      if a[0] == b[0] && a[1..] == b[1..] {
        assert a == [a[0]] + a[1..] && b == [b[0]] + b[1..];
      }
    }
  }

  lemma {:induction false} StringLeqTransitive(a: string, b: string, c: string)
    requires StringLeq(a, b) && StringLeq(b, c)
    ensures StringLeq(a, c)
  {
    if a != "" && a[0] == b[0] && b[0] == c[0] {
      StringLeqTransitive(a[1..], b[1..], c[1..]);
    }
  }

  lemma StringOrder()
    ensures TotalPreorder(StringLeq)
    ensures forall a, b :: StringLeq(a, b) && StringLeq(b, a) ==> a == b
  {
    forall a, b ensures (StringLeq(a, b) || StringLeq(b, a)) && (StringLeq(a, b) && StringLeq(b, a) ==> a == b) {
      StringLeqTotal(a, b);
    }
    forall a, b, c | StringLeq(a, b) && StringLeq(b, c) ensures StringLeq(a, c) {
      StringLeqTransitive(a, b, c);
    }
  }
}
