/** Sums, filters and permutations of sequences. */
module Seqs {
  import opened Wrappers

  function Sum(s: seq<int>): int {
    if s == [] then 0 else s[0] + Sum(s[1..])
  }

  lemma {:induction false} SumUpdate(s: seq<int>, i: nat, v: int)
    requires i < |s|
    ensures Sum(s[i := v]) == Sum(s) - s[i] + v
  {
    if i == 0 {
      assert s[i := v][1..] == s[1..];
    } else {
      assert s[i := v][1..] == s[1..][i - 1 := v];
      SumUpdate(s[1..], i - 1, v);
    }
  }

  lemma {:induction false} SumConcat(s: seq<int>, t: seq<int>)
    ensures Sum(s + t) == Sum(s) + Sum(t)
  {
    if s == [] {
      assert s + t == t;
    } else {
      assert (s + t)[1..] == s[1..] + t;
      SumConcat(s[1..], t);
    }
  }

  lemma {:induction false} SumConstant(s: seq<int>, v: int)
    requires forall i :: 0 <= i < |s| ==> s[i] == v
    ensures Sum(s) == |s| * v
  {
    if s != [] {
      SumConstant(s[1..], v);
    }
  }

  /** Pointwise domination; equal sums then force equal entries. */
  lemma {:induction false} SumMonotone(s: seq<int>, t: seq<int>)
    requires |s| == |t|
    requires forall i :: 0 <= i < |s| ==> s[i] <= t[i]
    ensures Sum(s) <= Sum(t)
    ensures Sum(s) == Sum(t) ==> s == t
  {
    if s != [] {
      SumMonotone(s[1..], t[1..]);
      if Sum(s) == Sum(t) {
        assert s == [s[0]] + s[1..] && t == [t[0]] + t[1..];
      }
    }
  }

  lemma {:induction false} SumNonNegative(s: seq<int>)
    requires forall i :: 0 <= i < |s| ==> 0 <= s[i]
    ensures 0 <= Sum(s)
    ensures forall i :: 0 <= i < |s| ==> s[i] <= Sum(s)
  {
    if s != [] {
      SumNonNegative(s[1..]);
      forall i | 0 <= i < |s| ensures s[i] <= Sum(s) {
        if i > 0 { assert s[i] == s[1..][i - 1]; }
      }
    }
  }

  function Filter<T>(p: T -> bool, s: seq<T>): seq<T> {
    if s == [] then []
    else if p(s[0]) then [s[0]] + Filter(p, s[1..])
    else Filter(p, s[1..])
  }

  lemma {:induction false} FilterMember<T>(p: T -> bool, s: seq<T>, x: T)
    ensures x in Filter(p, s) <==> x in s && p(x)
  {
    if s != [] {
      FilterMember(p, s[1..], x);
      assert s == [s[0]] + s[1..];
    }
  }

  function Map<T, U>(f: T -> U, s: seq<T>): (r: seq<U>)
    ensures |r| == |s|
    ensures forall i :: 0 <= i < |s| ==> r[i] == f(s[i])
  {
    seq(|s|, i requires 0 <= i < |s| => f(s[i]))
  }

  lemma {:induction false} FilterConcat<T>(p: T -> bool, s: seq<T>, t: seq<T>)
    ensures Filter(p, s + t) == Filter(p, s) + Filter(p, t)
  {
    if s == [] {
      assert s + t == t;
    } else {
      assert (s + t)[1..] == s[1..] + t;
      FilterConcat(p, s[1..], t);
    }
  }

  lemma {:induction false} FilterAll<T>(p: T -> bool, s: seq<T>)
    requires forall x :: x in s ==> p(x)
    ensures Filter(p, s) == s
  {
    if s != [] { FilterAll(p, s[1..]); }
  }

  /** The values of a list, or nothing if one of them is missing. */
  function AllSome<T>(s: seq<Option<T>>): (r: Option<seq<T>>)
    ensures r.Some? ==> |r.value| == |s| && forall i :: 0 <= i < |s| ==> s[i] == Some(r.value[i])
    ensures r.None? ==> None in s
  {
    if s == [] then Some([])
    else if s[0].None? then None
    else match AllSome(s[1..])
         case None => None
         case Some(rest) => Some([s[0].value] + rest)
  }

  // -- bags --------------------------------------------------------------------------

  lemma BagsSameSize<T>(s: seq<T>, t: seq<T>)
    requires multiset(s) == multiset(t)
    ensures |s| == |t|
  {
    assert |multiset(s)| == |s| && |multiset(t)| == |t|;
  }

  lemma TwiceInBag<T>(s: seq<T>, i: nat, j: nat)
    requires i < j < |s| && s[i] == s[j]
    ensures multiset(s)[s[i]] >= 2
  {
    assert s == s[..i] + [s[i]] + s[i + 1..];
    assert s[i + 1..][j - i - 1] == s[i];
    assert s[i] in multiset(s[i + 1..]);
  }

  lemma CancelOne<T>(a: multiset<T>, b: multiset<T>, x: T)
    requires a + multiset{x} == b + multiset{x}
    ensures a == b
  {
    assert a == (a + multiset{x}) - multiset{x};
    assert b == (b + multiset{x}) - multiset{x};
  }

  function Drop<T>(s: seq<T>, i: nat): seq<T>
    requires i < |s|
  {
    s[..i] + s[i + 1..]
  }

  lemma DropBag<T>(s: seq<T>, i: nat)
    requires i < |s|
    ensures multiset(s) == multiset(Drop(s, i)) + multiset{s[i]}
  {
    assert s == s[..i] + [s[i]] + s[i + 1..];
  }

  /** The element at `i` moved to the front. */
  function ToFront<T>(s: seq<T>, i: nat): (r: seq<T>)
    requires i < |s|
    ensures r != [] && r[0] == s[i]
  {
    [s[i]] + Drop(s, i)
  }

  lemma ToFrontBag<T>(s: seq<T>, i: nat)
    requires i < |s|
    ensures multiset(ToFront(s, i)) == multiset(s)
  {
    DropBag(s, i);
  }

  lemma SecondOfFront<T>(s: seq<T>, i: nat)
    requires 0 < i < |s|
    ensures |ToFront(s, i)| == |s| && ToFront(s, i)[1] == s[0]
  {
  }

  /** Replacing one element changes the bag, unless it is replaced by itself. */
  lemma UpdateBag<T>(s: seq<T>, i: nat, v: T)
    requires i < |s| && multiset(s[i := v]) == multiset(s)
    ensures s[i] == v
  {
    assert Drop(s[i := v], i) == Drop(s, i);
    DropBag(s, i);
    DropBag(s[i := v], i);
    assert multiset(s[i := v])[v] == multiset(Drop(s, i))[v] + 1;
    assert multiset(s)[v] == multiset(Drop(s, i))[v] + if s[i] == v then 1 else 0;
  }

  lemma MapDropBag<T, U>(f: T -> U, s: seq<T>, i: nat)
    requires i < |s|
    ensures multiset(Map(f, s)) == multiset(Map(f, Drop(s, i))) + multiset{f(s[i])}
  {
    assert Map(f, Drop(s, i)) == Drop(Map(f, s), i);
    DropBag(Map(f, s), i);
  }

  lemma SameAfterDrop<T>(s: seq<T>, t: seq<T>) returns (i: nat)
    requires multiset(s) == multiset(t) && s != []
    ensures i < |t| && t[i] == s[0] && multiset(Drop(s, 0)) == multiset(Drop(t, i))
  {
    assert s[0] in multiset(t);
    i :| 0 <= i < |t| && t[i] == s[0];
    DropBag(s, 0);
    DropBag(t, i);
    CancelOne(multiset(Drop(s, 0)), multiset(Drop(t, i)), s[0]);
  }

  /** Equal bags have equal images. */
  lemma {:induction false} MapBag<T, U>(f: T -> U, s: seq<T>, t: seq<T>)
    requires multiset(s) == multiset(t)
    ensures multiset(Map(f, s)) == multiset(Map(f, t))
    decreases |s|
  {
    BagsSameSize(s, t);
    if s == [] {
      assert Map(f, s) == Map(f, t);
    } else {
      var i := SameAfterDrop(s, t);
      MapBag(f, Drop(s, 0), Drop(t, i));
      MapDropBag(f, s, 0);
      MapDropBag(f, t, i);
    }
  }

  /** `t` lists the elements of `s` in some order. */
  ghost predicate Permutation<T(!new)>(s: seq<T>, t: seq<T>)
    decreases |s|
  {
    if s == [] then t == []
    else exists i: nat :: i < |t| && t[i] == s[0] && Permutation(s[1..], Drop(t, i))
  }

  lemma {:induction false} PermutationBag<T(!new)>(s: seq<T>, t: seq<T>)
    ensures Permutation(s, t) <==> multiset(s) == multiset(t)
    decreases |s|
  {
    if s == [] {
      if multiset(t) == multiset(s) { BagsSameSize(s, t); }
    } else {
      assert Drop(s, 0) == s[1..];
      DropBag(s, 0);
      if Permutation(s, t) {
        var i: nat :| i < |t| && t[i] == s[0] && Permutation(s[1..], Drop(t, i));
        PermutationBag(s[1..], Drop(t, i));
        DropBag(t, i);
      }
      if multiset(s) == multiset(t) {
        var i := SameAfterDrop(s, t);
        PermutationBag(s[1..], Drop(t, i));
      }
    }
  }

  lemma {:induction false} FilterBag<T>(p: T -> bool, s: seq<T>, x: T)
    ensures multiset(Filter(p, s))[x] == if p(x) then multiset(s)[x] else 0
  {
    if s != [] {
      assert s == [s[0]] + s[1..];
      FilterBag(p, s[1..], x);
    }
  }

  /** No value occurs at two positions. */
  ghost predicate Distinct<T>(s: seq<T>) {
    forall i, j :: 0 <= i < j < |s| ==> s[i] != s[j]
  }

  lemma {:induction false} DistinctCount<T>(s: seq<T>, k: T)
    requires Distinct(s)
    ensures multiset(s)[k] == if k in s then 1 else 0
  {
    if s != [] {
      assert s == [s[0]] + s[1..];
      DistinctCount(s[1..], k);
      assert s[0] !in s[1..];
    }
  }

  /** Two lists without repetitions and with the same members are one bag. */
  lemma DistinctBags<T(!new)>(s: seq<T>, t: seq<T>)
    requires Distinct(s) && Distinct(t) && forall x :: x in s <==> x in t
    ensures multiset(s) == multiset(t)
  {
    forall x ensures multiset(s)[x] == multiset(t)[x] {
      DistinctCount(s, x);
      DistinctCount(t, x);
    }
  }
}
