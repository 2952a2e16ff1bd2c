/** Which of several equally cheap offers survives, and when that depends on the order of arrival. */
module Survivors {
  import opened Seqs
  import opened Domain
  import opened Itineraries
  import opened Dedup

  /** An itinerary as one of `n` of its shape, without the references and fares recorded on it. */
  function Bare(it: NormalizedItinerary, n: nat): NormalizedItinerary {
    it.(duplicateCount := n, alsoOfferedBy := [], fareOptions := [])
  }

  /** What is read off an itinerary does not include those references and fares. */
  ghost predicate Blind<T(!new)>(content: NormalizedItinerary -> T) {
    forall it {:trigger Bare(it, it.duplicateCount)} :: content(it) == content(Bare(it, it.duplicateCount))
  }

  /** No other member of the group is cheaper. */
  ghost predicate Minimal(group: seq<NormalizedItinerary>, x: NormalizedItinerary) {
    x in group && forall y :: y in group ==> !Cheaper(y, x)
  }

  /** In every shape class, the members no other one is cheaper than agree on their content. */
  ghost predicate TiesAgree<T(!new)>(content: NormalizedItinerary -> T, xs: seq<NormalizedItinerary>) {
    forall k, x, y :: Minimal(Class(xs, k), x) && Minimal(Class(xs, k), y) ==>
      content(Bare(x, |Class(xs, k)|)) == content(Bare(y, |Class(xs, k)|))
  }

  lemma SurvivorIsMinimal(group: seq<NormalizedItinerary>)
    requires group != []
    ensures Minimal(group, group[SurvivorIndex(group)])
  {
  }

  /** A minimal member that arrives first survives. */
  lemma FirstMinimalSurvives(group: seq<NormalizedItinerary>)
    requires group != [] && Minimal(group, group[0])
    ensures SurvivorIndex(group) == 0
  {
    var i := SurvivorIndex(group);
    assert group[i] in group;
  }

  lemma SurvivorContent<T(!new)>(content: NormalizedItinerary -> T, group: seq<NormalizedItinerary>)
    requires group != [] && Blind(content)
    ensures content(Collapse(group)) == content(Bare(group[SurvivorIndex(group)], |group|))
  {
    var c := Collapse(group);
    assert Bare(c, c.duplicateCount) == Bare(group[SurvivorIndex(group)], |group|);
  }

  lemma ClassBag(xs: seq<NormalizedItinerary>, ys: seq<NormalizedItinerary>, k: nat)
    requires multiset(xs) == multiset(ys)
    ensures multiset(Class(xs, k)) == multiset(Class(ys, k))
  {
    forall x ensures multiset(Class(xs, k))[x] == multiset(Class(ys, k))[x] {
      FilterBag(OfShape(k), xs, x);
      FilterBag(OfShape(k), ys, x);
    }
  }

  lemma KeysBag(xs: seq<NormalizedItinerary>, ys: seq<NormalizedItinerary>)
    requires multiset(xs) == multiset(ys)
    ensures multiset(ShapeKeys(xs)) == multiset(ShapeKeys(ys))
  {
    forall k ensures multiset(ShapeKeys(xs))[k] == multiset(ShapeKeys(ys))[k] {
      KeyHasClass(xs, k);
      KeyHasClass(ys, k);
      ClassBag(xs, ys, k);
      assert Class(xs, k) == [] <==> Class(ys, k) == [] by {
        BagsSameSize(Class(xs, k), Class(ys, k));
      }
      DistinctCount(ShapeKeys(xs), k);
      DistinctCount(ShapeKeys(ys), k);
    }
  }

  lemma MinimalOfBag(g: seq<NormalizedItinerary>, h: seq<NormalizedItinerary>, x: NormalizedItinerary)
    requires multiset(g) == multiset(h)
    ensures Minimal(g, x) <==> Minimal(h, x)
  {
    forall y ensures y in g <==> y in h { assert y in multiset(g) <==> y in multiset(h); }
  }

  /** The content of the survivor of one class; `spare` stands in for an empty one. */
  function ClassContent<T>(content: NormalizedItinerary -> T, xs: seq<NormalizedItinerary>,
                           spare: NormalizedItinerary): nat -> T {
    (k: nat) => content(if Class(xs, k) == [] then spare else Collapse(Class(xs, k)))
  }

  lemma ContentsByClass<T>(content: NormalizedItinerary -> T, xs: seq<NormalizedItinerary>, spare: NormalizedItinerary)
    ensures Map(content, Deduplicated(xs)) == Map(ClassContent(content, xs, spare), ShapeKeys(xs))
  {
    hide Collapse, Class;
  }

  lemma ClassContentOf<T(!new)>(content: NormalizedItinerary -> T, xs: seq<NormalizedItinerary>,
                                spare: NormalizedItinerary, k: nat)
    requires Blind(content) && Class(xs, k) != []
    ensures ClassContent(content, xs, spare)(k)
         == content(Bare(Class(xs, k)[SurvivorIndex(Class(xs, k))], |Class(xs, k)|))
  {
    hide Collapse, Class, Blind;
    SurvivorContent(content, Class(xs, k));
  }

  /** Agreeing ties fix the survivors' contents, whatever the order of arrival. */
  lemma AgreementFixesContents<T(!new)>(content: NormalizedItinerary -> T, xs: seq<NormalizedItinerary>,
                                        ys: seq<NormalizedItinerary>)
    requires Blind(content) && TiesAgree(content, xs) && multiset(xs) == multiset(ys)
    ensures multiset(Map(content, Deduplicated(xs))) == multiset(Map(content, Deduplicated(ys)))
  {
    hide Collapse, Blind, Minimal, ClassContent;
    BagsSameSize(xs, ys);
    if xs == [] {
      assert ys == [];
    } else {
      var f, g := ClassContent(content, xs, xs[0]), ClassContent(content, ys, xs[0]);
      ContentsByClass(content, xs, xs[0]);
      ContentsByClass(content, ys, xs[0]);
      forall k ensures f(k) == g(k) { SameClassContent(content, xs, ys, xs[0], k); }
      assert Map(g, ShapeKeys(ys)) == Map(f, ShapeKeys(ys));
      KeysBag(xs, ys);
      MapBag(f, ShapeKeys(xs), ShapeKeys(ys));
    }
  }

  lemma SameClassContent<T(!new)>(content: NormalizedItinerary -> T, xs: seq<NormalizedItinerary>,
                                  ys: seq<NormalizedItinerary>, spare: NormalizedItinerary, k: nat)
    requires Blind(content) && TiesAgree(content, xs) && multiset(xs) == multiset(ys)
    ensures ClassContent(content, xs, spare)(k) == ClassContent(content, ys, spare)(k)
  {
    hide Collapse, Blind, Minimal, Class;
    var g, h := Class(xs, k), Class(ys, k);
    ClassBag(xs, ys, k);
    BagsSameSize(g, h);
    if g != [] {
      ClassContentOf(content, xs, spare, k);
      ClassContentOf(content, ys, spare, k);
      SurvivorIsMinimal(g);
      SurvivorIsMinimal(h);
      MinimalOfBag(g, h, h[SurvivorIndex(h)]);
    }
  }

  /** Moving an itinerary to the front moves it to the front of its own class, and no other. */
  lemma ClassOfFront(xs: seq<NormalizedItinerary>, i: nat, k: nat)
    requires i < |xs|
    ensures xs[i].shapeKey != k ==> Class(ToFront(xs, i), k) == Class(xs, k)
    ensures xs[i].shapeKey == k ==> Class(ToFront(xs, i), k) != [] && Class(ToFront(xs, i), k)[0] == xs[i]
  {
    var p := OfShape(k);
    assert ([xs[i]] + Drop(xs, i))[1..] == Drop(xs, i);
    FilterConcat(p, xs[..i], xs[i + 1..]);
    FilterConcat(p, xs[..i], [xs[i]]);
    FilterConcat(p, xs[..i] + [xs[i]], xs[i + 1..]);
    assert xs == xs[..i] + [xs[i]] + xs[i + 1..];
  }

  /** With a minimal itinerary at the front, its class's content is its own. */
  lemma FrontContent<T(!new)>(content: NormalizedItinerary -> T, xs: seq<NormalizedItinerary>, i: nat,
                              spare: NormalizedItinerary)
    requires Blind(content) && i < |xs| && Minimal(Class(xs, xs[i].shapeKey), xs[i])
    ensures var k := xs[i].shapeKey;
            && k in ShapeKeys(ToFront(xs, i))
            && ClassContent(content, ToFront(xs, i), spare)(k) == content(Bare(xs[i], |Class(xs, k)|))
  {
    hide Collapse, Blind, Minimal, Class;
    var k, ys := xs[i].shapeKey, ToFront(xs, i);
    ToFrontBag(xs, i);
    ClassOfFront(xs, i, k);
    ClassBag(xs, ys, k);
    BagsSameSize(Class(xs, k), Class(ys, k));
    MinimalOfBag(Class(xs, k), Class(ys, k), xs[i]);
    FirstMinimalSurvives(Class(ys, k));
    ClassContentOf(content, ys, spare, k);
    KeyHasClass(ys, k);
  }

  /** Two minimal members of one class that differ in content: the one moved to the front shows. */
  lemma DisagreementShows<T(!new)>(content: NormalizedItinerary -> T, xs: seq<NormalizedItinerary>, i: nat, j: nat)
    requires Blind(content) && i < |xs| && j < |xs| && xs[i].shapeKey == xs[j].shapeKey
    requires Minimal(Class(xs, xs[i].shapeKey), xs[i]) && Minimal(Class(xs, xs[j].shapeKey), xs[j])
    requires var n := |Class(xs, xs[i].shapeKey)|; content(Bare(xs[i], n)) != content(Bare(xs[j], n))
    ensures multiset(Map(content, Deduplicated(ToFront(xs, i)))) != multiset(Map(content, Deduplicated(ToFront(xs, j))))
  {
    hide Collapse, Blind, Minimal, Class, ClassContent, ToFront, Deduplicated;
    var k, a, b := xs[i].shapeKey, ToFront(xs, i), ToFront(xs, j);
    var f, g := ClassContent(content, a, xs[0]), ClassContent(content, b, xs[0]);
    ToFrontBag(xs, i);
    ToFrontBag(xs, j);
    KeysBag(a, b);
    ContentsByClass(content, a, xs[0]);
    ContentsByClass(content, b, xs[0]);
    FrontContent(content, xs, i, xs[0]);
    FrontContent(content, xs, j, xs[0]);
    MapBag(f, ShapeKeys(a), ShapeKeys(b));
    OtherClassesStay(content, xs, i, j, xs[0]);
    var at :| 0 <= at < |ShapeKeys(b)| && ShapeKeys(b)[at] == k;
    assert Map(g, ShapeKeys(b)) == Map(f, ShapeKeys(b))[at := g(k)];
    if multiset(Map(f, ShapeKeys(b))) == multiset(Map(g, ShapeKeys(b))) {
      UpdateBag(Map(f, ShapeKeys(b)), at, g(k));
    }
  }

  lemma OtherClassesStay<T>(content: NormalizedItinerary -> T, xs: seq<NormalizedItinerary>, i: nat, j: nat,
                            spare: NormalizedItinerary)
    requires i < |xs| && j < |xs| && xs[i].shapeKey == xs[j].shapeKey
    ensures forall k :: k != xs[i].shapeKey ==>
              ClassContent(content, ToFront(xs, i), spare)(k) == ClassContent(content, ToFront(xs, j), spare)(k)
  {
    hide Collapse, Class, ToFront;
    forall k | k != xs[i].shapeKey
      ensures ClassContent(content, ToFront(xs, i), spare)(k) == ClassContent(content, ToFront(xs, j), spare)(k)
    {
      ClassOfFront(xs, i, k);
      ClassOfFront(xs, j, k);
    }
  }

  /** The survivors' contents are the same bag for every order of arrival exactly when,
      in each shape class, the cheapest members agree on theirs. */
  lemma ContentsOrderFreeIff<T(!new)>(content: NormalizedItinerary -> T, xs: seq<NormalizedItinerary>)
    requires Blind(content)
    ensures TiesAgree(content, xs)
       <==> forall ys :: multiset(ys) == multiset(xs) ==>
              multiset(Map(content, Deduplicated(ys))) == multiset(Map(content, Deduplicated(xs)))
  {
    hide Deduplicated, Blind, Class;
    if TiesAgree(content, xs) {
      forall ys | multiset(ys) == multiset(xs)
        ensures multiset(Map(content, Deduplicated(ys))) == multiset(Map(content, Deduplicated(xs)))
      {
        AgreementFixesContents(content, xs, ys);
      }
    } else {
      var i, j := Disagreement(content, xs);
      DisagreementShows(content, xs, i, j);
      ToFrontBag(xs, i);
      ToFrontBag(xs, j);
    }
  }

  lemma Disagreement<T(!new)>(content: NormalizedItinerary -> T, xs: seq<NormalizedItinerary>) returns (i: nat, j: nat)
    requires !TiesAgree(content, xs)
    ensures i < |xs| && j < |xs| && xs[i].shapeKey == xs[j].shapeKey
    ensures Minimal(Class(xs, xs[i].shapeKey), xs[i]) && Minimal(Class(xs, xs[j].shapeKey), xs[j])
    ensures var n := |Class(xs, xs[i].shapeKey)|; content(Bare(xs[i], n)) != content(Bare(xs[j], n))
  {
    hide Class;
    var k, x, y :| Minimal(Class(xs, k), x) && Minimal(Class(xs, k), y)
                   && content(Bare(x, |Class(xs, k)|)) != content(Bare(y, |Class(xs, k)|));
    ClassMember(xs, k, x);
    ClassMember(xs, k, y);
    i :| 0 <= i < |xs| && xs[i] == x;
    j :| 0 <= j < |xs| && xs[j] == y;
  }
}
