/** Collapsing itineraries of one shape into their cheapest offer. */
module Dedup {
  import opened Wrappers
  import opened Seqs
  import opened Domain
  import opened Itineraries

  // -- the choice of a survivor ------------------------------------------------------

  /** By price, then by identity. */
  predicate Cheaper(a: NormalizedItinerary, b: NormalizedItinerary) {
    a.priceEur.amount < b.priceEur.amount
    || (a.priceEur.amount == b.priceEur.amount && a.itineraryId < b.itineraryId)
  }

  /** The first index no other element is cheaper than. */
  function SurvivorIndex(group: seq<NormalizedItinerary>): (i: nat)
    requires group != []
    ensures i < |group|
    ensures forall j :: 0 <= j < |group| ==> !Cheaper(group[j], group[i])
    ensures forall j :: 0 <= j < i ==> Cheaper(group[i], group[j])
  {
    var last := |group| - 1;
    if last == 0 then 0
    else
      var i := SurvivorIndex(group[..last]);
      if Cheaper(group[last], group[i]) then last else i
  }

  /** In plain terms: no member costs less, none of the same price has a smaller identity, and of
      several equal ones the survivor arrived first. */
  lemma SurvivorIsFirstCheapest(group: seq<NormalizedItinerary>, j: nat)
    requires j < |group|
    ensures var i := SurvivorIndex(group);
            && group[i].priceEur.amount <= group[j].priceEur.amount
            && (group[i].priceEur.amount == group[j].priceEur.amount ==> group[i].itineraryId <= group[j].itineraryId)
            && (group[i].priceEur.amount == group[j].priceEur.amount && group[i].itineraryId == group[j].itineraryId
                ==> i <= j)
  {
  }

  /** The display reference of an offer that lost: its first carrier, and the
      flight number if it is a single flight. (Checked legs have a first segment.) */
  function Reference(it: NormalizedItinerary): CodeshareReference {
    var segments := AllSegments(it.legs);
    if segments == [] then CodeshareReference("", None)
    else CodeshareReference(segments[0].marketingCarrier,
                       if |segments| == 1 then Some(segments[0].flightNumber) else None)
  }

  function PriceOf(it: NormalizedItinerary): Money { it.priceEur }

  function Collapse(group: seq<NormalizedItinerary>): NormalizedItinerary
    requires group != []
  {
    var i := SurvivorIndex(group);
    var others := Drop(group, i);
    group[i].(duplicateCount := |group|,
              alsoOfferedBy := Map(Reference, others),
              fareOptions := [PriceOf(group[i])] + Map(PriceOf, others))
  }

  // -- the grouping ---------------------------------------------------------------------

  /** The distinct shape keys, in order of first appearance. */
  function ShapeKeys(xs: seq<NormalizedItinerary>): (r: seq<nat>)
    ensures Distinct(r)
  {
    if xs == [] then []
    else
      var last := xs[|xs| - 1].shapeKey;
      var r := ShapeKeys(xs[..|xs| - 1]);
      if last in r then r else r + [last]
  }

  function OfShape(k: nat): NormalizedItinerary -> bool {
    (it: NormalizedItinerary) => it.shapeKey == k
  }

  function Class(xs: seq<NormalizedItinerary>, k: nat): seq<NormalizedItinerary> {
    Filter(OfShape(k), xs)
  }

  /** A key is listed exactly when its class is inhabited. */
  lemma {:induction false} KeyHasClass(xs: seq<NormalizedItinerary>, k: nat)
    ensures k in ShapeKeys(xs) <==> Class(xs, k) != []
    decreases |xs|
  {
    if xs != [] {
      var init, x := xs[..|xs| - 1], xs[|xs| - 1];
      assert xs == init + [x];
      KeyHasClass(init, k);
      ClassSnoc(init, x, k);
    }
  }

  lemma ClassMember(xs: seq<NormalizedItinerary>, k: nat, x: NormalizedItinerary)
    ensures x in Class(xs, k) <==> x in xs && x.shapeKey == k
  {
    FilterMember(OfShape(k), xs, x);
  }

  lemma KeyPresent(xs: seq<NormalizedItinerary>, n: nat)
    requires n < |xs|
    ensures xs[n].shapeKey in ShapeKeys(xs)
  {
    ClassMember(xs, xs[n].shapeKey, xs[n]);
    KeyHasClass(xs, xs[n].shapeKey);
  }

  lemma KeyWitness(xs: seq<NormalizedItinerary>, k: nat) returns (n: nat)
    requires k in ShapeKeys(xs)
    ensures n < |xs| && xs[n].shapeKey == k
  {
    KeyHasClass(xs, k);
    var x := Class(xs, k)[0];
    ClassMember(xs, k, x);
    n :| 0 <= n < |xs| && xs[n] == x;
  }

  function Survivors(xs: seq<NormalizedItinerary>, keys: seq<nat>): (r: seq<NormalizedItinerary>)
    requires forall k :: k in keys ==> Class(xs, k) != []
    ensures |r| == |keys|
    ensures forall i :: 0 <= i < |keys| ==> r[i] == Collapse(Class(xs, keys[i]))
  {
    seq(|keys|, i requires 0 <= i < |keys| => assert keys[i] in keys; Collapse(Class(xs, keys[i])))
  }

  /** One survivor per shape, in order of first appearance. */
  function Deduplicated(xs: seq<NormalizedItinerary>): (r: seq<NormalizedItinerary>)
    ensures |r| == |ShapeKeys(xs)|
    ensures forall i :: 0 <= i < |r| ==> Class(xs, ShapeKeys(xs)[i]) != [] && r[i] == Collapse(Class(xs, ShapeKeys(xs)[i]))
  {
    forall k | k in ShapeKeys(xs) ensures Class(xs, k) != [] { KeyHasClass(xs, k); }
    Survivors(xs, ShapeKeys(xs))
  }

  lemma ClassSnoc(xs: seq<NormalizedItinerary>, x: NormalizedItinerary, k: nat)
    ensures Class(xs + [x], k) == if x.shapeKey == k then Class(xs, k) + [x] else Class(xs, k)
  {
    FilterConcat(OfShape(k), xs, [x]);
  }

  lemma ClassesSnoc(xs: seq<NormalizedItinerary>, x: NormalizedItinerary)
    ensures forall k :: Class(xs + [x], k) == if x.shapeKey == k then Class(xs, k) + [x] else Class(xs, k)
  {
    forall k ensures Class(xs + [x], k) == if x.shapeKey == k then Class(xs, k) + [x] else Class(xs, k) {
      ClassSnoc(xs, x, k);
    }
  }

  ghost predicate Grouped(xs: seq<NormalizedItinerary>, order: seq<nat>, groups: map<nat, seq<NormalizedItinerary>>) {
    && order == ShapeKeys(xs)
    && (forall k :: k in groups <==> k in order)
    && (forall k :: k in groups ==> groups[k] == Class(xs, k))
  }

  lemma GroupedSnoc(xs: seq<NormalizedItinerary>, x: NormalizedItinerary, order: seq<nat>, groups: map<nat,
                    seq<NormalizedItinerary>>)
    requires Grouped(xs, order, groups)
    ensures x.shapeKey in groups ==>
              Grouped(xs + [x], order, groups[x.shapeKey := groups[x.shapeKey] + [x]])
    ensures x.shapeKey !in groups ==>
              Grouped(xs + [x], order + [x.shapeKey], groups[x.shapeKey := [x]])
  {
    ClassesSnoc(xs, x);
    assert (xs + [x])[..|xs|] == xs;
    if x.shapeKey !in groups {
      KeyHasClass(xs, x.shapeKey);
    }
  }

  /** The first loop: an insertion-ordered dictionary from shape to arrivals. */
  method GroupByShape(xs: seq<NormalizedItinerary>) returns (order: seq<nat>, groups: map<nat,
                      seq<NormalizedItinerary>>)
    ensures Grouped(xs, order, groups)
  {
    order, groups := [], map[];
    for i := 0 to |xs|
      invariant Grouped(xs[..i], order, groups)
    {
      var key := xs[i].shapeKey;
      GroupedSnoc(xs[..i], xs[i], order, groups);
      assert xs[..i + 1] == xs[..i] + [xs[i]];
      if key in groups {
        groups := groups[key := groups[key] + [xs[i]]];
      } else {
        groups := groups[key := [xs[i]]];
        order := order + [key];
      }
    }
    assert xs[..|xs|] == xs;
  }

  lemma NextSurvivor(xs: seq<NormalizedItinerary>, order: seq<nat>, groups: map<nat, seq<NormalizedItinerary>>, n: nat)
    requires Grouped(xs, order, groups) && n < |order|
    ensures order[n] in groups && groups[order[n]] != []
    ensures Deduplicated(xs)[..n + 1] == Deduplicated(xs)[..n] + [Collapse(groups[order[n]])]
    ensures Sum(Sizes(xs, order[..n + 1])) == Sum(Sizes(xs, order[..n])) + |groups[order[n]]|
  {
    hide Collapse, Class, Sizes;
    assert order[n] in order;
    KeyHasClass(xs, order[n]);
    assert Deduplicated(xs)[n] == Collapse(groups[order[n]]);
    SizesSnoc(xs, order, n);
  }

  /** The whole deduplicator: group, then collapse each group. */
  method Deduplicate(xs: seq<NormalizedItinerary>) returns (survivors: seq<NormalizedItinerary>, totalDuplicates: int)
    ensures survivors == Deduplicated(xs)
    ensures totalDuplicates == |xs| - |survivors|
  {
    hide Collapse, Class, Sizes;
    var order, groups := GroupByShape(xs);
    survivors, totalDuplicates := [], 0;
    assert order[..0] == [] && Sizes(xs, []) == [];
    for n := 0 to |order|
      invariant survivors == Deduplicated(xs)[..n]
      invariant totalDuplicates == Sum(Sizes(xs, order[..n])) - n
    {
      NextSurvivor(xs, order, groups, n);
      var group := groups[order[n]];
      survivors := survivors + [Collapse(group)];
      totalDuplicates := totalDuplicates + |group| - 1;
    }
    assert order[..|order|] == order;
    ClassSizes(xs);
  }

  // -- a partition that conserves --------------------------------------------------------

  function Sizes(xs: seq<NormalizedItinerary>, keys: seq<nat>): (r: seq<int>)
    ensures |r| == |keys|
  {
    Map((k: nat) => |Class(xs, k)|, keys)
  }

  lemma SizesSnoc(xs: seq<NormalizedItinerary>, keys: seq<nat>, n: nat)
    requires n < |keys|
    ensures Sum(Sizes(xs, keys[..n + 1])) == Sum(Sizes(xs, keys[..n])) + |Class(xs, keys[n])|
  {
    assert Sizes(xs, keys[..n + 1]) == Sizes(xs, keys[..n]) + [|Class(xs, keys[n])|];
    SumConcat(Sizes(xs, keys[..n]), [|Class(xs, keys[n])|]);
  }

  lemma SizesGrow(init: seq<NormalizedItinerary>, x: NormalizedItinerary, keys: seq<nat>)
    requires Distinct(keys) && x.shapeKey in keys
    ensures Sum(Sizes(init + [x], keys)) == Sum(Sizes(init, keys)) + 1
  {
    hide Class;
    ClassesSnoc(init, x);
    var before, after := Sizes(init, keys), Sizes(init + [x], keys);
    var j :| 0 <= j < |keys| && keys[j] == x.shapeKey;
    assert after == before[j := before[j] + 1];
    SumUpdate(before, j, before[j] + 1);
  }

  lemma SizesExtend(init: seq<NormalizedItinerary>, x: NormalizedItinerary, keys: seq<nat>)
    requires x.shapeKey !in keys && Class(init, x.shapeKey) == []
    ensures Sum(Sizes(init + [x], keys + [x.shapeKey])) == Sum(Sizes(init, keys)) + 1
  {
    hide Class;
    ClassesSnoc(init, x);
    var before, after := Sizes(init, keys), Sizes(init + [x], keys + [x.shapeKey]);
    forall i | 0 <= i < |keys| ensures keys[i] != x.shapeKey { assert keys[i] in keys; }
    assert after == before + [1];
    SumConcat(before, [1]);
  }

  /** The classes together hold every itinerary once. */
  lemma {:induction false} ClassSizes(xs: seq<NormalizedItinerary>)
    ensures Sum(Sizes(xs, ShapeKeys(xs))) == |xs|
    decreases |xs|
  {
    if xs != [] {
      var n := |xs| - 1;
      var init, x := xs[..n], xs[n];
      assert xs == init + [x];
      ClassSizes(init);
      ClassesSnoc(init, x);
      var keys := ShapeKeys(init);
      assert ShapeKeys(xs) == if x.shapeKey in keys then keys else keys + [x.shapeKey];
      if x.shapeKey in keys {
        SizesGrow(init, x, keys);
      } else {
        KeyHasClass(init, x.shapeKey);
        SizesExtend(init, x, keys);
      }
    }
  }

  lemma SurvivorPrice(it: NormalizedItinerary)
    ensures PriceOf(it) == it.priceEur
  {
  }

  /** The prices of a class, survivor first: nothing is dropped from the fare list. */
  lemma CollapseKeeps(group: seq<NormalizedItinerary>)
    requires group != []
    ensures var s := Collapse(group);
            && s.duplicateCount == |group| == |s.fareOptions| == |s.alsoOfferedBy| + 1
            && multiset(s.fareOptions) == multiset(Map(PriceOf, group))
            && s.fareOptions[0] == s.priceEur
  {
    hide SurvivorIndex, PriceOf, Reference;
    var i := SurvivorIndex(group);
    MapDropBag(PriceOf, group, i);
    var s := Collapse(group);
    assert s.fareOptions == [PriceOf(group[i])] + Map(PriceOf, Drop(group, i));
    assert PriceOf(group[i]) == s.priceEur by { SurvivorPrice(group[i]); }
  }

  /** Every other offer of the class is listed, in order of arrival, with its own price, the carrier of its first
      flight, and the number of that flight if it is the only one. */
  lemma OthersAreListed(group: seq<NormalizedItinerary>, k: nat)
    requires k + 1 < |group|
    ensures var s, i := Collapse(group), SurvivorIndex(group);
            var other := if k < i then group[k] else group[k + 1];
            var flights := AllSegments(other.legs);
            && k + 1 < |s.fareOptions| && s.fareOptions[k + 1] == other.priceEur && k < |s.alsoOfferedBy|
            && (flights != [] ==> s.alsoOfferedBy[k].marketingCarrier == flights[0].marketingCarrier)
            && (|flights| == 1 ==> s.alsoOfferedBy[k].flightNumber == Some(flights[0].flightNumber))
            && (|flights| > 1 ==> s.alsoOfferedBy[k].flightNumber == None)
  {
    hide AllSegments;
  }

  /** Deduplication as a whole: one survivor per shape, in order of first
      appearance, each the cheapest of its shape, and every offer accounted for. */
  lemma DedupPartitions(xs: seq<NormalizedItinerary>)
    ensures var out := Deduplicated(xs);
            && Map((it: NormalizedItinerary) => it.shapeKey, out) == ShapeKeys(xs)
            && Sum(Map((it: NormalizedItinerary) => it.duplicateCount, out)) == |xs|
            && forall i :: 0 <= i < |out| ==>
                 && |out[i].fareOptions| == out[i].duplicateCount == |out[i].alsoOfferedBy| + 1
                 && multiset(out[i].fareOptions) == multiset(Map(PriceOf, Class(xs, out[i].shapeKey)))
                 && forall x :: x in xs && x.shapeKey == out[i].shapeKey ==>
                      out[i].priceEur.amount < x.priceEur.amount
                      || (out[i].priceEur.amount == x.priceEur.amount && out[i].itineraryId <= x.itineraryId)
  {
    var out, keys := Deduplicated(xs), ShapeKeys(xs);
    forall i | 0 <= i < |out|
      ensures out[i].shapeKey == keys[i]
      ensures out[i].duplicateCount == |Class(xs, keys[i])|
      ensures |out[i].fareOptions| == out[i].duplicateCount == |out[i].alsoOfferedBy| + 1
      ensures multiset(out[i].fareOptions) == multiset(Map(PriceOf, Class(xs, keys[i])))
      ensures forall x :: x in xs && x.shapeKey == keys[i] ==>
                out[i].priceEur.amount < x.priceEur.amount
                || (out[i].priceEur.amount == x.priceEur.amount && out[i].itineraryId <= x.itineraryId)
    {
      var group := Class(xs, keys[i]);
      forall x | x in xs && x.shapeKey == keys[i]
        ensures out[i].priceEur.amount < x.priceEur.amount
                || (out[i].priceEur.amount == x.priceEur.amount && out[i].itineraryId <= x.itineraryId)
      {
        ClassMember(xs, keys[i], x);
        var j :| 0 <= j < |group| && group[j] == x;
        SurvivorIsFirstCheapest(group, j);
      }
      CollapseKeeps(group);
      assert group[SurvivorIndex(group)] in group;
      ClassMember(xs, keys[i], group[SurvivorIndex(group)]);
    }
    assert Map((it: NormalizedItinerary) => it.duplicateCount, out) == Sizes(xs, keys);
    ClassSizes(xs);
  }

  /** First appearance: an earlier key occurs before any itinerary of a later one. */
  lemma {:induction false} KeysByFirstAppearance(xs: seq<NormalizedItinerary>, i: nat, j: nat, n: nat)
    requires i < j < |ShapeKeys(xs)| && n < |xs| && xs[n].shapeKey == ShapeKeys(xs)[j]
    ensures exists m :: 0 <= m < n && xs[m].shapeKey == ShapeKeys(xs)[i]
    decreases |xs|
  {
    var last := |xs| - 1;
    var init := xs[..last];
    if j < |ShapeKeys(init)| {
      if n < last {
        KeysByFirstAppearance(init, i, j, n);
        var m :| 0 <= m < n && init[m].shapeKey == ShapeKeys(init)[i];
        assert xs[m].shapeKey == ShapeKeys(xs)[i];
      } else {
        var m := KeyWitness(init, ShapeKeys(init)[i]);
        assert xs[m].shapeKey == ShapeKeys(xs)[i];
      }
    } else {
      assert ShapeKeys(xs)[j] == xs[last].shapeKey && xs[last].shapeKey !in ShapeKeys(init);
      if n < last {
        KeyPresent(init, n);
        assert false;
      }
      var m := KeyWitness(init, ShapeKeys(init)[i]);
      assert xs[m].shapeKey == ShapeKeys(xs)[i];
    }
  }

  // -- running it twice ------------------------------------------------------------------

  function Forgetful(it: NormalizedItinerary): NormalizedItinerary {
    it.(duplicateCount := 1, alsoOfferedBy := [], fareOptions := [it.priceEur])
  }

  lemma {:induction false} KeysOfDistinct(xs: seq<NormalizedItinerary>, keys: seq<nat>)
    requires |xs| == |keys| && Distinct(keys)
    requires forall i :: 0 <= i < |xs| ==> xs[i].shapeKey == keys[i]
    ensures ShapeKeys(xs) == keys
    ensures forall i :: 0 <= i < |xs| ==> Class(xs, keys[i]) == [xs[i]]
    decreases |xs|
  {
    if xs != [] {
      var n := |xs| - 1;
      var init, x := xs[..n], xs[n];
      assert xs == init + [x];
      KeysOfDistinct(init, keys[..n]);
      ClassesSnoc(init, x);
      assert x.shapeKey !in keys[..n];
      KeyHasClass(init, x.shapeKey);
      assert keys == keys[..n] + [keys[n]];
      forall i | 0 <= i < n ensures Class(xs, keys[i]) == [xs[i]] {
        assert keys[i] == keys[..n][i] && keys[i] != keys[n];
      }
    }
  }

  lemma CollapseSingle(it: NormalizedItinerary)
    ensures Collapse([it]) == Forgetful(it)
  {
    assert Drop([it], 0) == [];
  }

  /** A second pass keeps the survivors and their order, but forgets what the first one recorded. */
  lemma DedupTwiceForgets(xs: seq<NormalizedItinerary>)
    ensures Deduplicated(Deduplicated(xs)) == Map(Forgetful, Deduplicated(xs))
  {
    hide Collapse;
    var out := Deduplicated(xs);
    DedupPartitions(xs);
    var shape := (it: NormalizedItinerary) => it.shapeKey;
    forall i | 0 <= i < |out| ensures out[i].shapeKey == ShapeKeys(xs)[i] {
      assert Map(shape, out)[i] == out[i].shapeKey;
    }
    KeysOfDistinct(out, ShapeKeys(xs));
    forall i | 0 <= i < |out| ensures Deduplicated(out)[i] == Forgetful(out[i]) {
      assert Class(out, ShapeKeys(xs)[i]) == [out[i]];
      CollapseSingle(out[i]);
    }
  }
}
