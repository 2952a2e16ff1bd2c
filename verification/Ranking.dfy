/** The global ranking, its per-destination and per-origin views, and what ties them together. */
module Ranking {
  import opened Wrappers
  import opened Seqs
  import opened StableSort
  import opened Domain
  import opened Itineraries
  import opened Scoring

  datatype ScoredItinerary = ScoredItinerary(
    itinerary: NormalizedItinerary,
    components: ScoreComponents,
    groundCost: real,
    groundTime: real,
    rankByAdjustedScore: nat,
    rankByTotalJourneyScore: nat,
    rankByPrice: nat)

  /** Whole seconds, truncated toward zero. */
  function WholeSeconds(duration: int): int {
    if duration >= 0 then duration / 1_000_000 else -((-duration) / 1_000_000)
  }

  // -- the sort keys -----------------------------------------------------------------

  /** Adjusted score, price, seconds, identity. */
  datatype TieKey = TieKey(adjusted: real, price: int, seconds: int, id: nat)

  predicate KeyLeq(a: TieKey, b: TieKey) {
    a.adjusted < b.adjusted || (a.adjusted == b.adjusted &&
    (a.price < b.price || (a.price == b.price &&
    (a.seconds < b.seconds || (a.seconds == b.seconds && a.id <= b.id)))))
  }

  predicate PriceLeq(a: TieKey, b: TieKey) {
    a.price < b.price || (a.price == b.price && a.id <= b.id)
  }

  predicate IdLeq(a: TieKey, b: TieKey) {
    a.id <= b.id
  }

  function Key(x: ScoredItinerary): TieKey {
    TieKey(x.components.Adjusted(), x.itinerary.priceEur.amount,
           WholeSeconds(TotalDuration(x.itinerary.legs)), x.itinerary.itineraryId)
  }

  lemma KeyOrders()
    ensures TotalPreorder(KeyLeq) && TotalPreorder(PriceLeq) && TotalPreorder(IdLeq)
  {
  }

  // -- the ranker ----------------------------------------------------------------------

  /** An item with the identity of its object: its place in the input. */
  datatype Tagged = Tagged(tag: nat, item: ScoredItinerary)

  function TagAll(items: seq<ScoredItinerary>): (r: seq<Tagged>)
    ensures |r| == |items|
    ensures forall i :: 0 <= i < |r| ==> r[i] == Tagged(i, items[i])
  {
    seq(|items|, i requires 0 <= i < |items| => Tagged(i, items[i]))
  }

  predicate TaggedByKey(a: Tagged, b: Tagged) { KeyLeq(Key(a.item), Key(b.item)) }
  predicate TaggedByPrice(a: Tagged, b: Tagged) { PriceLeq(Key(a.item), Key(b.item)) }
  predicate TaggedById(a: Tagged, b: Tagged) { IdLeq(Key(a.item), Key(b.item)) }

  function ByScore(items: seq<ScoredItinerary>): seq<Tagged> {
    Sort(TaggedByKey, Sort(TaggedById, TagAll(items)))
  }

  function ByPrice(items: seq<ScoredItinerary>): seq<Tagged> {
    Sort(TaggedByPrice, Sort(TaggedById, TagAll(items)))
  }

  function PositionOf(tag: nat, s: seq<Tagged>): (p: nat)
    ensures p <= |s|
    ensures p < |s| ==> s[p].tag == tag
  {
    if s == [] then 0 else if s[0].tag == tag then 0 else 1 + PositionOf(tag, s[1..])
  }

  /** The ranking of the whole input, before truncation. */
  function FullRanking(items: seq<ScoredItinerary>): (r: seq<ScoredItinerary>)
    ensures |r| == |items|
    ensures forall i :: 0 <= i < |r| ==>
              r[i] == ByScore(items)[i].item.(rankByAdjustedScore := i + 1, rankByTotalJourneyScore := i + 1,
                                              rankByPrice := 1 + PositionOf(ByScore(items)[i].tag, ByPrice(items)))
  {
    seq(|items|, i requires 0 <= i < |items| =>
      ByScore(items)[i].item.(rankByAdjustedScore := i + 1, rankByTotalJourneyScore := i + 1,
                              rankByPrice := 1 + PositionOf(ByScore(items)[i].tag, ByPrice(items))))
  }

  /** A list sliced from its start, where a negative bound counts back from the end. */
  function SliceTo<T>(s: seq<T>, n: int): seq<T> {
    if n >= 0 then (if n <= |s| then s[..n] else s)
    else if |s| + n >= 0 then s[..|s| + n] else []
  }

  function Ranked(items: seq<ScoredItinerary>, topN: int): seq<ScoredItinerary> {
    if topN <= 0 then [] else SliceTo(FullRanking(items), topN)
  }

  lemma TagsDistinct(items: seq<ScoredItinerary>, s: seq<Tagged>)
    requires multiset(s) == multiset(TagAll(items))
    ensures forall i, j :: 0 <= i < j < |s| ==> s[i].tag != s[j].tag
  {
    var t := TagAll(items);
    forall i, j | 0 <= i < j < |s| ensures s[i].tag != s[j].tag {
      if s[i].tag == s[j].tag {
        assert s[i] in multiset(t) && s[j] in multiset(t);
        var x := s[i];
        assert s[j] == x;
        TwiceInBag(s, i, j);
        OnceInTags(items, x);
      }
    }
  }

  lemma OnceInTags(items: seq<ScoredItinerary>, x: Tagged)
    ensures multiset(TagAll(items))[x] <= 1
  {
    var t := TagAll(items);
    if x in t {
      var i :| 0 <= i < |t| && t[i] == x;
      assert t == t[..i] + [t[i]] + t[i + 1..];
      assert x !in t[..i] && x !in t[i + 1..];
    }
  }

  lemma {:induction false} PositionExists(s: seq<Tagged>, x: Tagged)
    requires x in s
    ensures PositionOf(x.tag, s) < |s|
  {
    if s[0].tag != x.tag {
      PositionExists(s[1..], x);
    }
  }

  lemma RankingBags(items: seq<ScoredItinerary>)
    ensures multiset(ByScore(items)) == multiset(TagAll(items)) == multiset(ByPrice(items))
  {
    SortBag(TaggedById, TagAll(items));
    SortBag(TaggedByKey, Sort(TaggedById, TagAll(items)));
    SortBag(TaggedByPrice, Sort(TaggedById, TagAll(items)));
  }

  /** The dictionary from object identity to price rank. */
  method PriceRanks(byPrice: seq<Tagged>) returns (priceRank: map<nat, nat>)
    requires forall i, j :: 0 <= i < j < |byPrice| ==> byPrice[i].tag != byPrice[j].tag
    ensures forall i :: 0 <= i < |byPrice| ==> byPrice[i].tag in priceRank
    ensures forall i :: 0 <= i < |byPrice| ==> priceRank[byPrice[i].tag] == i + 1
  {
    priceRank := map[];
    for r := 0 to |byPrice|
      invariant forall i :: 0 <= i < r ==> byPrice[i].tag in priceRank
      invariant forall i :: 0 <= i < r ==> priceRank[byPrice[i].tag] == i + 1
    {
      priceRank := priceRank[byPrice[r].tag := r + 1];
    }
  }

  /** The ranker: presort by identity, sort twice, map each object to its price
      rank, copy the ranks onto the score order, truncate. */
  method RankItineraries(items: seq<ScoredItinerary>, topN: int) returns (result: seq<ScoredItinerary>)
    ensures result == Ranked(items, topN)
  {
    hide ByScore, ByPrice, Sort;
    var preSorted := Sort(TaggedById, TagAll(items));
    var byScore := Sort(TaggedByKey, preSorted);
    var byPrice := Sort(TaggedByPrice, preSorted);
    SortedLists(items);
    RankingBags(items);
    TagsDistinct(items, byPrice);
    var priceRank := PriceRanks(byPrice);

    var ranked: seq<ScoredItinerary> := [];
    for r := 0 to |byScore|
      invariant ranked == FullRanking(items)[..r]
    {
      var x := byScore[r];
      assert x in multiset(byScore);
      PositionExists(byPrice, x);
      ranked := ranked + [x.item.(rankByAdjustedScore := r + 1, rankByTotalJourneyScore := r + 1,
                                  rankByPrice := priceRank[x.tag])];
    }
    if topN <= 0 { return []; }
    return if topN <= |ranked| then ranked[..topN] else ranked;
  }

  lemma SortedLists(items: seq<ScoredItinerary>)
    ensures ByScore(items) == Sort(TaggedByKey, Sort(TaggedById, TagAll(items)))
    ensures ByPrice(items) == Sort(TaggedByPrice, Sort(TaggedById, TagAll(items)))
  {
  }

  // -- what the ranking is --------------------------------------------------------------

  /** An item without its rank numbers. */
  function Unranked(x: ScoredItinerary): ScoredItinerary {
    x.(rankByAdjustedScore := 0, rankByTotalJourneyScore := 0, rankByPrice := 0)
  }

  predicate ItemByKey(a: ScoredItinerary, b: ScoredItinerary) { KeyLeq(Key(a), Key(b)) }

  lemma ItemOrder()
    ensures TotalPreorder(ItemByKey)
  {
    KeyOrders();
  }

  function UntagUnranked(t: Tagged): ScoredItinerary { Unranked(t.item) }

  /** Rank numbers aside, the ranking is one stable sort of the input by the tie
      key: the presort by identity leaves no trace, for any input. */
  lemma RankingIsOneSort(items: seq<ScoredItinerary>)
    ensures Map(Unranked, FullRanking(items)) == Sort(ItemByKey, Map(Unranked, items))
  {
    KeyOrders();
    ItemOrder();
    var t := TagAll(items);
    SortAfterSort(TaggedById, TaggedByKey, t);
    SortMap(TaggedByKey, ItemByKey, UntagUnranked, t);
    assert Map(UntagUnranked, t) == Map(Unranked, items);
    assert Map(Unranked, FullRanking(items)) == Map(UntagUnranked, ByScore(items));
  }

  /** Both rank columns are honest: scores rise with position, prices rise with
      price rank, and the price ranks are a numbering of 1 to n. */
  lemma RanksAreGlobal(items: seq<ScoredItinerary>, i: nat, j: nat)
    requires i < |items| && j < |items| && i != j
    ensures var r := FullRanking(items);
            && r[i].rankByAdjustedScore == i + 1
            && 1 <= r[i].rankByPrice <= |items|
            && r[i].rankByPrice != r[j].rankByPrice
            && (i < j ==> InScoreOrder(r[i], r[j]))
            && (r[i].rankByPrice < r[j].rankByPrice ==>
                  r[i].itinerary.priceEur.amount < r[j].itinerary.priceEur.amount
                  || (r[i].itinerary.priceEur.amount == r[j].itinerary.priceEur.amount
                      && r[i].itinerary.itineraryId <= r[j].itinerary.itineraryId))
  {
    hide Sort, Key, KeyLeq, PriceLeq, FullRanking;
    KeyOrders();
    var s, p := ByScore(items), ByPrice(items);
    SortSorted(TaggedByKey, Sort(TaggedById, TagAll(items)));
    SortSorted(TaggedByPrice, Sort(TaggedById, TagAll(items)));
    RankingBags(items);
    TagsDistinct(items, s);
    RankAt(items, i);
    RankAt(items, j);
    var a, b := FullRanking(items)[i].rankByPrice - 1, FullRanking(items)[j].rankByPrice - 1;
    assert s[i].tag != s[j].tag by { assert s[if i < j then i else j].tag != s[if i < j then j else i].tag; }
    if i < j { assert TaggedByKey(s[i], s[j]); }
    if a < b { assert TaggedByPrice(p[a], p[b]); }
    KeysInFields(FullRanking(items)[i], FullRanking(items)[j]);
  }

  /** The order of the report, field by field: the sum of the four components, then the price, then
      the duration in whole seconds, then the identity, each the smaller the better. */
  predicate InScoreOrder(x: ScoredItinerary, y: ScoredItinerary) {
    var a := x.components.fare + x.components.elapsed + x.components.penalty + x.components.bonus;
    var b := y.components.fare + y.components.elapsed + y.components.penalty + y.components.bonus;
    var p, q := x.itinerary.priceEur.amount, y.itinerary.priceEur.amount;
    var s, t := WholeSeconds(TotalDuration(x.itinerary.legs)), WholeSeconds(TotalDuration(y.itinerary.legs));
    a < b || (a == b && p < q) || (a == b && p == q && s < t)
    || (a == b && p == q && s == t && x.itinerary.itineraryId <= y.itinerary.itineraryId)
  }

  lemma KeysInFields(x: ScoredItinerary, y: ScoredItinerary)
    ensures KeyLeq(Key(x), Key(y)) <==> InScoreOrder(x, y)
    ensures PriceLeq(Key(x), Key(y)) <==>
              x.itinerary.priceEur.amount < y.itinerary.priceEur.amount
              || (x.itinerary.priceEur.amount == y.itinerary.priceEur.amount
                  && x.itinerary.itineraryId <= y.itinerary.itineraryId)
  {
    hide WholeSeconds, TotalDuration;
  }

  /** Whole seconds drop the fraction, toward zero. */
  lemma SecondsTruncate(duration: int)
    ensures duration >= 0 ==> 1_000_000 * WholeSeconds(duration) <= duration < 1_000_000 * (WholeSeconds(duration) + 1)
    ensures WholeSeconds(-duration) == -WholeSeconds(duration)
  {
  }

  /** An entry's price rank finds it again in the list sorted by price. */
  lemma RankAt(items: seq<ScoredItinerary>, i: nat)
    requires i < |items|
    ensures var x, s, p := FullRanking(items)[i], ByScore(items), ByPrice(items);
            && |s| == |p| == |items| && x.rankByAdjustedScore == i + 1
            && 1 <= x.rankByPrice <= |items| && p[x.rankByPrice - 1] == s[i]
            && Key(x) == Key(s[i].item)
  {
    hide Sort, PositionOf, ByScore, ByPrice, WholeSeconds, TotalDuration;
    var s, p := ByScore(items), ByPrice(items);
    RankingBags(items);
    BagsSameSize(s, p);
    BagsSameSize(s, TagAll(items));
    assert s[i] in multiset(p) && s[i] in multiset(s);
    PositionExists(p, s[i]);
    SameTagSame(items, s[i], p[PositionOf(s[i].tag, p)]);
  }

  lemma SameTagSame(items: seq<ScoredItinerary>, x: Tagged, y: Tagged)
    requires x in multiset(TagAll(items)) && y in multiset(TagAll(items)) && x.tag == y.tag
    ensures x == y
  {
  }

  /** A bound keeps so many from the front, or, if negative, drops so many from the end. */
  lemma SliceKeeps<T>(s: seq<T>, n: int)
    ensures SliceTo(s, n) <= s
    ensures n >= |s| ==> SliceTo(s, n) == s
    ensures 0 <= n <= |s| ==> |SliceTo(s, n)| == n
    ensures -|s| <= n < 0 ==> |SliceTo(s, n)| - n == |s|
    ensures n < -|s| ==> SliceTo(s, n) == []
  {
  }

  /** A shorter report is a prefix of a longer one, with the same global ranks. */
  lemma ShorterIsPrefix(items: seq<ScoredItinerary>, k: int, m: int)
    requires k <= m
    ensures Ranked(items, k) <= Ranked(items, m) <= FullRanking(items)
    ensures k >= 1 && items != [] ==> Ranked(items, k) != []
  {
  }

  // -- the views --------------------------------------------------------------------------

  function OriginOf(x: ScoredItinerary): string { FirstOrigin(x.itinerary.legs) }

  function DestinationOf(x: ScoredItinerary): string { LastDestination(x.itinerary.legs) }

  /** The items at which `f` has value `k`. */
  function Where(f: ScoredItinerary -> string, k: string): ScoredItinerary -> bool {
    (x: ScoredItinerary) => f(x) == k
  }

  function Bound(d: string): ScoredItinerary -> bool { Where(DestinationOf, d) }

  function From(o: string): ScoredItinerary -> bool { Where(OriginOf, o) }

  /** Grouping into a dictionary of lists, each list in order of arrival. */
  ghost predicate GroupedBy(f: ScoredItinerary -> string, items: seq<ScoredItinerary>,
                            groups: map<string, seq<ScoredItinerary>>) {
    forall k {:trigger Where(f, k)} {:trigger k in groups} ::
      && (k in groups <==> Filter(Where(f, k), items) != [])
      && (k in groups ==> groups[k] == Filter(Where(f, k), items))
  }

  lemma GroupedSnoc(f: ScoredItinerary -> string, items: seq<ScoredItinerary>, x: ScoredItinerary,
                    groups: map<string, seq<ScoredItinerary>>)
    requires GroupedBy(f, items, groups)
    ensures GroupedBy(f, items + [x], groups[f(x) := (if f(x) in groups then groups[f(x)] else []) + [x]])
  {
    forall k {:trigger Where(f, k)}
      ensures Filter(Where(f, k), items + [x]) == Filter(Where(f, k), items) + if f(x) == k then [x] else []
    {
      FilterConcat(Where(f, k), items, [x]);
    }
  }

  method GroupItems(f: ScoredItinerary -> string, items: seq<ScoredItinerary>)
    returns (groups: map<string, seq<ScoredItinerary>>)
    ensures GroupedBy(f, items, groups)
  {
    groups := map[];
    for i := 0 to |items|
      invariant GroupedBy(f, items[..i], groups)
    {
      GroupedSnoc(f, items[..i], items[i], groups);
      assert items[..i + 1] == items[..i] + [items[i]];
      var k := f(items[i]);
      groups := groups[k := (if k in groups then groups[k] else []) + [items[i]]];
    }
    assert items[..|items|] == items;
  }

  /** One destination's own top list. */
  function TopFor(items: seq<ScoredItinerary>, d: string, topN: int): seq<ScoredItinerary> {
    SliceTo(Sort(ItemByKey, Filter(Bound(d), items)), topN)
  }

  method TopNByDestination(items: seq<ScoredItinerary>, topN: int)
    returns (view: map<string, seq<ScoredItinerary>>)
    ensures forall d :: d in view <==> Filter(Bound(d), items) != []
    ensures forall d :: d in view ==> view[d] == TopFor(items, d, topN)
  {
    var groups := GroupItems(DestinationOf, items);
    view := map d | d in groups :: SliceTo(Sort(ItemByKey, groups[d]), topN);
  }

  /** The first element no other element precedes: the built-in minimum by key. */
  function Best(group: seq<ScoredItinerary>): ScoredItinerary
    requires group != []
  {
    if |group| == 1 then group[0]
    else
      var rest := Best(group[1..]);
      if ItemByKey(group[0], rest) then group[0] else rest
  }

  datatype OriginSummary = OriginSummary(origin: string, best: Option<ScoredItinerary>)

  function SummaryFor(items: seq<ScoredItinerary>, o: string): OriginSummary {
    var group := Filter(From(o), items);
    OriginSummary(o, if group == [] then None else Some(Best(group)))
  }

  /** One row per requested origin, in the requested order, absent origins included. */
  method SummarizeByOrigin(items: seq<ScoredItinerary>, origins: seq<string>) returns (rows: seq<OriginSummary>)
    ensures rows == Map(o => SummaryFor(items, o), origins)
  {
    var groups := GroupItems(OriginOf, items);
    rows := [];
    for i := 0 to |origins|
      invariant rows == Map(o => SummaryFor(items, o), origins)[..i]
    {
      var o := origins[i];
      assert From(o) == Where(OriginOf, o);
      var group := if o in groups then groups[o] else [];
      if group == [] {
        rows := rows + [OriginSummary(o, None)];
      } else {
        rows := rows + [OriginSummary(o, Some(Best(group)))];
      }
    }
  }

  // -- the three views agree --------------------------------------------------------------

  lemma {:induction false} MapFilter<T, U>(f: T -> U, p: T -> bool, q: U -> bool, s: seq<T>)
    requires forall x :: x in s ==> p(x) == q(f(x))
    ensures Map(f, Filter(p, s)) == Filter(q, Map(f, s))
  {
    if s != [] {
      MapFilter(f, p, q, s[1..]);
      assert Map(f, s)[1..] == Map(f, s[1..]);
      if p(s[0]) {
        assert Map(f, [s[0]] + Filter(p, s[1..])) == [f(s[0])] + Map(f, Filter(p, s[1..]));
      }
    } else {
      assert Map(f, s) == [];
    }
  }

  lemma MapSlice<T, U>(f: T -> U, s: seq<T>, n: int)
    ensures Map(f, SliceTo(s, n)) == SliceTo(Map(f, s), n)
  {
  }

  /** Filtering the global ranking by any property the ranks do not enter is
      sorting the filtered items on their own. */
  lemma FilteredRanking(items: seq<ScoredItinerary>, f: ScoredItinerary -> string, k: string)
    requires forall x {:trigger f(x)} :: f(x) == f(Unranked(x))
    ensures Map(Unranked, Sort(ItemByKey, Filter(Where(f, k), items)))
         == Map(Unranked, Filter(Where(f, k), FullRanking(items)))
  {
    var p := Where(f, k);
    assert forall x {:trigger f(x)} :: p(x) == p(Unranked(x));
    ItemOrder();
    SortMap(ItemByKey, ItemByKey, Unranked, Filter(p, items));
    MapFilter(Unranked, p, p, items);
    SortFilter(ItemByKey, p, Map(Unranked, items));
    RankingIsOneSort(items);
    MapFilter(Unranked, p, p, FullRanking(items));
  }

  /** A destination's own top list is the head of the global ranking filtered to it, for every bound. */
  lemma DestinationViewAgrees(items: seq<ScoredItinerary>, d: string, topN: int)
    ensures Map(Unranked, TopFor(items, d, topN)) == Map(Unranked, SliceTo(Filter(Bound(d), FullRanking(items)), topN))
  {
    FilteredRanking(items, DestinationOf, d);
    MapSlice(Unranked, Sort(ItemByKey, Filter(Bound(d), items)), topN);
    MapSlice(Unranked, Filter(Bound(d), FullRanking(items)), topN);
  }

  lemma {:induction false} BestIsFirst(group: seq<ScoredItinerary>)
    requires group != []
    ensures Best(group) == Sort(ItemByKey, group)[0]
  {
    ItemOrder();
    if |group| > 1 {
      BestIsFirst(group[1..]);
    }
  }

  /** An origin's best is the first entry of the global ranking that departs from it. */
  lemma OriginViewAgrees(items: seq<ScoredItinerary>, o: string)
    ensures var row := SummaryFor(items, o);
            var ranked := Filter(From(o), FullRanking(items));
            && (row.best.None? <==> ranked == [])
            && (row.best.Some? ==> Unranked(row.best.value) == Unranked(ranked[0]))
  {
    FilteredRanking(items, OriginOf, o);
    var group := Filter(From(o), items);
    var sorted := Sort(ItemByKey, group);
    assert |Map(Unranked, sorted)| == |group|;
    if group != [] {
      BestIsFirst(group);
      assert Map(Unranked, sorted)[0] == Map(Unranked, Filter(From(o), FullRanking(items)))[0];
    }
  }
}
