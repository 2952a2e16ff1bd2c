/** Layered configuration: trees of settings, how one layer overrides another, and what a lookup then sees. */
module ConfigTrees {
  import opened Wrappers
  import opened Seqs

  /** A leaf is anything that is not a table: a scalar, or a list taken whole. */
  datatype Tree = Leaf(value: string) | Section(fields: map<string, Tree>)

  type Path = seq<string>

  datatype Lookup = Absent | ALeaf(value: string) | ASection

  function Look(t: Tree, p: Path): Lookup {
    if p == [] then (match t case Leaf(v) => ALeaf(v) case Section(_) => ASection)
    else if t.Section? && p[0] in t.fields then Look(t.fields[p[0]], p[1..])
    else Absent
  }

  /** Some proper prefix of the path is a leaf. */
  predicate LeafAbove(t: Tree, p: Path) {
    p != [] && (t.Leaf? || (p[0] in t.fields && LeafAbove(t.fields[p[0]], p[1..])))
  }

  lemma {:induction false} LeafAboveIff(t: Tree, p: Path)
    ensures LeafAbove(t, p) <==> exists n :: 0 <= n < |p| && Look(t, p[..n]).ALeaf?
  {
    if p == [] {
    } else if t.Leaf? {
      assert Look(t, p[..0]).ALeaf?;
    } else if p[0] in t.fields {
      var u, q := t.fields[p[0]], p[1..];
      LeafAboveIff(u, q);
      forall n | 0 < n <= |p| ensures Look(t, p[..n]) == Look(u, q[..n - 1]) {
        assert p[..n][1..] == q[..n - 1];
      }
      if LeafAbove(t, p) {
        var n :| 0 <= n < |q| && Look(u, q[..n]).ALeaf?;
        assert Look(t, p[..n + 1]).ALeaf?;
      }
    } else {
      forall n | 0 <= n < |p| ensures !Look(t, p[..n]).ALeaf? {
        if n > 0 { assert p[..n][0] == p[0]; }
      }
    }
  }

  /** The path of a leaf above another path is a proper prefix of it. */
  lemma LeafAbovePath(t: Tree, p: Path) returns (q: Path)
    requires LeafAbove(t, p)
    ensures q < p && Look(t, q).ALeaf?
  {
    LeafAboveIff(t, p);
    var n :| 0 <= n < |p| && Look(t, p[..n]).ALeaf?;
    q := p[..n];
  }

  lemma PathAbove(t: Tree, q: Path, p: Path)
    requires q < p && Look(t, q).ALeaf?
    ensures LeafAbove(t, p)
  {
    LeafAboveIff(t, p);
    assert p[..|q|] == q;
  }

  /** Below a leaf there is nothing. */
  lemma {:induction false} NothingBelowLeaf(t: Tree, p: Path)
    requires LeafAbove(t, p)
    ensures Look(t, p) == Absent
  {
    if t.Section? { NothingBelowLeaf(t.fields[p[0]], p[1..]); }
  }

  lemma LookStep(t: Tree, k: string, p: Path)
    ensures Look(t, [k] + p) == if t.Section? && k in t.fields then Look(t.fields[k], p) else Absent
  {
    assert ([k] + p)[1..] == p;
  }

  /** A tree is determined by what lookups see. */
  lemma {:induction false} SameLookups(t: Tree, u: Tree)
    requires forall p :: Look(t, p) == Look(u, p)
    ensures t == u
    decreases t
  {
    assert Look(t, []) == Look(u, []);
    if t.Section? {
      forall k ensures k in t.fields <==> k in u.fields {
        assert Look(t, [k]) == Look(u, [k]);
        LookStep(t, k, []);
        LookStep(u, k, []);
      }
      forall k | k in t.fields ensures t.fields[k] == u.fields[k] {
        forall p ensures Look(t.fields[k], p) == Look(u.fields[k], p) {
          assert Look(t, [k] + p) == Look(u, [k] + p);
          LookStep(t, k, p);
          LookStep(u, k, p);
        }
        SameLookups(t.fields[k], u.fields[k]);
      }
      assert t.fields == u.fields;
    }
  }

  // -- merging two layers ------------------------------------------------------------------

  /** Two tables merge key by key; anything else is replaced whole. */
  function Merge(base: Tree, override: Tree): Tree
    decreases override
  {
    if base.Leaf? || override.Leaf? then override
    else Section(map k | k in base.fields.Keys + override.fields.Keys ::
           if k !in override.fields then base.fields[k]
           else if k !in base.fields then override.fields[k]
           else Merge(base.fields[k], override.fields[k]))
  }

  /** What the merged table holds under each key. */
  lemma MergeFields(base: map<string, Tree>, override: map<string, Tree>)
    ensures var m := Merge(Section(base), Section(override));
            && m.Section? && m.fields.Keys == base.Keys + override.Keys
            && (forall k :: k in base && k !in override ==> m.fields[k] == base[k])
            && (forall k :: k in override && k !in base ==> m.fields[k] == override[k])
            && (forall k :: k in override && k in base ==> m.fields[k] == Merge(base[k], override[k]))
  {
  }

  lemma MergeReplaces(base: Tree, override: Tree)
    requires base.Leaf? || override.Leaf?
    ensures Merge(base, override) == override
  {
  }

  /** The base with the override's entries merged in, but for those still to do. */
  ghost predicate MergedSoFar(base: map<string, Tree>, override: map<string, Tree>, todo: set<string>,
                              merged: map<string, Tree>) {
    && todo <= override.Keys
    && merged.Keys == base.Keys + (override.Keys - todo)
    && (forall k :: k in base && (k in todo || k !in override) ==> merged[k] == base[k])
    && (forall k :: k in override && k !in todo ==> merged[k] == if k in base then Merge(base[k], override[k]) else override[k])
  }

  lemma MergeStart(base: map<string, Tree>, override: map<string, Tree>)
    ensures MergedSoFar(base, override, override.Keys, base)
  {
    hide Merge;
  }

  lemma MergeNext(base: map<string, Tree>, override: map<string, Tree>, todo: set<string>, merged: map<string, Tree>,
                  key: string, value: Tree)
    requires MergedSoFar(base, override, todo, merged) && key in todo
    requires value == if key in base then Merge(base[key], override[key]) else override[key]
    ensures MergedSoFar(base, override, todo - {key}, merged[key := value])
  {
    hide Merge;
  }

  lemma MergeDone(base: map<string, Tree>, override: map<string, Tree>, merged: map<string, Tree>)
    requires MergedSoFar(base, override, {}, merged)
    ensures Section(merged) == Merge(Section(base), Section(override))
  {
    hide Merge;
    MergeFields(base, override);
    assert merged == Merge(Section(base), Section(override)).fields;
  }

  lemma MergeTodo(base: map<string, Tree>, override: map<string, Tree>, todo: set<string>, merged: map<string, Tree>,
                  key: string)
    requires MergedSoFar(base, override, todo, merged) && key in todo
    ensures key in override && (key in merged <==> key in base) && (key in base ==> merged[key] == base[key])
  {
  }

  /** The merging loop: a copy of the base, overwritten entry by entry in any order. */
  method DeepMerge(base: map<string, Tree>, override: map<string, Tree>) returns (merged: map<string, Tree>)
    ensures Section(merged) == Merge(Section(base), Section(override))
    decreases Section(override)
  {
    hide Merge, MergedSoFar;
    merged := base;
    var todo := override.Keys;
    MergeStart(base, override);
    while todo != {}
      invariant MergedSoFar(base, override, todo, merged)
      decreases |todo|
    {
      var key :| key in todo;
      MergeTodo(base, override, todo, merged, key);
      var value := override[key];
      if key in merged && merged[key].Section? && value.Section? {
        var inner := DeepMerge(merged[key].fields, value.fields);
        value := Section(inner);
      } else if key in merged {
        MergeReplaces(merged[key], value);
      }
      MergeNext(base, override, todo, merged, key, value);
      merged := merged[key := value];
      todo := todo - {key};
    }
    MergeDone(base, override, merged);
  }

  /** The layer says what is at the path: it has something there, or a leaf above it. */
  predicate Speaks(t: Tree, p: Path) {
    Look(t, p) != Absent || LeafAbove(t, p)
  }

  /** What the merge shows at a path is the override's word if it has one, else the base's. In particular an
      override leaf always wins, and a base leaf survives iff the override has nothing
      at its path and no leaf above it. */
  lemma {:induction false} MergeLookup(base: Tree, override: Tree, p: Path)
    ensures Look(Merge(base, override), p) == if Speaks(override, p) then Look(override, p) else Look(base, p)
    decreases override
  {
    if base.Leaf? || override.Leaf? {
    } else if p != [] && p[0] in base.fields && p[0] in override.fields {
      MergeLookup(base.fields[p[0]], override.fields[p[0]], p[1..]);
    }
  }

  /** Layers merged in order, the first one lowest. */
  function Layered(layers: seq<Tree>): Tree {
    if layers == [] then Section(map[])
    else Merge(Layered(layers[..|layers| - 1]), layers[|layers| - 1])
  }

  /** The topmost layer that says anything about a path decides it. */
  lemma {:induction false} TopmostLayerDecides(layers: seq<Tree>, p: Path, i: nat)
    requires i < |layers| && Speaks(layers[i], p) && forall j :: i < j < |layers| ==> !Speaks(layers[j], p)
    ensures Look(Layered(layers), p) == Look(layers[i], p)
    decreases |layers|
  {
    var n := |layers| - 1;
    MergeLookup(Layered(layers[..n]), layers[n], p);
    if i < n { TopmostLayerDecides(layers[..n], p, i); }
  }

  lemma {:induction false} NoLayerSpeaks(layers: seq<Tree>, p: Path)
    requires p != [] && forall j :: 0 <= j < |layers| ==> !Speaks(layers[j], p)
    ensures Look(Layered(layers), p) == Absent
    decreases |layers|
  {
    if layers != [] {
      var n := |layers| - 1;
      MergeLookup(Layered(layers[..n]), layers[n], p);
      NoLayerSpeaks(layers[..n], p);
    }
  }

  // -- associativity ------------------------------------------------------------------------

  /** A value of the middle layer that the top layer turns back into a table uncovers
      nothing of the bottom layer but what the top layer covers itself. */
  ghost predicate NothingUncovered(a: Tree, b: Tree, c: Tree) {
    forall q: Path, p: Path :: q < p && Look(b, q).ALeaf? && Look(c, q) == ASection && Look(a, p) != Absent
        ==> Speaks(c, p)
  }

  lemma {:induction false} PrefixPresent(t: Tree, q: Path, p: Path)
    requires q < p && Look(t, p) != Absent
    ensures Look(t, q) == ASection
  {
    if q != [] {
      assert q[0] == p[0] && q[1..] < p[1..];
      PrefixPresent(t.fields[p[0]], q[1..], p[1..]);
    }
  }

  lemma SpokenBelowLeaf(c: Tree, q: Path, p: Path)
    requires q < p && Speaks(c, q) && Look(c, q) != ASection
    ensures LeafAbove(c, p)
  {
    if Look(c, q).ALeaf? {
      PathAbove(c, q, p);
    } else {
      var r := LeafAbovePath(c, q);
      PathAbove(c, r, p);
    }
  }

  /** Both groupings, at one path where the top layer is silent. */
  lemma GroupingsAtPath(a: Tree, b: Tree, c: Tree, p: Path)
    requires !Speaks(c, p)
    ensures Look(Merge(Merge(a, b), c), p) == if Speaks(b, p) then Look(b, p) else Look(a, p)
    ensures Look(Merge(a, Merge(b, c)), p)
         == if Look(b, p) != Absent || LeafAbove(Merge(b, c), p) then Look(b, p) else Look(a, p)
  {
    MergeLookup(Merge(a, b), c, p);
    MergeLookup(a, b, p);
    MergeLookup(a, Merge(b, c), p);
    MergeLookup(b, c, p);
  }

  /** And where it speaks. */
  lemma GroupingsUnderTop(a: Tree, b: Tree, c: Tree, p: Path)
    requires Speaks(c, p)
    ensures Look(Merge(Merge(a, b), c), p) == Look(c, p) == Look(Merge(a, Merge(b, c)), p)
  {
    MergeLookup(Merge(a, b), c, p);
    MergeLookup(a, Merge(b, c), p);
    MergeLookup(b, c, p);
    if Look(c, p) == Absent {
      var q := LeafAbovePath(c, p);
      MergeLookup(b, c, q);
      PathAbove(Merge(b, c), q, p);
    }
  }

  /** Under a silent top layer, a leaf of the middle layer above the path is lost to the
      merge exactly when the top layer has turned it into a table. */
  lemma MiddleLeafKept(b: Tree, c: Tree, q: Path, p: Path)
    requires q < p && Look(b, q).ALeaf? && !Speaks(c, p) && Look(c, q) != ASection
    ensures LeafAbove(Merge(b, c), p)
  {
    if Speaks(c, q) {
      SpokenBelowLeaf(c, q, p);
      assert false;
    }
    MergeLookup(b, c, q);
    PathAbove(Merge(b, c), q, p);
  }

  lemma MergedLeafIsMiddle(b: Tree, c: Tree, p: Path)
    requires LeafAbove(Merge(b, c), p) && !Speaks(c, p)
    ensures LeafAbove(b, p)
  {
    var q := LeafAbovePath(Merge(b, c), p);
    MergeLookup(b, c, q);
    if Speaks(c, q) {
      PathAbove(c, q, p);
      assert false;
    }
    PathAbove(b, q, p);
  }

  lemma OneLeafAbove(t: Tree, q: Path, r: Path, p: Path)
    requires q < p && r < p && Look(t, q).ALeaf? && Look(t, r).ALeaf?
    ensures q == r
  {
    if |q| < |r| {
      assert q < r;
      PrefixPresent(t, q, r);
    } else if |r| < |q| {
      assert r < q;
      PrefixPresent(t, r, q);
    } else {
      assert q == p[..|q|] && r == p[..|r|];
    }
  }

  /** Merging three layers does not depend on the grouping exactly when nothing is uncovered. */
  lemma MergeAssociativeIff(a: Tree, b: Tree, c: Tree)
    ensures Merge(Merge(a, b), c) == Merge(a, Merge(b, c)) <==> NothingUncovered(a, b, c)
  {
    if NothingUncovered(a, b, c) {
      forall p ensures Look(Merge(Merge(a, b), c), p) == Look(Merge(a, Merge(b, c)), p) {
        if Speaks(c, p) {
          GroupingsUnderTop(a, b, c, p);
        } else {
          GroupingsAtPath(a, b, c, p);
          if Look(b, p) == Absent { SameUnderSilence(a, b, c, p); }
        }
      }
      SameLookups(Merge(Merge(a, b), c), Merge(a, Merge(b, c)));
    } else {
      var q: Path, p: Path :| q < p && Look(b, q).ALeaf? && Look(c, q) == ASection && Look(a, p) != Absent
          && !Speaks(c, p);
      GroupingsAtPath(a, b, c, p);
      PathAbove(b, q, p);
      NothingBelowLeaf(b, p);
      if LeafAbove(Merge(b, c), p) {
        var r := LeafAbovePath(Merge(b, c), p);
        MergeLookup(b, c, r);
        UncoveredLeaf(b, c, q, r, p);
      }
    }
  }

  lemma UncoveredLeaf(b: Tree, c: Tree, q: Path, r: Path, p: Path)
    requires q < p && r < p && Look(b, q).ALeaf? && Look(c, q) == ASection && !Speaks(c, p)
    ensures !(if Speaks(c, r) then Look(c, r) else Look(b, r)).ALeaf?
  {
    if Speaks(c, r) {
      if Look(c, r).ALeaf? { PathAbove(c, r, p); }
    } else if Look(b, r).ALeaf? {
      OneLeafAbove(b, q, r, p);
    }
  }

  lemma SameUnderSilence(a: Tree, b: Tree, c: Tree, p: Path)
    requires NothingUncovered(a, b, c) && !Speaks(c, p) && Look(b, p) == Absent
    ensures LeafAbove(b, p) != LeafAbove(Merge(b, c), p) ==> Look(a, p) == Absent
  {
    if LeafAbove(b, p) {
      var q := LeafAbovePath(b, p);
      if Look(c, q) != ASection { MiddleLeafKept(b, c, q, p); }
    } else if LeafAbove(Merge(b, c), p) {
      MergedLeafIsMiddle(b, c, p);
    }
  }

  /** Layers that agree on what is a table and what is a value merge associatively. */
  lemma CompatibleLayersAssociate(a: Tree, b: Tree, c: Tree)
    requires forall q :: Look(b, q).ALeaf? ==> Look(c, q) != ASection
    ensures Merge(Merge(a, b), c) == Merge(a, Merge(b, c))
  {
    MergeAssociativeIff(a, b, c);
  }

  /** A path that is a table, then a value, then a table again: one grouping brings the
      old table's entries back, the other does not. */
  lemma GroupingMatters()
    ensures var a := Section(map["cache" := Section(map["ttl" := Leaf("60")])]);
            var b := Section(map["cache" := Leaf("off")]);
            var c := Section(map["cache" := Section(map[])]);
            && Look(Merge(Merge(a, b), c), ["cache", "ttl"]) == Absent
            && Look(Merge(a, Merge(b, c)), ["cache", "ttl"]) == ALeaf("60")
  {
    var a, b := Section(map["cache" := Section(map["ttl" := Leaf("60")])]), Section(map["cache" := Leaf("off")]);
    var c := Section(map["cache" := Section(map[])]);
    var p := ["cache", "ttl"];
    assert p[1..] == ["ttl"] && p[1..][1..] == [];
    assert Merge(b, c).fields["cache"] == Section(map[]);
    assert Look(a, p) == ALeaf("60") && Look(b, p) == Look(c, p) == Absent;
    assert LeafAbove(b, p) && !LeafAbove(c, p) && !LeafAbove(Merge(b, c), p);
    hide Merge, Look, LeafAbove;
    GroupingsAtPath(a, b, c, p);
  }
}
