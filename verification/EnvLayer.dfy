/** The environment's settings layer: from variable names to a tree, and when their order matters. */
module EnvLayer {
  import opened Wrappers
  import opened Seqs
  import opened StableSort
  import opened ConfigTrees

  // -- variable names ------------------------------------------------------------------

  const PREFIX := "FLIGHTAGENT__"

  function UpperChar(c: char): char { if 'a' <= c <= 'z' then (c as int - 32) as char else c }

  function LowerChar(c: char): char { if 'A' <= c <= 'Z' then (c as int + 32) as char else c }

  function Upper(s: string): string { Map(UpperChar, s) }

  function Lower(s: string): string { Map(LowerChar, s) }

  /** Cuts at every "__", leftmost first; `current` is the piece being read. */
  function Split(current: string, s: string): seq<string>
    decreases |s|
  {
    if |s| < 2 then [current + s]
    else if s[0] == '_' && s[1] == '_' then [current] + Split("", s[2..])
    else Split(current + [s[0]], s[1..])
  }

  function Join(pieces: seq<string>): string {
    if pieces == [] then "" else if |pieces| == 1 then pieces[0] else pieces[0] + "__" + Join(pieces[1..])
  }

  /** Nothing of a name is lost by cutting it. */
  lemma {:induction false} SplitKeepsAll(current: string, s: string)
    ensures Split(current, s) != [] && Join(Split(current, s)) == current + s
    decreases |s|
  {
    if |s| < 2 {
    } else if s[0] == '_' && s[1] == '_' {
      SplitKeepsAll("", s[2..]);
      assert ([current] + Split("", s[2..]))[1..] == Split("", s[2..]);
      assert s == "__" + s[2..];
      assert current + ("__" + s[2..]) == current + "__" + s[2..];
      assert "" + s[2..] == s[2..];
    } else {
      SplitKeepsAll(current + [s[0]], s[1..]);
      assert current + [s[0]] + s[1..] == current + s;
    }
  }

  predicate NoDouble(s: string) {
    forall i :: 0 <= i < |s| - 1 ==> !(s[i] == '_' && s[i + 1] == '_')
  }

  /** A piece that reads back as it was written: no double underscore, and none at its end. */
  predicate Plain(s: string) {
    NoDouble(s) && (s == "" || s[|s| - 1] != '_')
  }

  lemma {:induction false} SplitPiece(current: string, piece: string, rest: string)
    requires Plain(piece)
    ensures Split(current, piece + "__" + rest) == [current + piece] + Split("", rest)
    decreases |piece|
  {
    var s := piece + "__" + rest;
    if piece == "" {
      assert s[2..] == rest && current + piece == current;
    } else {
      assert s[1..] == piece[1..] + "__" + rest;
      assert !(s[0] == '_' && s[1] == '_');
      SplitPiece(current + [piece[0]], piece[1..], rest);
      assert current + [piece[0]] + piece[1..] == current + piece;
    }
  }

  lemma {:induction false} SplitLast(current: string, piece: string)
    requires NoDouble(piece)
    ensures Split(current, piece) == [current + piece]
    decreases |piece|
  {
    if |piece| >= 2 {
      SplitLast(current + [piece[0]], piece[1..]);
      assert current + [piece[0]] + piece[1..] == current + piece;
    }
  }

  /** And names written from plain pieces are cut back into them. */
  lemma {:induction false} SplitJoin(pieces: seq<string>)
    requires pieces != [] && NoDouble(pieces[|pieces| - 1])
    requires forall i :: 0 <= i < |pieces| - 1 ==> Plain(pieces[i])
    ensures Split("", Join(pieces)) == pieces
  {
    if |pieces| == 1 {
      SplitLast("", pieces[0]);
      assert "" + pieces[0] == pieces[0];
    } else {
      SplitPiece("", pieces[0], Join(pieces[1..]));
      SplitJoin(pieces[1..]);
      assert "" + pieces[0] == pieces[0];
    }
  }

  datatype Name = NotOurs | Malformed | Names(path: Path)

  function ParseName(raw: string): Name {
    var key := Upper(raw);
    if !(PREFIX <= key) then NotOurs
    else
      var suffix := key[|PREFIX|..];
      var pieces := Split("", suffix);
      if suffix == "" || "" in pieces then Malformed else Names(Map(Lower, pieces))
  }

  /** The name that sets the leaf at a path. */
  function NameOf(path: Path): string { PREFIX + Upper(Join(path)) }

  lemma {:induction false} UpperJoin(pieces: seq<string>)
    ensures Upper(Join(pieces)) == Join(Map(Upper, pieces))
  {
    if |pieces| > 1 {
      UpperJoin(pieces[1..]);
      assert Map(Upper, pieces)[1..] == Map(Upper, pieces[1..]);
      assert Upper("__") == "__";
      assert Upper(Join(pieces)) == Upper(pieces[0]) + Upper("__") + Upper(Join(pieces[1..]));
    }
  }

  lemma UpperLower(s: string)
    requires forall c :: c in s ==> !('A' <= c <= 'Z')
    ensures Lower(Upper(s)) == s
  {
    forall i | 0 <= i < |s| ensures LowerChar(UpperChar(s[i])) == s[i] { assert s[i] in s; }
  }

  /** A setting's path: lower-case words that survive being joined by double underscores. */
  ghost predicate ProperPath(path: Path) {
    && path != []
    && (forall i :: 0 <= i < |path| ==> path[i] != "" && NoDouble(path[i]) && forall c :: c in path[i] ==> !('A' <= c <= 'Z'))
    && (forall i :: 0 <= i < |path| - 1 ==> Plain(path[i]))
  }

  lemma UpperKeepsUnderscores(s: string)
    ensures NoDouble(s) <==> NoDouble(Upper(s))
    ensures Plain(s) <==> Plain(Upper(s))
  {
    assert forall i :: 0 <= i < |s| ==> (s[i] == '_' <==> Upper(s)[i] == '_');
  }

  lemma PrefixIsUpper()
    ensures Upper(PREFIX) == PREFIX
  {
  }

  lemma {:induction false} UpperTwice(s: string)
    ensures Upper(Upper(s)) == Upper(s)
  {
    forall i | 0 <= i < |s| ensures UpperChar(UpperChar(s[i])) == UpperChar(s[i]) {}
  }

  lemma NamePieces(path: Path)
    requires ProperPath(path)
    ensures var pieces := Map(Upper, path);
            && Split("", Upper(Join(path))) == pieces && Map(Lower, pieces) == path
            && "" !in pieces && Upper(Join(path)) != ""
  {
    var pieces := Map(Upper, path);
    UpperJoin(path);
    forall i | 0 <= i < |path|
      ensures NoDouble(pieces[i]) && (Plain(path[i]) ==> Plain(pieces[i])) && Lower(pieces[i]) == path[i]
    {
      UpperKeepsUnderscores(path[i]);
      UpperLower(path[i]);
    }
    SplitJoin(pieces);
    assert |pieces[0]| == |path[0]|;
  }

  lemma NameIsUpper(path: Path)
    ensures Upper(NameOf(path)) == PREFIX + Upper(Join(path))
  {
    PrefixIsUpper();
    UpperTwice(Join(path));
    var rest := Upper(Join(path));
    assert Upper(PREFIX + rest) == Upper(PREFIX) + Upper(rest);
  }

  /** Every proper path can be named, and its name is read back as that path. */
  lemma NameRoundTrip(path: Path)
    requires ProperPath(path)
    ensures ParseName(NameOf(path)) == Names(path)
  {
    NamePieces(path);
    NameIsUpper(path);
    hide Upper, Split, Join, Lower;
    var rest := Upper(Join(path));
    assert (PREFIX + rest)[|PREFIX|..] == rest;
  }

  /** Every piece is plain, but for an underscore at the end of the last. */
  predicate CleanlyCut(pieces: seq<string>) {
    pieces == [] || (NoDouble(pieces[0]) && (|pieces| > 1 ==> Plain(pieces[0])) && CleanlyCut(pieces[1..]))
  }

  lemma {:induction false} CleanPiece(pieces: seq<string>, i: nat)
    requires CleanlyCut(pieces) && i < |pieces|
    ensures NoDouble(pieces[i]) && (i < |pieces| - 1 ==> Plain(pieces[i]))
  {
    if i > 0 { CleanPiece(pieces[1..], i - 1); }
  }

  lemma {:induction false} SplitsCleanly(current: string, s: string)
    requires NoDouble(current) && (current != "" && current[|current| - 1] == '_' && s != "" ==> s[0] != '_')
    ensures CleanlyCut(Split(current, s))
    decreases |s|
  {
    if |s| < 2 {
      assert NoDouble(current + s);
    } else if s[0] == '_' && s[1] == '_' {
      SplitsCleanly("", s[2..]);
      assert ([current] + Split("", s[2..]))[1..] == Split("", s[2..]);
    } else {
      assert NoDouble(current + [s[0]]);
      SplitsCleanly(current + [s[0]], s[1..]);
    }
  }

  lemma LowerKeepsUnderscores(s: string)
    ensures NoDouble(s) <==> NoDouble(Lower(s))
    ensures Plain(s) <==> Plain(Lower(s))
    ensures forall c :: c in Lower(s) ==> !('A' <= c <= 'Z')
  {
    assert forall i :: 0 <= i < |s| ==> (s[i] == '_' <==> Lower(s)[i] == '_');
  }

  /** The proper paths are exactly those whose name is read back as themselves. */
  lemma NameRoundTripIff(path: Path)
    ensures ParseName(NameOf(path)) == Names(path) <==> ProperPath(path)
  {
    if ProperPath(path) {
      NameRoundTrip(path);
    } else if ParseName(NameOf(path)) == Names(path) {
      NameReadIsProper(NameOf(path));
    }
  }

  lemma NameReadIsProper(raw: string)
    requires ParseName(raw).Names?
    ensures ProperPath(ParseName(raw).path)
  {
    NamesAreWalkable(raw);
    var pieces, path := Split("", Upper(raw)[|PREFIX|..]), ParseName(raw).path;
    SplitsCleanly("", Upper(raw)[|PREFIX|..]);
    forall i | 0 <= i < |path|
      ensures NoDouble(path[i]) && (i < |path| - 1 ==> Plain(path[i])) && forall c :: c in path[i] ==> !('A' <= c <= 'Z')
    {
      CleanPiece(pieces, i);
      assert path[i] == Lower(pieces[i]);
      LowerKeepsUnderscores(pieces[i]);
    }
  }

  /** The twenty-six letters trade cases, and no other character changes; so a name may be written in either. */
  lemma LettersTradeCases(c: char)
    ensures 'a' <= c <= 'z' ==> 'A' <= UpperChar(c) <= 'Z' && UpperChar(c) - 'A' == c - 'a' && LowerChar(UpperChar(c)) == c
    ensures 'A' <= c <= 'Z' ==> 'a' <= LowerChar(c) <= 'z' && LowerChar(c) - 'a' == c - 'A' && UpperChar(LowerChar(c)) == c
    ensures !('a' <= c <= 'z') ==> UpperChar(c) == c
    ensures !('A' <= c <= 'Z') ==> LowerChar(c) == c
  {
  }

  /** Names without the prefix are passed over; with it, nothing and an empty step are malformed. */
  lemma NameVerdict(raw: string)
    ensures var ours := |raw| >= 13 && Upper(raw)[..13] == "FLIGHTAGENT__";
            var pieces := if ours then Split("", Upper(raw)[13..]) else [];
            && (ParseName(raw) == NotOurs <==> !ours)
            && (ParseName(raw) == Malformed <==> ours && "" in pieces)
            && (ParseName(raw).Names? ==> ParseName(raw).path == Map(Lower, pieces))
  {
    hide Split;
    assert |PREFIX| == 13;
    if |raw| >= 13 && Upper(raw)[..13] == "FLIGHTAGENT__" {
      assert PREFIX <= Upper(raw);
      if Upper(raw)[13..] == "" { NothingToCut(); }
    }
  }

  lemma NothingToCut()
    ensures "" in Split("", "")
  {
    assert Split("", "")[0] == "";
  }

  /** Every path that is read is one that can be walked: no empty step, and at least one step. */
  lemma NamesAreWalkable(raw: string)
    requires ParseName(raw).Names?
    ensures ParseName(raw).path != [] && "" !in ParseName(raw).path
  {
    var suffix := Upper(raw)[|PREFIX|..];
    SplitKeepsAll("", suffix);
    var pieces := Split("", suffix);
    forall i | 0 <= i < |pieces| ensures Lower(pieces[i]) != "" { assert pieces[i] in pieces; }
  }

  // -- inserting into the tree -----------------------------------------------------------

  /** Walks down, creating tables on the way, and assigns the last step over whatever is
      there; a value met on the way is a conflict. */
  function Put(t: Tree, path: Path, value: string): Option<Tree>
    decreases |path|
  {
    if path == [] then Some(Leaf(value))
    else if t.Leaf? then None
    else
      match Put(if path[0] in t.fields then t.fields[path[0]] else Section(map[]), path[1..], value)
      case None => None
      case Some(u) => Some(Section(t.fields[path[0] := u]))
  }

  /** The insertion fails exactly under a leaf, and otherwise changes only what is at or
      below the path, and the tables leading to it. */
  lemma {:induction false} PutLookup(t: Tree, path: Path, value: string, p: Path)
    ensures Put(t, path, value).None? <==> LeafAbove(t, path)
    ensures Put(t, path, value).Some? ==>
              Look(Put(t, path, value).value, p) == (if p == path then ALeaf(value)
                                                     else if path < p then Absent
                                                     else if p < path then ASection
                                                     else Look(t, p))
    decreases |path|
  {
    if path != [] && t.Section? {
      var below := if path[0] in t.fields then t.fields[path[0]] else Section(map[]);
      PutLookup(below, path[1..], value, if p == [] then [] else p[1..]);
      if p != [] && p[0] == path[0] {
        assert p == path <==> p[1..] == path[1..];
        assert path < p <==> path[1..] < p[1..];
        assert p < path <==> p[1..] < path[1..];
      }
    }
  }

  datatype Var = Var(path: Path, value: string)

  datatype EnvError = MalformedName(index: nat) | Conflict(path: Path)

  /** The tree after the first `n` variables, in order. */
  function Load(vars: seq<Var>, n: nat): Result<Tree, EnvError>
    requires n <= |vars|
  {
    if n == 0 then Ok(Section(map[]))
    else match Load(vars, n - 1)
         case Err(e) => Err(e)
         case Ok(t) => match Put(t, vars[n - 1].path, vars[n - 1].value)
                       case None => Err(Conflict(vars[n - 1].path))
                       case Some(u) => Ok(u)
  }

  function Loaded(vars: seq<Var>): Result<Tree, EnvError> { Load(vars, |vars|) }

  /** The variables of ours among the first `n` of the environment, until a name is malformed. */
  function Parsed(env: seq<(string, string)>, n: nat): Result<Tree, EnvError>
    requires n <= |env|
  {
    if n == 0 then Ok(Section(map[]))
    else match Parsed(env, n - 1)
         case Err(e) => Err(e)
         case Ok(t) =>
           match ParseName(env[n - 1].0)
           case NotOurs => Ok(t)
           case Malformed => Err(MalformedName(n - 1))
           case Names(path) => match Put(t, path, env[n - 1].1)
                               case None => Err(Conflict(path))
                               case Some(u) => Ok(u)
  }

  /** The parser's loop over the environment. */
  method ParseEnvLayer(env: seq<(string, string)>) returns (r: Result<Tree, EnvError>)
    ensures r == Parsed(env, |env|)
  {
    hide ParseName, Put;
    var node := Section(map[]);
    for n := 0 to |env|
      invariant Parsed(env, n) == Ok(node)
    {
      assert Parsed(env, n + 1).Err? ==> Parsed(env, |env|) == Parsed(env, n + 1) by { ErrorStays(env, n + 1, |env|); }
      match ParseName(env[n].0)
      case NotOurs =>
      case Malformed => return Err(MalformedName(n));
      case Names(path) =>
        var next := Put(node, path, env[n].1);
        if next.None? { return Err(Conflict(path)); }
        node := next.value;
    }
    return Ok(node);
  }

  lemma {:induction false} ErrorStays(env: seq<(string, string)>, m: nat, n: nat)
    requires m <= n <= |env|
    ensures Parsed(env, m).Err? ==> Parsed(env, n) == Parsed(env, m)
    decreases n - m
  {
    if m < n { ErrorStays(env, m, n - 1); }
  }

  function VarsOf(env: seq<(string, string)>): seq<Var> {
    if env == [] then []
    else
      var n := |env| - 1;
      VarsOf(env[..n]) + match ParseName(env[n].0) case Names(path) => [Var(path, env[n].1)] case _ => []
  }

  lemma {:induction false} ParsedPrefix(env: seq<(string, string)>, m: nat, n: nat)
    requires n <= m <= |env|
    ensures Parsed(env[..m], n) == Parsed(env, n)
  {
    if n > 0 { ParsedPrefix(env, m, n - 1); }
  }

  lemma {:induction false} LoadPrefix(vars: seq<Var>, more: seq<Var>, n: nat)
    requires n <= |vars|
    ensures Load(vars + more, n) == Load(vars, n)
  {
    if n > 0 { LoadPrefix(vars, more, n - 1); }
  }

  /** With no malformed name, parsing the environment is loading its variables of ours. */
  lemma {:induction false} ParsedIsLoaded(env: seq<(string, string)>)
    requires forall i :: 0 <= i < |env| ==> ParseName(env[i].0) != Malformed
    ensures Parsed(env, |env|) == Loaded(VarsOf(env))
    decreases |env|
  {
    hide ParseName, Put;
    if env != [] {
      var n := |env| - 1;
      ParsedIsLoaded(env[..n]);
      ParsedPrefix(env, n, n);
      var before := VarsOf(env[..n]);
      assert before + [] == before;
      if ParseName(env[n].0).Names? {
        LoadPrefix(before, [Var(ParseName(env[n].0).path, env[n].1)], |before|);
      }
    }
  }

  lemma {:induction false} VarsMember(env: seq<(string, string)>, v: Var)
    ensures v in VarsOf(env) <==> exists e :: e in env && ParseName(e.0) == Names(v.path) && e.1 == v.value
    decreases |env|
  {
    hide ParseName;
    if env != [] {
      var n := |env| - 1;
      VarsMember(env[..n], v);
      assert env == env[..n] + [env[n]];
    }
  }

  // -- exactly the given leaves ------------------------------------------------------------

  /** No path is a proper prefix of another, and a path given twice has one value. */
  ghost predicate Consistent(vars: seq<Var>) {
    forall v, w :: v in vars && w in vars ==> !(v.path < w.path) && (v.path == w.path ==> v == w)
  }

  /** The tree of a list of variables: their values as leaves, tables above them, nothing else. */
  ghost predicate HoldsExactly(t: Tree, vars: seq<Var>, n: nat)
    requires n <= |vars|
  {
    forall p: Path ::
      && (forall value :: Look(t, p) == ALeaf(value) <==> Var(p, value) in vars[..n])
      && (Look(t, p) == ASection <==> p == [] || exists i :: 0 <= i < n && p < vars[i].path)
  }

  lemma LeavesGiven(t: Tree, vars: seq<Var>, n: nat)
    requires n < |vars| && Consistent(vars) && HoldsExactly(t, vars, n) && vars[n].path != []
    ensures !LeafAbove(t, vars[n].path)
  {
    assert vars[n] in vars;
    forall v | v in vars[..n] ensures v in vars {}
    if LeafAbove(t, vars[n].path) {
      var q := LeafAbovePath(t, vars[n].path);
      assert false;
    }
  }

  lemma Extends(a: Path, b: Path, c: Path)
    requires a < b
    ensures b < c ==> a < c
  {
  }

  lemma HoldsNext(t: Tree, vars: seq<Var>, n: nat, u: Tree, p: Path)
    requires n < |vars| && Consistent(vars) && HoldsExactly(t, vars, n) && vars[n].path != []
    requires Put(t, vars[n].path, vars[n].value) == Some(u)
    ensures forall value :: Look(u, p) == ALeaf(value) <==> Var(p, value) in vars[..n + 1]
    ensures Look(u, p) == ASection <==> p == [] || exists i :: 0 <= i < n + 1 && p < vars[i].path
  {
    hide Put, LeafAbove;
    var v := vars[n];
    PutLookup(t, v.path, v.value, p);
    assert vars[..n + 1] == vars[..n] + [v];
    assert v in vars;
    forall w | w in vars[..n] ensures w in vars && !(w.path < v.path) && !(v.path < w.path) && (w.path == v.path
        ==> w == v) {
      assert w in vars;
    }
    if p == v.path {
      forall i | 0 <= i < n ensures !(p < vars[i].path) { assert vars[i] in vars; }
    } else if v.path < p {
      forall i | 0 <= i < n ensures !(p < vars[i].path) {
        assert vars[i] in vars;
        Extends(v.path, p, vars[i].path);
      }
    }
  }

  /** A consistent list of variables loads without conflict, to a tree of exactly their values. */
  lemma {:induction false} LoadHoldsExactly(vars: seq<Var>, n: nat)
    requires Consistent(vars) && n <= |vars| && forall v :: v in vars ==> v.path != []
    ensures Load(vars, n).Ok? && HoldsExactly(Load(vars, n).value, vars, n)
  {
    hide Put;
    if n == 0 {
      forall p: Path | p != [] ensures Look(Section(map[]), p) == Absent {}
    } else {
      LoadHoldsExactly(vars, n - 1);
      var t := Load(vars, n - 1).value;
      assert vars[n - 1] in vars;
      LeavesGiven(t, vars, n - 1);
      PutLookup(t, vars[n - 1].path, vars[n - 1].value, []);
      forall p: Path
        ensures forall value :: Look(Load(vars, n).value, p) == ALeaf(value) <==> Var(p, value) in vars[..n]
        ensures Look(Load(vars, n).value, p) == ASection <==> p == [] || exists i :: 0 <= i < n && p < vars[i].path
      {
        HoldsNext(t, vars, n - 1, Load(vars, n).value, p);
      }
    }
  }

  lemma OneTree(t: Tree, u: Tree, a: seq<Var>, b: seq<Var>)
    requires HoldsExactly(t, a, |a|) && HoldsExactly(u, b, |b|) && forall v :: v in a <==> v in b
    ensures t == u
  {
    assert a[..|a|] == a && b[..|b|] == b;
    forall p: Path ensures Look(t, p) == Look(u, p) {
      forall value ensures Look(t, p) == ALeaf(value) <==> Look(u, p) == ALeaf(value) {
        assert Var(p, value) in a <==> Var(p, value) in b;
      }
      if !Look(t, p).ALeaf? && !Look(u, p).ALeaf? {
        forall i | 0 <= i < |a| ensures exists j :: 0 <= j < |b| && b[j] == a[i] { assert a[i] in a; }
        forall j | 0 <= j < |b| ensures exists i :: 0 <= i < |a| && a[i] == b[j] { assert b[j] in b; }
      }
    }
    SameLookups(t, u);
  }

  lemma MembersOfBags(a: seq<Var>, b: seq<Var>)
    requires multiset(a) == multiset(b)
    ensures forall v :: v in a <==> v in b
  {
    forall v ensures v in a <==> v in b { assert v in multiset(a) <==> v in multiset(b); }
  }

  /** Consistent variables give one tree in whatever order the environment lists them. */
  lemma ConsistentOrderInvisible(a: seq<Var>, b: seq<Var>)
    requires Consistent(a) && (forall v :: v in a <==> v in b) && forall v :: v in a ==> v.path != []
    ensures Loaded(a).Ok? && Loaded(a) == Loaded(b)
  {
    LoadHoldsExactly(a, |a|);
    LoadHoldsExactly(b, |b|);
    OneTree(Loaded(a).value, Loaded(b).value, a, b);
  }

  // -- and inconsistent ones never do --------------------------------------------------------

  predicate LongerFirst(v: Var, w: Var) { |v.path| >= |w.path| }

  lemma {:induction false} LeavesComeFrom(vars: seq<Var>, n: nat, p: Path)
    requires n <= |vars| && Load(vars, n).Ok? && Look(Load(vars, n).value, p).ALeaf?
    ensures exists i :: 0 <= i < n && vars[i].path == p
  {
    if n > 0 {
      PutLookup(Load(vars, n - 1).value, vars[n - 1].path, vars[n - 1].value, p);
      if p == vars[n - 1].path {
      } else {
        LeavesComeFrom(vars, n - 1, p);
      }
    }
  }

  /** Longest paths first, nothing ever conflicts: shorter ones overwrite what is below them. */
  lemma {:induction false} LongestFirstLoads(vars: seq<Var>, n: nat)
    requires Sorted(LongerFirst, vars) && n <= |vars|
    ensures Load(vars, n).Ok?
  {
    if n > 0 {
      LongestFirstLoads(vars, n - 1);
      var t := Load(vars, n - 1).value;
      PutLookup(t, vars[n - 1].path, vars[n - 1].value, []);
      if LeafAbove(t, vars[n - 1].path) {
        var q := LeafAbovePath(t, vars[n - 1].path);
        LeavesComeFrom(vars, n - 1, q);
        assert false;
      }
    }
  }

  lemma {:induction false} LoadErrorStays(vars: seq<Var>, m: nat, n: nat)
    requires m <= n <= |vars| && Load(vars, m).Err?
    ensures Load(vars, n) == Load(vars, m)
    decreases n - m
  {
    if m < n { LoadErrorStays(vars, m, n - 1); }
  }

  /** A value before a table of the same name is a conflict. */
  lemma ShortFirstConflicts(v: Var, w: Var, rest: seq<Var>)
    requires v.path != [] && v.path < w.path
    ensures Loaded([v, w] + rest) == Err(Conflict(w.path))
  {
    var vars := [v, w] + rest;
    var empty := Section(map[]);
    assert Load(vars, 0) == Ok(empty);
    PutLookup(empty, v.path, v.value, v.path);
    if LeafAbove(empty, v.path) {
      var q := LeafAbovePath(empty, v.path);
    }
    assert Load(vars, 1).Ok? && Look(Load(vars, 1).value, v.path) == ALeaf(v.value);
    PathAbove(Load(vars, 1).value, v.path, w.path);
    PutLookup(Load(vars, 1).value, w.path, w.value, []);
    assert Load(vars, 2) == Err(Conflict(w.path));
    LoadErrorStays(vars, 2, |vars|);
  }

  /** Of two values for one path, the last one loaded stays. */
  lemma LastValueStays(vars: seq<Var>)
    requires vars != [] && Loaded(vars).Ok?
    ensures var v := vars[|vars| - 1]; Look(Loaded(vars).value, v.path) == ALeaf(v.value)
  {
    var n := |vars| - 1;
    PutLookup(Load(vars, n).value, vars[n].path, vars[n].value, vars[n].path);
  }

  lemma ConflictingOrder(vars: seq<Var>, v: Var, w: Var) returns (bad: seq<Var>)
    requires v in vars && w in vars && v.path != [] && v.path < w.path
    ensures multiset(bad) == multiset(vars) && Loaded(bad).Err?
  {
    hide Load, ToFront;
    var j :| 0 <= j < |vars| && vars[j] == w;
    var inner := ToFront(vars, j);
    ToFrontBag(vars, j);
    var i := StillThere(vars, inner, v);
    bad := ToFront(inner, i);
    ToFrontBag(inner, i);
    SecondOfFront(inner, i);
    assert bad == [v, w] + bad[2..];
    ShortFirstConflicts(v, w, bad[2..]);
  }

  lemma StillThere(vars: seq<Var>, moved: seq<Var>, v: Var) returns (i: nat)
    requires v in vars && multiset(vars) == multiset(moved)
    ensures i < |moved| && moved[i] == v
  {
    assert v in multiset(moved);
    i :| 0 <= i < |moved| && moved[i] == v;
  }

  lemma PrefixPairDependsOnOrder(vars: seq<Var>, v: Var, w: Var) returns (good: seq<Var>, bad: seq<Var>)
    requires v in vars && w in vars && v.path != [] && v.path < w.path
    ensures multiset(good) == multiset(bad) == multiset(vars)
    ensures Loaded(good).Ok? && Loaded(bad).Err?
  {
    good := Sort(LongerFirst, vars);
    SortBag(LongerFirst, vars);
    SortSorted(LongerFirst, vars);
    LongestFirstLoads(good, |good|);
    bad := ConflictingOrder(vars, v, w);
  }

  function Back(vars: seq<Var>, i: nat): seq<Var>
    requires i < |vars|
  {
    Drop(vars, i) + [vars[i]]
  }

  lemma TwoValuesDependOnOrder(vars: seq<Var>, v: Var, w: Var) returns (a: seq<Var>, b: seq<Var>)
    requires v in vars && w in vars && v.path == w.path && v.value != w.value
    ensures multiset(a) == multiset(b) == multiset(vars)
    ensures Loaded(a).Ok? && Loaded(b).Ok? ==> Loaded(a) != Loaded(b)
  {
    var i :| 0 <= i < |vars| && vars[i] == v;
    var j :| 0 <= j < |vars| && vars[j] == w;
    a, b := Back(vars, i), Back(vars, j);
    DropBag(vars, i);
    DropBag(vars, j);
    if Loaded(a).Ok? && Loaded(b).Ok? {
      LastValueStays(a);
      LastValueStays(b);
    }
  }

  lemma {:induction false} PrefixFreeLoads(vars: seq<Var>, n: nat)
    requires n <= |vars| && forall v, w :: v in vars && w in vars ==> !(v.path < w.path)
    ensures Load(vars, n).Ok?
  {
    if n > 0 {
      PrefixFreeLoads(vars, n - 1);
      var t, v := Load(vars, n - 1).value, vars[n - 1];
      PutLookup(t, v.path, v.value, []);
      if LeafAbove(t, v.path) {
        var q := LeafAbovePath(t, v.path);
        LeavesComeFrom(vars, n - 1, q);
        assert false;
      }
    }
  }

  /** The environment's order is invisible exactly when no name extends another and
      no name is given two values. */
  lemma OrderInvisibleIff(vars: seq<Var>)
    requires forall v :: v in vars ==> v.path != []
    ensures Consistent(vars) <==> forall other :: multiset(other) == multiset(vars) ==> Loaded(other) == Loaded(vars)
  {
    if Consistent(vars) {
      forall other | multiset(other) == multiset(vars) ensures Loaded(other) == Loaded(vars) {
        MembersOfBags(vars, other);
        ConsistentOrderInvisible(vars, other);
      }
    } else if exists v, w :: v in vars && w in vars && v.path < w.path {
      var v, w :| v in vars && w in vars && v.path < w.path;
      var good, bad := PrefixPairDependsOnOrder(vars, v, w);
    } else {
      var v, w :| v in vars && w in vars && v.path == w.path && v != w;
      var a, b := TwoValuesDependOnOrder(vars, v, w);
      MembersOfBags(vars, a);
      MembersOfBags(vars, b);
      PrefixFreeLoads(a, |a|);
      PrefixFreeLoads(b, |b|);
    }
  }

  /** In the unlucky order a longer name is dropped without a word. */
  lemma LongerNameLost(v: Var, w: Var)
    requires v.path != [] && v.path < w.path
    ensures Loaded([w, v]).Ok? && Look(Loaded([w, v]).value, w.path) == Absent
  {
    var vars := [w, v];
    assert Sorted(LongerFirst, vars);
    LongestFirstLoads(vars, 2);
    PutLookup(Load(vars, 1).value, v.path, v.value, w.path);
  }

  /** The parser's tree does not depend on the order of the environment, and holds exactly
      the values of its variables, whenever those are consistent and well named. */
  lemma EnvironmentOrderInvisible(env: seq<(string, string)>, other: seq<(string, string)>)
    requires Permutation(env, other) && Consistent(VarsOf(env))
    requires forall e :: e in env ==> ParseName(e.0) != Malformed
    ensures Parsed(env, |env|).Ok? && Parsed(env, |env|) == Parsed(other, |other|)
    ensures HoldsExactly(Parsed(env, |env|).value, VarsOf(env), |VarsOf(env)|)
  {
    hide ParseName, HoldsExactly;
    PermutationBag(env, other);
    forall e ensures e in env <==> e in other { assert e in multiset(env) <==> e in multiset(other); }
    ParsedIsLoaded(env);
    ParsedIsLoaded(other);
    forall v ensures v in VarsOf(env) <==> v in VarsOf(other) {
      VarsMember(env, v);
      VarsMember(other, v);
    }
    forall v | v in VarsOf(env) ensures v.path != [] {
      VarsMember(env, v);
      var e :| e in env && ParseName(e.0) == Names(v.path) && e.1 == v.value;
      NamesAreWalkable(e.0);
    }
    ConsistentOrderInvisible(VarsOf(env), VarsOf(other));
    LoadHoldsExactly(VarsOf(env), |VarsOf(env)|);
  }
}
