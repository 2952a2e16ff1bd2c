/** The cache key of a search, when two searches share it, and what that gives two runs in a row. */
module RawKeys {
  import opened Wrappers
  import opened Seqs
  import opened Domain
  import opened Outcomes
  import opened Executor
  import opened ExecutorTheorems
  import opened SecondRun
  import opened Cache
  import opened Segments
  import Payload

  datatype Capabilities = Capabilities(providerName: string, apiVersion: string)

  /** How dates are written and texts digested: each an injective function, dates without a bar. */
  datatype Texts = Texts(date: int -> string, digest: string -> string)

  ghost predicate Faithful(t: Texts) {
    && (forall a, b :: t.date(a) == t.date(b) ==> a == b)
    && (forall a :: NoBar(t.date(a)))
    && (forall a, b :: t.digest(a) == t.digest(b) ==> a == b)
  }

  predicate NoBar(s: string) { '|' !in s }

  // -- decimal numbers ---------------------------------------------------------------------

  function DigitChar(d: nat): char
    requires d < 10
  {
    ('0' as int + d) as char
  }

  function Decimal(n: nat): string {
    if n < 10 then [DigitChar(n)] else Decimal(n / 10) + [DigitChar(n % 10)]
  }

  function Signed(n: int): string {
    if n >= 0 then Decimal(n) else ['-'] + Decimal(-n)
  }

  function ValueOf(s: string): int {
    if s == "" then 0 else 10 * ValueOf(s[..|s| - 1]) + (s[|s| - 1] as int - '0' as int)
  }

  lemma {:induction false} DecimalValue(n: nat)
    ensures ValueOf(Decimal(n)) == n && NoBar(Decimal(n))
    ensures Decimal(n) != "" && '0' <= Decimal(n)[0] <= '9'
  {
    var s := Decimal(n);
    if n >= 10 {
      DecimalValue(n / 10);
      assert s[..|s| - 1] == Decimal(n / 10);
    } else {
      assert s[..|s| - 1] == "" && ValueOf("") == 0;
    }
  }

  /** Different numbers are written differently. */
  lemma SignedInjective(a: int, b: int)
    ensures Signed(a) == Signed(b) <==> a == b
    ensures NoBar(Signed(a))
  {
    DecimalValue(if a >= 0 then a else -a);
    DecimalValue(if b >= 0 then b else -b);
    if a < 0 && b < 0 && Signed(a) == Signed(b) {
      assert Signed(a)[1..] == Decimal(-a) && Signed(b)[1..] == Decimal(-b);
    }
  }

  // -- joining -------------------------------------------------------------------------------

  function JoinBars(fields: seq<string>): string {
    if fields == [] then "" else if |fields| == 1 then fields[0] else fields[0] + "|" + JoinBars(fields[1..])
  }

  /** The fields of a tail, each with the bar in front of it. */
  function Barred(fields: seq<string>): string {
    if fields == [] then "" else Barred(fields[..|fields| - 1]) + ("|" + fields[|fields| - 1])
  }

  lemma LastFieldRecovered(x: string, u: string, y: string, v: string)
    requires NoBar(u) && NoBar(v) && x + ("|" + u) == y + ("|" + v)
    ensures x == y && u == v
  {
    var s, t := x + ("|" + u), y + ("|" + v);
    assert s[|x|] == '|' && t[|y|] == '|';
    assert forall i :: |x| < i < |s| ==> s[i] == u[i - |x| - 1] && u[i - |x| - 1] in u;
    assert forall i :: |y| < i < |t| ==> t[i] == v[i - |y| - 1] && v[i - |y| - 1] in v;
    assert |x| == |y|;
    assert x == s[..|x|] && y == t[..|y|];
    assert u == s[|x| + 1..] && v == t[|y| + 1..];
  }

  /** Tails of equal length whose fields contain no bar are recovered from the right,
      whatever stands in front of them. */
  lemma {:induction false} TailRecovered(p: string, a: seq<string>, q: string, b: seq<string>)
    requires |a| == |b| && p + Barred(a) == q + Barred(b)
    requires forall i :: 0 <= i < |a| ==> NoBar(a[i]) && NoBar(b[i])
    ensures p == q && a == b
  {
    if a == [] {
      assert p + "" == p && q + "" == q;
    } else {
      var n := |a| - 1;
      var x, y := p + Barred(a[..n]), q + Barred(b[..n]);
      assert p + (Barred(a[..n]) + ("|" + a[n])) == x + ("|" + a[n]);
      assert q + (Barred(b[..n]) + ("|" + b[n])) == y + ("|" + b[n]);
      LastFieldRecovered(x, a[n], y, b[n]);
      TailRecovered(p, a[..n], q, b[..n]);
      assert a == a[..n] + [a[n]] && b == b[..n] + [b[n]];
    }
  }

  lemma Regroup(x: string, y: string, z: string)
    ensures (x + y) + z == x + (y + z)
  {
  }

  lemma {:induction false} BarredFront(x: string, rest: seq<string>)
    ensures Barred([x] + rest) == "|" + x + Barred(rest)
  {
    var all := [x] + rest;
    if rest == [] {
      assert all[..0] == [];
    } else {
      var n := |rest| - 1;
      assert all[..n + 1] == [x] + rest[..n] && all[n + 1] == rest[n];
      BarredFront(x, rest[..n]);
      Regroup("|" + x, Barred(rest[..n]), "|" + rest[n]);
    }
  }

  /** A join is its first field and its barred tail. */
  lemma {:induction false} JoinIsBarred(x: string, rest: seq<string>)
    ensures JoinBars([x] + rest) == x + Barred(rest)
    decreases |rest|
  {
    var all := [x] + rest;
    assert all[1..] == rest;
    if rest == [] {
      assert x + "" == x;
    } else {
      assert rest == [rest[0]] + rest[1..];
      JoinIsBarred(rest[0], rest[1..]);
      BarredFront(rest[0], rest[1..]);
      assert x + "|" + (rest[0] + Barred(rest[1..])) == x + ("|" + rest[0] + Barred(rest[1..]));
    }
  }

  // -- keys -----------------------------------------------------------------------------------

  /** The seven fields of a request that enter its key, as written. */
  function KeyedFields(t: Texts, r: SearchRequest): seq<string> {
    [r.origin, r.destination, t.date(r.departureDate), Payload.CabinText(r.cabin), Signed(r.maxStops), Signed(r.adults), r.currency]
  }

  function KeyText(t: Texts, c: Capabilities, r: SearchRequest): string {
    JoinBars([c.providerName, c.apiVersion] + KeyedFields(t, r))
  }

  function RawKey(t: Texts, c: Capabilities, r: SearchRequest): string { t.digest(KeyText(t, c, r)) }

  /** Airports and currencies are three capital letters, as the request's own types demand. */
  predicate Coded(r: SearchRequest) {
    Payload.Letters(r.origin, 3) && Payload.Letters(r.destination, 3) && Payload.Letters(r.currency, 3)
  }

  /** The same search as far as caching is concerned: all but the layover window. */
  predicate SameSearch(a: SearchRequest, b: SearchRequest) {
    a.(layoverMin := b.layoverMin, layoverMax := b.layoverMax) == b
  }

  lemma CabinsDiffer(a: Cabin, b: Cabin)
    ensures Payload.CabinText(a) == Payload.CabinText(b) <==> a == b
    ensures NoBar(Payload.CabinText(a))
  {
    Payload.CabinBack(a);
    Payload.CabinBack(b);
  }

  lemma KeyedFieldsIdentify(t: Texts, a: SearchRequest, b: SearchRequest)
    requires Faithful(t) && Coded(a) && Coded(b)
    ensures KeyedFields(t, a) == KeyedFields(t, b) <==> SameSearch(a, b)
    ensures forall i :: 0 <= i < 7 ==> NoBar(KeyedFields(t, a)[i])
  {
    CabinsDiffer(a.cabin, b.cabin);
    SignedInjective(a.maxStops, b.maxStops);
    SignedInjective(a.adults, b.adults);
    var f, g := KeyedFields(t, a), KeyedFields(t, b);
    if f == g {
      assert f[0] == g[0] && f[1] == g[1] && f[2] == g[2] && f[3] == g[3] && f[4] == g[4] && f[5] == g[5]
          && f[6] == g[6];
    }
  }

  /** How a provider enters the key. */
  function ProviderText(c: Capabilities): string { c.providerName + "|" + c.apiVersion }

  lemma KeyTextSplit(t: Texts, c: Capabilities, r: SearchRequest)
    ensures KeyText(t, c, r) == ProviderText(c) + Barred(KeyedFields(t, r))
  {
    hide Barred, JoinBars, KeyedFields;
    var f := KeyedFields(t, r);
    assert [c.providerName, c.apiVersion] + f == [c.providerName] + ([c.apiVersion] + f);
    JoinIsBarred(c.providerName, [c.apiVersion] + f);
    BarredFront(c.apiVersion, f);
    assert c.providerName + ("|" + c.apiVersion + Barred(f)) == ProviderText(c) + Barred(f);
  }

  /** Two searches share a raw key exactly when their providers enter it alike and they
      differ in nothing but the layover window. Names and versions may be any texts. */
  lemma KeysEqualIff(t: Texts, c: Capabilities, d: Capabilities, a: SearchRequest, b: SearchRequest)
    requires Faithful(t) && Coded(a) && Coded(b)
    ensures RawKey(t, c, a) == RawKey(t, d, b) <==> ProviderText(c) == ProviderText(d) && SameSearch(a, b)
  {
    hide Barred, KeyedFields, KeyText;
    var f, g := KeyedFields(t, a), KeyedFields(t, b);
    KeyTextSplit(t, c, a);
    KeyTextSplit(t, d, b);
    FieldCount(t, a);
    FieldCount(t, b);
    KeyedFieldsIdentify(t, a, b);
    KeyedFieldsIdentify(t, b, a);
    if RawKey(t, c, a) == RawKey(t, d, b) {
      TailRecovered(ProviderText(c), f, ProviderText(d), g);
    }
  }

  lemma FieldCount(t: Texts, r: SearchRequest)
    ensures |KeyedFields(t, r)| == 7
  {
  }

  // -- two runs in a row ------------------------------------------------------------------------

  /** The executor as the program wires it: real keys, the real codec, a provider of valid records. */
  ghost predicate Wired(t: Texts, cap: Capabilities, db: ZoneDb, c: Config) {
    && c.caching && c.codec == Payload.CodecFor(db)
    && |c.keys| == |c.tasks|
    && (forall i :: 0 <= i < |c.tasks| ==> Coded(c.tasks[i].request) && c.keys[i] == RawKey(t, cap, c.tasks[i].request))
    && (forall i: nat, k: nat :: c.provider(i, k).Success? ==> Payload.ValidResult(db, c.provider(i, k).result))
  }

  /** The plan asks for no search twice. */
  ghost predicate DistinctSearches(c: Config) {
    forall i, j :: 0 <= i < j < |c.tasks| ==> !SameSearch(c.tasks[i].request, c.tasks[j].request)
  }

  lemma KeysAreDistinct(t: Texts, cap: Capabilities, db: ZoneDb, c: Config)
    requires Faithful(t) && Wired(t, cap, db, c) && DistinctSearches(c)
    ensures Distinct(c.keys) && OwnKeys(c)
  {
    forall i, j | 0 <= i < j < |c.keys| ensures c.keys[i] != c.keys[j] {
      KeysEqualIff(t, cap, cap, c.tasks[i].request, c.tasks[j].request);
    }
  }

  /** From any cache: if what every key was left with is still live at the second clock, the
      second run, whatever its schedule, budget and provider, makes no provider call in
      any reachable state. */
  lemma SecondIdenticalRunIsFree(t: Texts, cap: Capabilities, db: ZoneDb, start: Table,
                                 c1: Config, sched1: seq<nat>, c2: Config, sched2: seq<nat>)
    requires Faithful(t) && Wired(t, cap, db, c1) && Wired(t, cap, db, c2) && c1.tasks == c2.tasks && DistinctSearches(c1)
    requires IsRun(c1, Init(c1, start), sched1) && Complete(Run(c1, Init(c1, start), sched1))
    requires forall i :: 0 <= i < |c1.tasks| ==> StillStored(c1, start, Run(c1, Init(c1, start), sched1), c2, i)
    requires IsRun(c2, Init(c2, Run(c1, Init(c1, start), sched1).table), sched2)
    ensures Run(c2, Init(c2, Run(c1, Init(c1, start), sched1).table), sched2).calls == 0
  {
    KeysAreDistinct(t, cap, db, c1);
    Payload.CodecIsFaithful(db, c1);
    Payload.CodecIsFaithful(db, c2);
    assert c1.keys == c2.keys;
    SecondRunIsFree(c1, start, sched1, c2, sched2);
  }

  /** And when it completes, every task is a hit with no attempt, with the first run's state
      and offers if that run answered it. From a cache that knew none of the searches, a
      task's entry is live exactly when it was answered within its own lifetime. */
  lemma SecondIdenticalRunRepeats(t: Texts, cap: Capabilities, db: ZoneDb, start: Table,
                                  c1: Config, sched1: seq<nat>, c2: Config, sched2: seq<nat>)
    requires Faithful(t) && Wired(t, cap, db, c1) && Wired(t, cap, db, c2) && c1.tasks == c2.tasks && DistinctSearches(c1)
    requires IsRun(c1, Init(c1, start), sched1) && Complete(Run(c1, Init(c1, start), sched1))
    requires forall i :: 0 <= i < |c1.tasks| ==> StillStored(c1, start, Run(c1, Init(c1, start), sched1), c2, i)
    requires IsRun(c2, Init(c2, Run(c1, Init(c1, start), sched1).table), sched2)
    requires Complete(Run(c2, Init(c2, Run(c1, Init(c1, start), sched1).table), sched2))
    ensures var s1 := Run(c1, Init(c1, start), sched1);
            var s2 := Run(c2, Init(c2, s1.table), sched2);
            forall i :: 0 <= i < |c1.tasks| ==>
              && s1.results[i].Some? && s2.results[i].Some?
              && s2.results[i].value.outcome.cache == Hit && s2.results[i].value.outcome.attempts == 0
              && (GotAnswer(s1, i) ==>
                    && s2.results[i].value.outcome.state == s1.results[i].value.outcome.state
                    && s2.results[i].value.offers == s1.results[i].value.offers)
              && (c1.keys[i] !in start ==> GotAnswer(s1, i))
  {
    hide Step, LeftBehind;
    KeysAreDistinct(t, cap, db, c1);
    Payload.CodecIsFaithful(db, c1);
    Payload.CodecIsFaithful(db, c2);
    assert c1.keys == c2.keys;
    SecondRunServes(c1, start, sched1, c2, sched2);
    var s1 := Run(c1, Init(c1, start), sched1);
    InitInv(c1, start);
    InitDecided(c1, start);
    RunDecided(c1, start, Init(c1, start), sched1);
    forall i | 0 <= i < |c1.tasks| && c1.keys[i] !in start ensures GotAnswer(s1, i) {
      assert LocalOk(c1, s1, i) && DecidedBy(c1, start, s1, i);
      ColdStored(c1, start, s1, c2, i);
    }
  }
}
