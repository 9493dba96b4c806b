// Header selection in both languages: the one() helpers of signing/signature.go and
// signature.py, and the selection loop of receiving/event.go.

module HeaderFields {
  import opened Common
  import opened JsonStrings

  // net/http keeps a value list per name; Python keeps the pairs as received.
  type GoHeader = map<string, seq<string>>
  type Pairs = seq<(string, string)>

  predicate GoNamed(k: string, name: string) { EqualFold(PointsOf(k), PointsOf(name)) }

  predicate PyNamed(k: string, name: string) { PyLower(PointsOf(k)) == PyLower(PointsOf(name)) }

  // A header name is ASCII.
  predicate HeaderName(name: string) {
    forall i :: 0 <= i < |name| ==> name[i] as int < 128
  }

  lemma {:induction false} LowerOfAscii(ps: Points)
    requires forall i :: 0 <= i < |ps| ==> ps[i] < 128
    ensures |PyLower(ps)| == |ps| && LowerAscii(PyLower(ps))
    ensures forall i :: 0 <= i < |ps| ==> PyLower(ps)[i] == GoFold(ps[i]) == GoFold(PyLower(ps)[i])
  {
    if ps != [] {
      LowerOfAscii(ps[1..]);
      var t := PyLower(ps[1..]);
      assert PyLower(ps) == LowerPoint(ps[0]) + t;
      assert forall i :: 1 <= i < |ps| ==> ps[i] == ps[1..][i - 1] && PyLower(ps)[i] == t[i - 1];
    }
  }

  // Python's comparison of header names is Go's without U+017F.
  lemma NamingsAgree(k: string, name: string)
    requires HeaderName(name)
    ensures PyNamed(k, name) <==> GoNamed(k, name) && !HasLongS(PointsOf(k))
  {
    var ps, ns := PointsOf(k), PointsOf(name);
    LowerOfAscii(ns);
    FoldingsAgree(ps, PyLower(ns));
    assert EqualFold(ps, PyLower(ns)) <==> EqualFold(ps, ns) by {
      if |ps| == |ns| {
        assert forall i :: 0 <= i < |ns| ==> GoFold(PyLower(ns)[i]) == GoFold(ns[i]);
      }
    }
  }

  // ---- Go: a value list per name ----

  // Exactly one value over all spellings of the name.
  ghost predicate GoSingle(h: GoHeader, name: string, v: string) {
    exists k ::
      && k in h && GoNamed(k, name) && h[k] == [v]
      && forall j :: j in h && j != k && GoNamed(j, name) ==> h[j] == []
  }

  lemma SingleIsUnique(h: GoHeader, name: string, v: string, w: string)
    requires GoSingle(h, name, v) && GoSingle(h, name, w)
    ensures v == w
  {
    var k :| k in h && GoNamed(k, name) && h[k] == [v]
      && forall j :: j in h && j != k && GoNamed(j, name) ==> h[j] == [];
    var i :| i in h && GoNamed(i, name) && h[i] == [w]
      && forall j :: j in h && j != i && GoNamed(j, name) ==> h[j] == [];
    assert i == k;
  }

  ghost function GoPick(h: GoHeader, name: string): (r: Option<string>)
    ensures r.Some? ==> GoSingle(h, name, r.value)
    ensures r.None? ==> forall v :: !GoSingle(h, name, v)
  {
    if exists v :: GoSingle(h, name, v) then
      var v :| GoSingle(h, name, v);
      Some(v)
    else None
  }

  ghost predicate NoneIn(h: GoHeader, keys: set<string>, name: string) {
    forall j :: j in keys && j in h && GoNamed(j, name) ==> h[j] == []
  }

  ghost predicate OneIn(h: GoHeader, keys: set<string>, name: string, v: string) {
    exists k ::
      && k in keys && k in h && GoNamed(k, name) && h[k] == [v]
      && forall j :: j in keys && j in h && j != k && GoNamed(j, name) ==> h[j] == []
  }

  // one of signature.go: count the values of every matching key, in any order.
  method One(h: GoHeader, name: string) returns (value: string, ok: bool)
    ensures GoPick(h, name) == if ok then Some(value) else None
  {
    value := "";
    var count: nat := 0;
    var rest := h.Keys;
    while rest != {}
      invariant rest <= h.Keys
      invariant count == 0 <==> NoneIn(h, h.Keys - rest, name)
      invariant count == 1 <==> exists v :: OneIn(h, h.Keys - rest, name, v)
      invariant count == 1 ==> OneIn(h, h.Keys - rest, name, value)
      decreases rest
    {
      var k :| k in rest;
      ghost var done := h.Keys - rest;
      assert h.Keys - (rest - {k}) == done + {k};
      CountStep(h, done, k, name);
      rest := rest - {k};
      if GoNamed(k, name) {
        count := count + |h[k]|;
        if |h[k]| > 0 { value := h[k][0]; }
        assert |h[k]| == 1 ==> h[k] == [h[k][0]];
      }
      assert count == 1 ==> OneIn(h, done + {k}, name, value);
      assert forall v :: OneIn(h, done + {k}, name, v) ==> count == 1;
    }
    assert h.Keys - rest == h.Keys;
    ok := count == 1;
    forall v ensures OneIn(h, h.Keys, name, v) <==> GoSingle(h, name, v) { SingleIsOne(h, name, v); }
    if ok { SingleIsUnique(h, name, value, GoPick(h, name).value); }
  }

  lemma SingleIsOne(h: GoHeader, name: string, v: string)
    ensures OneIn(h, h.Keys, name, v) <==> GoSingle(h, name, v)
  {
    if OneIn(h, h.Keys, name, v) {
      var k :| k in h.Keys && k in h && GoNamed(k, name) && h[k] == [v]
        && forall j :: j in h.Keys && j in h && j != k && GoNamed(j, name) ==> h[j] == [];
      assert forall j :: j in h && j != k && GoNamed(j, name) ==> j in h.Keys;
    }
    if GoSingle(h, name, v) {
      var k :| k in h && GoNamed(k, name) && h[k] == [v]
        && forall j :: j in h && j != k && GoNamed(j, name) ==> h[j] == [];
      assert k in h.Keys;
    }
  }

  lemma CountStep(h: GoHeader, done: set<string>, k: string, name: string)
    requires k in h && k !in done
    ensures !GoNamed(k, name) || h[k] == [] ==>
      && (NoneIn(h, done + {k}, name) <==> NoneIn(h, done, name))
      && forall v :: OneIn(h, done + {k}, name, v) <==> OneIn(h, done, name, v)
    ensures GoNamed(k, name) && h[k] != [] ==>
      && !NoneIn(h, done + {k}, name)
      && forall v :: OneIn(h, done + {k}, name, v) <==> h[k] == [v] && NoneIn(h, done, name)
  {
    forall v
      ensures !GoNamed(k, name) || h[k] == [] ==> (OneIn(h, done + {k}, name, v) <==> OneIn(h, done, name, v))
      ensures GoNamed(k, name) && h[k] != [] ==>
        (OneIn(h, done + {k}, name, v) <==> h[k] == [v] && NoneIn(h, done, name))
    {
      if OneIn(h, done + {k}, name, v) {
        var i :| i in done + {k} && i in h && GoNamed(i, name) && h[i] == [v]
          && forall j :: j in done + {k} && j in h && j != i && GoNamed(j, name) ==> h[j] == [];
        assert k in done + {k} && forall j :: j in done ==> j in done + {k};
      }
      if OneIn(h, done, name, v) {
        var i :| i in done && i in h && GoNamed(i, name) && h[i] == [v]
          && forall j :: j in done && j in h && j != i && GoNamed(j, name) ==> h[j] == [];
        assert i in done + {k};
      }
      if GoNamed(k, name) && h[k] == [v] && NoneIn(h, done, name) { assert k in done + {k}; }
    }
    assert forall j :: j in done ==> j in done + {k};
    assert k in done + {k};
  }

  // The only spelling of the name, with one value of at most 256 bytes.
  ghost predicate Sole(h: GoHeader, name: string, v: string) {
    && (exists k :: k in h && GoNamed(k, name) && h[k] == [v] && forall j :: j in h && GoNamed(j, name) ==> j == k)
    && |Utf8(v)| <= 256
  }

  ghost function SolePick(h: GoHeader, name: string): (r: Option<string>)
    ensures r.Some? ==> Sole(h, name, r.value)
    ensures r.None? ==> forall v :: !Sole(h, name, v)
  {
    if exists v :: Sole(h, name, v) then
      var v :| Sole(h, name, v);
      Some(v)
    else None
  }

  // The inner loop of VerifyEvent in event.go.
  method SelectSole(h: GoHeader, name: string) returns (r: Option<string>)
    ensures r == SolePick(h, name)
  {
    r := None;
    var rest := h.Keys;
    ghost var at: string := "";
    while rest != {}
      invariant rest <= h.Keys
      invariant r.None? ==> forall j :: j in h.Keys - rest ==> !GoNamed(j, name)
      invariant r.Some? ==>
        && at in h.Keys - rest && GoNamed(at, name) && h[at] == [r.value] && |Utf8(r.value)| <= 256
        && forall j :: j in h.Keys - rest && GoNamed(j, name) ==> j == at
      decreases rest
    {
      var k :| k in rest;
      rest := rest - {k};
      if GoNamed(k, name) {
        if |h[k]| != 1 || |Utf8(h[k][0])| > 256 || r.Some? {
          assert forall v :: !Sole(h, name, v);
          return None;
        }
        assert h[k] == [h[k][0]];
        r, at := Some(h[k][0]), k;
      }
    }
    if r.Some? {
      assert Sole(h, name, r.value);
      assert forall v :: Sole(h, name, v) ==> h[at] == [v];
    }
  }

  // ---- The values of a name in the pairs, by either comparison ----

  // GoOnly: names that only Go takes for the name.
  datatype Rule = Go | Python | GoOnly

  predicate Named(rule: Rule, k: string, name: string) {
    match rule
    case Go => GoNamed(k, name)
    case Python => PyNamed(k, name)
    case GoOnly => GoNamed(k, name) && !PyNamed(k, name)
  }

  function Values(rule: Rule, pairs: Pairs, name: string): seq<string> {
    if pairs == [] then []
    else
      var front, last := Values(rule, pairs[..|pairs| - 1], name), Last(pairs);
      if Named(rule, last.0, name) then front + [last.1] else front
  }

  lemma ValuesOfOne(rule: Rule, k: string, v: string, name: string)
    ensures Values(rule, [(k, v)], name) == if Named(rule, k, name) then [v] else []
  {
    assert [(k, v)][..0] == [];
    assert Values(rule, [], name) == [];
  }

  lemma {:induction false} ValuesConcat(rule: Rule, a: Pairs, b: Pairs, name: string)
    ensures Values(rule, a + b, name) == Values(rule, a, name) + Values(rule, b, name)
    decreases |b|
  {
    if b == [] {
      assert a + b == a;
    } else {
      var front := b[..|b| - 1];
      ValuesConcat(rule, a, front, name);
      assert (a + b)[..|a + b| - 1] == a + front && Last(a + b) == Last(b);
    }
  }

  // one of signature.py.
  function PyPick(pairs: Pairs, name: string): Option<string> {
    var values := Values(Python, pairs, name);
    if |values| != 1 then None else Some(values[0])
  }

  lemma {:induction false} ValuesAdd(pairs: Pairs, name: string)
    requires HeaderName(name)
    ensures |Values(Go, pairs, name)| == |Values(Python, pairs, name)| + |Values(GoOnly, pairs, name)|
    ensures Values(GoOnly, pairs, name) == [] ==> Values(Go, pairs, name) == Values(Python, pairs, name)
  {
    if pairs != [] {
      ValuesAdd(pairs[..|pairs| - 1], name);
      NamingsAgree(Last(pairs).0, name);
    }
  }

  // The pairs as net/http files them.
  function Group(pairs: Pairs): GoHeader {
    if pairs == [] then map[]
    else
      var h, last := Group(pairs[..|pairs| - 1]), Last(pairs);
      h[last.0 := (if last.0 in h then h[last.0] else []) + [last.1]]
  }

  lemma {:induction false} GroupsAreFilled(pairs: Pairs)
    ensures forall k :: k in Group(pairs) ==> Group(pairs)[k] != []
    ensures |Group(pairs)| <= |pairs|
  {
    if pairs != [] { GroupsAreFilled(pairs[..|pairs| - 1]); }
  }

  ghost predicate NoneNamed(h: GoHeader, name: string) {
    forall j :: j in h ==> !GoNamed(j, name)
  }

  // Go finds in the filed pairs exactly the single value over all of Go's spellings.
  lemma {:induction false} GroupedValues(pairs: Pairs, name: string, v: string)
    ensures Values(Go, pairs, name) == [] <==> NoneNamed(Group(pairs), name)
    ensures Values(Go, pairs, name) == [v] <==> GoSingle(Group(pairs), name, v)
  {
    if pairs != [] {
      var front, last := pairs[..|pairs| - 1], Last(pairs);
      GroupedValues(front, name, v);
      GroupsAreFilled(front);
      var f, g := Group(front), Group(pairs);
      assert last.0 in g;
      if !GoNamed(last.0, name) {
        OtherHeaderAdded(f, g, last.0, name, v);
      } else {
        SameHeaderAdded(f, last, name, v);
      }
    }
  }

  lemma OtherHeaderAdded(f: GoHeader, g: GoHeader, k: string, name: string, v: string)
    requires !GoNamed(k, name) && g.Keys == f.Keys + {k} && forall j :: j in f && j != k ==> g[j] == f[j]
    ensures NoneNamed(g, name) <==> NoneNamed(f, name)
    ensures GoSingle(g, name, v) <==> GoSingle(f, name, v)
  {
    if GoSingle(g, name, v) {
      var i :| i in g && GoNamed(i, name) && g[i] == [v]
        && forall j :: j in g && j != i && GoNamed(j, name) ==> g[j] == [];
      assert i in f && forall j :: j in f ==> j in g;
    }
    if GoSingle(f, name, v) {
      var i :| i in f && GoNamed(i, name) && f[i] == [v]
        && forall j :: j in f && j != i && GoNamed(j, name) ==> f[j] == [];
      assert i in g;
    }
    if NoneNamed(g, name) { assert forall j :: j in f ==> j in g; }
  }

  lemma SameHeaderAdded(f: GoHeader, last: (string, string), name: string, v: string)
    requires GoNamed(last.0, name) && forall k :: k in f ==> f[k] != []
    ensures
      var g := f[last.0 := (if last.0 in f then f[last.0] else []) + [last.1]];
      !NoneNamed(g, name) && (GoSingle(g, name, v) <==> NoneNamed(f, name) && last.1 == v)
  {
    var g := f[last.0 := (if last.0 in f then f[last.0] else []) + [last.1]];
    assert last.0 in g;
    if GoSingle(g, name, v) {
      var i :| i in g && GoNamed(i, name) && g[i] == [v]
        && forall j :: j in g && j != i && GoNamed(j, name) ==> g[j] == [];
      assert i == last.0 && |g[last.0]| == 1;
      assert last.0 !in f;
      assert forall j :: j in f ==> j in g && g[j] == f[j];
    }
    if NoneNamed(f, name) {
      assert last.0 !in f && g[last.0] == [last.1];
    }
  }

  lemma GoPickIs(pairs: Pairs, name: string)
    ensures GoPick(Group(pairs), name) ==
      var values := Values(Go, pairs, name);
      if |values| != 1 then None else Some(values[0])
  {
    var values, r := Values(Go, pairs, name), GoPick(Group(pairs), name);
    if |values| == 1 {
      assert values == [values[0]];
      GroupedValues(pairs, name, values[0]);
    }
    if r.Some? { GroupedValues(pairs, name, r.value); }
  }

  // ---- When the two languages find the same value ----

  // n values by Python's names and x more that only Go takes for the name: one side
  // sees a single value and the other does not.
  predicate Divided(pairs: Pairs, name: string) {
    var n, x := |Values(Python, pairs, name)|, |Values(GoOnly, pairs, name)|;
    (n == 1 && x > 0) || (n == 0 && x == 1)
  }

  lemma HeadersAgree(pairs: Pairs, name: string)
    requires HeaderName(name)
    ensures GoPick(Group(pairs), name) == PyPick(pairs, name) <==> !Divided(pairs, name)
  {
    ValuesAdd(pairs, name);
    GoPickIs(pairs, name);
  }

  predicate WithoutS(name: string) {
    forall i :: 0 <= i < |name| ==> name[i] != 's' && name[i] != 'S'
  }

  // A name without an s never divides them.
  lemma {:induction false} UndividedWithoutS(pairs: Pairs, name: string)
    requires HeaderName(name) && WithoutS(name)
    ensures Values(GoOnly, pairs, name) == [] && !Divided(pairs, name)
  {
    if pairs != [] {
      UndividedWithoutS(pairs[..|pairs| - 1], name);
      var k := Last(pairs).0;
      NamingsAgree(k, name);
      assert forall i :: 0 <= i < |name| ==> GoFold(PointsOf(name)[i]) != 115;
    }
  }

  function LongSpelling(name: string, i: nat): string
    requires i < |name|
  {
    name[i := '\U{017F}']
  }

  // Every name with an s does, both ways: beside the name, its spelling with U+017F
  // hides the value from Go; alone, it is a value for Go only.
  lemma HeadersDisagreeAtLongS(name: string, i: nat, v: string, w: string)
    requires HeaderName(name) && i < |name| && name[i] in {'s', 'S'}
    ensures
      var both := [(name, v), (LongSpelling(name, i), w)];
      GoPick(Group(both), name) == None && PyPick(both, name) == Some(v)
    ensures
      var alone := [(LongSpelling(name, i), w)];
      GoPick(Group(alone), name) == Some(w) && PyPick(alone, name) == None
  {
    var long := LongSpelling(name, i);
    var both, alone := [(name, v), (long, w)], [(long, w)];
    assert PointsOf(long)[i] == LONG_S && HasLongS(PointsOf(long));
    assert GoNamed(long, name) by { SpellingIsNamed(name, i); }
    assert GoNamed(name, name) && PyNamed(name, name);
    NamingsAgree(long, name);
    forall rule
      ensures Values(rule, both, name) == Values(rule, [(name, v)], name) + Values(rule, alone, name)
      ensures Values(rule, [(name, v)], name) == if Named(rule, name, name) then [v] else []
      ensures Values(rule, alone, name) == if Named(rule, long, name) then [w] else []
    {
      assert both == [(name, v)] + alone;
      ValuesConcat(rule, [(name, v)], alone, name);
      ValuesOfOne(rule, name, v, name);
      ValuesOfOne(rule, long, w, name);
    }
    assert Values(Python, both, name) == [v] && |Values(Go, both, name)| == 2;
    GoPickIs(both, name);
    GoPickIs(alone, name);
  }

  lemma SpellingIsNamed(name: string, i: nat)
    requires i < |name| && name[i] in {'s', 'S'}
    ensures GoNamed(LongSpelling(name, i), name)
  {
    var ps, ns := PointsOf(LongSpelling(name, i)), PointsOf(name);
    forall j | 0 <= j < |ns| ensures GoFold(ps[j]) == GoFold(ns[j]) {
      if j != i { assert ps[j] == ns[j]; }
    }
  }

  // Filed pairs have no empty lists, so the stricter selection differs by its size bound.
  lemma SoleInGroups(pairs: Pairs, name: string)
    ensures SolePick(Group(pairs), name) ==
      var r := GoPick(Group(pairs), name);
      if r.Some? && |Utf8(r.value)| <= 256 then r else None
  {
    var h := Group(pairs);
    var r, q := SolePick(h, name), GoPick(h, name);
    GroupsAreFilled(pairs);
    if q.Some? && |Utf8(q.value)| <= 256 {
      assert Sole(h, name, q.value) by {
        var k :| k in h && GoNamed(k, name) && h[k] == [q.value]
          && forall j :: j in h && j != k && GoNamed(j, name) ==> h[j] == [];
        assert forall j :: j in h && GoNamed(j, name) ==> j == k;
      }
    }
    if r.Some? {
      assert GoSingle(h, name, r.value);
      SingleIsUnique(h, name, r.value, q.value);
    }
  }
}
