// scalarEscapes and hex4 of json.go, the meaning of the Go tokenizer, and the
// agreement of the Go and Python readers on every text.

module GoEscapes {
  import opened Common
  import opened JsonStrings
  import opened JsonText

  function HexByte(b: int): (v: Option<int>)
    ensures v.Some? ==> 0 <= v.value < 16
  {
    if 48 <= b <= 57 then Some(b - 48)
    else if 97 <= b <= 102 then Some(b - 97 + 10)
    else if 65 <= b <= 70 then Some(b - 65 + 10)
    else None
  }

  // The big-endian value of a run of hex digits.
  function HexRun(b: Bytes): (v: Option<int>)
  {
    if b == [] then Some(0)
    else
      var front, last := HexRun(b[..|b| - 1]), HexByte(b[|b| - 1]);
      if front.None? || last.None? then None else Some(front.value * 16 + last.value)
  }

  lemma {:induction false} HexRunBound(b: Bytes)
    requires |b| <= 4
    ensures HexRun(b).Some? ==> 0 <= HexRun(b).value
    ensures HexRun(b).Some? ==>
      HexRun(b).value < if |b| == 0 then 1 else if |b| == 1 then 16 else if |b| == 2 then 256
        else if |b| == 3 then 4096 else 65536
  {
    if b != [] { HexRunBound(b[..|b| - 1]); }
  }

  // hex4 shifts a 16-bit accumulator: four digits never lose a bit.
  method Hex4(b: Bytes) returns (r: Option<int>)
    requires |b| == 4
    ensures r == HexRun(b)
    ensures r.Some? ==> 0 <= r.value < 0x1_0000
  {
    var v: int := 0;
    for i := 0 to |b|
      invariant HexRun(b[..i]) == Some(v) && 0 <= v < 0x1_0000
      invariant i < 4 ==> v < 0x1000
    {
      assert b[..i + 1][..i] == b[..i];
      HexRunBound(b[..i]);
      HexRunBound(b[..i + 1]);
      var d := HexByte(b[i]);
      if d.None? {
        HexRunFails(b, i + 1);
        return None;
      }
      v := (v * 16) % 0x1_0000 + d.value;
    }
    assert b[..|b|] == b;
    return Some(v);
  }

  lemma {:induction false} HexRunFails(b: Bytes, n: nat)
    requires n <= |b| && HexRun(b[..n]).None?
    ensures HexRun(b).None?
    decreases |b| - n
  {
    if n < |b| {
      assert b[..n + 1][..n] == b[..n];
      HexRunFails(b, n + 1);
    } else {
      assert b[..n] == b;
    }
  }

  const BACKSLASH: int := 92
  const LETTER_U: int := 117

  predicate Marks(s: Bytes) { |s| >= 2 && s[0] == BACKSLASH && s[1] == LETTER_U }

  // Every \u escape is complete, and a surrogate one is half of an adjacent pair.
  // A backslash consumes the character after it.
  predicate EscapesOk(s: Bytes) {
    if s == [] then true
    else if s[0] != BACKSLASH then EscapesOk(s[1..])
    else if |s| < 2 then false
    else if s[1] != LETTER_U then EscapesOk(s[2..])
    else if |s| < 6 || HexRun(s[2..6]).None? then false
    else
      var u := HexRun(s[2..6]).value;
      if LowSurrogate(u) then false
      else if !HighSurrogate(u) then EscapesOk(s[6..])
      else
        |s| >= 12 && Marks(s[6..]) && HexRun(s[8..12]).Some? && LowSurrogate(HexRun(s[8..12]).value)
          && EscapesOk(s[12..])
  }

  method ScalarEscapes(raw: Bytes) returns (ok: bool)
    ensures ok <==> EscapesOk(raw)
  {
    var i := 0;
    while i < |raw|
      invariant 0 <= i <= |raw|
      invariant EscapesOk(raw[i..]) == EscapesOk(raw)
    {
      ghost var s := raw[i..];
      if raw[i] != BACKSLASH {
        assert s[1..] == raw[i + 1..];
        i := i + 1;
        continue;
      }
      i := i + 1;
      if i == |raw| {
        return false;
      }
      if raw[i] != LETTER_U {
        assert s[2..] == raw[i + 1..];
        i := i + 1;
        continue;
      }
      if i + 4 >= |raw| {
        return false;
      }
      assert s[2..6] == raw[i + 1..i + 5];
      var u := Hex4(raw[i + 1..i + 5]);
      if u.None? || LowSurrogate(u.value) {
        return false;
      }
      i := i + 4;
      if !HighSurrogate(u.value) {
        assert s[6..] == raw[i + 1..];
        i := i + 1;
        continue;
      }
      if i + 6 >= |raw| || raw[i + 1] != BACKSLASH || raw[i + 2] != LETTER_U {
        return false;
      }
      assert s[8..12] == raw[i + 3..i + 7];
      var low := Hex4(raw[i + 3..i + 7]);
      if low.None? || !LowSurrogate(low.value) {
        return false;
      }
      assert s[12..] == raw[i + 7..];
      i := i + 7;
    }
    ok := true;
  }

  // ---- On a document, that is exactly: every string is properly paired ----

  predicate AllPaired(j: Json)
    requires WellFormed(j)
    decreases j
  {
    match j
    case Str(body) => Paired(UnitValues(body))
    case Atom(_) => true
    case Node(o, _, es) => AllPairedEntries(o, es)
  }

  predicate AllPairedEntries(o: bool, es: Entries)
    requires WellFormedEntries(o, es)
    decreases es
  {
    match es
    case Nil => true
    case Cons(name, v, _, _, rest) =>
      (name.Key? ==> Paired(UnitValues(name.body))) && AllPaired(v) && AllPairedEntries(o, rest)
  }

  lemma {:induction false} SkipsPlain(w: Bytes, r: Bytes)
    requires BACKSLASH !in w
    ensures EscapesOk(w + r) == EscapesOk(r)
  {
    if w == [] {
      assert w + r == r;
    } else {
      assert (w + r)[1..] == w[1..] + r;
      SkipsPlain(w[1..], r);
    }
  }

  // Text without backslashes is skipped.
  lemma {:induction false} SkipsText(s: string, r: string)
    requires '\\' !in s
    ensures EscapesOk(Utf8(s + r)) == EscapesOk(Utf8(r))
  {
    if s == "" {
      assert s + r == r;
    } else {
      SkipsText(s[1..], r);
      assert (s + r)[1..] == s[1..] + r;
      assert s[0] in s;
      SkipsPlain(Utf8Point(s[0] as int), Utf8(s[1..] + r));
    }
  }

  lemma HexDigitsAreBytes(d: string)
    requires HexDigits(d)
    ensures |Utf8(d)| == 4 && HexRun(Utf8(d)) == Some(UnitValue(Hex(d)))
  {
    Utf8Ascii(d);
    var b := Utf8(d);
    assert b[..4] == b && b[..4][..3] == b[..3] && b[..3][..2] == b[..2] && b[..2][..1] == b[..1] && b[..1][..0] == [];
    assert HexRun(b[..1]) == Some(HexValue(d[0]));
    assert HexRun(b[..2]) == Some(HexValue(d[0]) * 16 + HexValue(d[1]));
    assert HexRun(b[..3]) == Some((HexValue(d[0]) * 16 + HexValue(d[1])) * 16 + HexValue(d[2]));
  }

  // The bytes of one printed unit.
  lemma UnitBytes(u: Unit, r: string)
    requires ValidUnit(u)
    ensures u.Plain? ==>
      Utf8(PrintUnit(u, r)) == Utf8Point(u.c as int) + Utf8(r) && BACKSLASH !in Utf8Point(u.c as int)
    ensures u.Short? ==>
      u.e as int < 128 && Utf8(PrintUnit(u, r)) == [BACKSLASH, u.e as int] + Utf8(r) && u.e as int != LETTER_U
    ensures u.Hex? ==>
      && |Utf8(u.digits)| == 4 && HexRun(Utf8(u.digits)) == Some(UnitValue(u))
      && Utf8(PrintUnit(u, r)) == [BACKSLASH, LETTER_U] + Utf8(u.digits) + Utf8(r)
  {
    match u
    case Plain(c) => assert PrintUnit(u, r)[1..] == r;
    case Short(e) =>
      Utf8Concat(['\\', e], r);
      Utf8Ascii(['\\', e]);
      assert Utf8(['\\', e]) == [BACKSLASH, e as int];
    case Hex(d) =>
      HexDigitsAreBytes(d);
      Utf8Concat("\\u", d + r);
      Utf8Concat(d, r);
      Utf8Ascii("\\u");
      assert Utf8("\\u") == [BACKSLASH, LETTER_U];
  }

  predicate Surrogate(p: int) { HighSurrogate(p) || LowSurrogate(p) }

  lemma PlainAndShortAreScalar(u: Unit)
    requires ValidUnit(u) && !u.Hex?
    ensures !Surrogate(UnitValue(u))
  {
  }

  // One unit that is not a high surrogate.
  lemma UnitStep(u: Unit, r: string)
    requires ValidUnit(u) && !HighSurrogate(UnitValue(u))
    ensures EscapesOk(Utf8(PrintUnit(u, r))) <==> !LowSurrogate(UnitValue(u)) && EscapesOk(Utf8(r))
  {
    UnitBytes(u, r);
    var b := Utf8(PrintUnit(u, r));
    match u
    case Plain(c) =>
      PlainAndShortAreScalar(u);
      SkipsPlain(Utf8Point(c as int), Utf8(r));
    case Short(e) =>
      PlainAndShortAreScalar(u);
      assert b[2..] == Utf8(r);
    case Hex(d) =>
      assert b[2..6] == Utf8(d) && b[6..] == Utf8(r);
  }

  // A high surrogate needs a low one right behind it.
  lemma HighStep(u: Unit, v: Unit, r: string)
    requires ValidUnit(u) && ValidUnit(v) && HighSurrogate(UnitValue(u))
    ensures EscapesOk(Utf8(PrintUnit(u, PrintUnit(v, r)))) <==> LowSurrogate(UnitValue(v)) && EscapesOk(Utf8(r))
  {
    var inner := PrintUnit(v, r);
    if !u.Hex? { PlainAndShortAreScalar(u); }
    UnitBytes(u, inner);
    UnitBytes(v, r);
    var b, c := Utf8(PrintUnit(u, inner)), Utf8(inner);
    assert b[2..6] == Utf8(u.digits) && b[6..] == c;
    if v.Hex? {
      assert c[2..6] == Utf8(v.digits) && c[6..] == Utf8(r);
      assert b[8..12] == c[2..6] && b[12..] == c[6..];
    } else {
      PlainAndShortAreScalar(v);
    }
  }

  lemma HighAtEnd(u: Unit, r: string)
    requires ValidUnit(u) && HighSurrogate(UnitValue(u)) && r != "" && r[0] == '"'
    ensures !EscapesOk(Utf8(PrintUnit(u, r)))
  {
    if !u.Hex? { PlainAndShortAreScalar(u); }
    UnitBytes(u, r);
    var b := Utf8(PrintUnit(u, r));
    assert b[2..6] == Utf8(u.digits) && b[6..] == Utf8(r);
    assert Utf8(r)[0] == 34;
  }

  lemma {:induction false} BodyStep(body: seq<Unit>, r: string)
    requires ValidBody(body) && r != "" && r[0] == '"'
    ensures EscapesOk(Utf8(PrintBody(body, r))) <==> Paired(UnitValues(body)) && EscapesOk(Utf8(r))
  {
    var v := UnitValues(body);
    if body != [] {
      var u := body[0];
      assert v[1..] == UnitValues(body[1..]);
      if !HighSurrogate(v[0]) {
        UnitStep(u, PrintBody(body[1..], r));
        BodyStep(body[1..], r);
      } else if |body| == 1 {
        HighAtEnd(u, r);
      } else {
        assert body[1..][1..] == body[2..] && v[2..] == UnitValues(body[2..]);
        HighStep(u, body[1], PrintBody(body[2..], r));
        BodyStep(body[2..], r);
      }
    }
  }

  lemma StringStep(body: seq<Unit>, r: string)
    requires ValidBody(body)
    ensures EscapesOk(Utf8(PrintString(body, r))) <==> Paired(UnitValues(body)) && EscapesOk(Utf8(r))
  {
    SkipsText("\"", PrintBody(body, ['"'] + r));
    BodyStep(body, ['"'] + r);
    SkipsText("\"", r);
  }

  lemma LabelStep(l: Label, r: string)
    requires l.Key? ==> ValidBody(l.body) && Space(l.before) && Space(l.gap)
    ensures EscapesOk(Utf8(PrintLabel(l, r))) <==> (l.Key? ==> Paired(UnitValues(l.body))) && EscapesOk(Utf8(r))
  {
    if l.Key? {
      StringStep(l.body, l.before + ([':'] + (l.gap + r)));
      SkipsText(l.before, [':'] + (l.gap + r));
      SkipsText(":", l.gap + r);
      SkipsText(l.gap, r);
    }
  }

  lemma ScalarStep(a: Scalar, r: string)
    requires WellFormedScalar(a)
    ensures EscapesOk(Utf8(PrintScalar(a, r))) == EscapesOk(Utf8(r))
  {
    match a
    case Literal(text) => SkipsText(text, r);
    case Number(minus, whole, fraction, mark, exponent) =>
      var r3 := exponent + r;
      var r2 := mark + r3;
      var dot := if fraction == "" then "" else ['.'] + fraction;
      SkipsText(exponent, r);
      SkipsText(mark, r3);
      SkipsText(dot, r2);
      SkipsText(whole, dot + r2);
      SkipsText("-", whole + (dot + r2));
  }

  // The lemma the agreement rests on: over a printed value the byte scan accepts
  // exactly when every string in it is encodable.
  lemma {:induction false} EscapesOfPrint(j: Json, r: string)
    requires WellFormed(j)
    ensures EscapesOk(Utf8(Print(j, r))) <==> AllPaired(j) && EscapesOk(Utf8(r))
    decreases j
  {
    match j
    case Str(body) => StringStep(body, r);
    case Atom(a) => ScalarStep(a, r);
    case Node(o, pad, es) =>
      var tail := [Closing(o)] + r;
      SkipsText([Opening(o)], pad + PrintEntries(es, tail));
      SkipsText(pad, PrintEntries(es, tail));
      EscapesOfEntries(o, es, tail);
      SkipsText([Closing(o)], r);
  }

  lemma {:induction false} EscapesOfEntries(o: bool, es: Entries, r: string)
    requires WellFormedEntries(o, es)
    ensures EscapesOk(Utf8(PrintEntries(es, r))) <==> AllPairedEntries(o, es) && EscapesOk(Utf8(r))
    decreases es
  {
    if es.Cons? {
      var more := es.next + PrintEntries(es.rest, r);
      var tail := if es.rest.Nil? then r else [','] + more;
      LabelStep(es.name, Print(es.value, es.after + tail));
      EscapesOfPrint(es.value, es.after + tail);
      SkipsText(es.after, tail);
      if es.rest.Cons? {
        SkipsText(",", more);
        SkipsText(es.next, PrintEntries(es.rest, r));
      }
      EscapesOfEntries(o, es.rest, r);
    }
  }

  lemma EscapesOfDocument(d: Document)
    requires WellFormedDocument(d)
    ensures EscapesOk(Utf8(PrintDocument(d))) <==> AllPaired(d.root)
  {
    SkipsText(d.lead, Print(d.root, d.trail));
    EscapesOfPrint(d.root, d.trail);
    assert d.trail + "" == d.trail;
    SkipsText(d.trail, "");
  }
}

module ReadersAgree {
  import opened Common
  import opened JsonStrings
  import opened JsonText
  import opened JsonTree
  import opened GoEscapes
  import opened GoTokens
  import GoReader
  import R = JsonRules

  // The tree the Go decoder presents: unpaired surrogates replaced.
  function GoTree(j: Json): R.Tree
    requires WellFormed(j)
    decreases j
  {
    match j
    case Str(body) => R.Text(JoinReplacing(UnitValues(body)))
    case Atom(_) => R.Scalar
    case Node(o, _, es) => R.Branch(o, GoKids(o, es))
  }

  function GoKids(o: bool, es: Entries): R.Kids
    requires WellFormedEntries(o, es)
    decreases es
  {
    match es
    case Nil => R.Nil
    case Cons(name, v, _, _, rest) =>
      R.Kid(if name.Key? then Some(JoinReplacing(UnitValues(name.body))) else None, GoTree(v), GoKids(o, rest))
  }

  // The RFC 8259 meaning of encoding/json's decoder on a text: a document gives its
  // tokens and a clean end, and a clean end after a whole value means a document.
  ghost predicate Tokenizes(text: string, s: Stream) {
    && (forall d :: WellFormedDocument(d) && PrintDocument(d) == text ==>
          s.clean && s.tokens == Put(GoTree(d.root), []))
    && (s.clean && (exists t :: R.Shaped(t) && s.tokens == Put(t, [])) ==>
          exists d :: WellFormedDocument(d) && PrintDocument(d) == text)
  }

  lemma {:induction false} PairedTreesAgree(j: Json)
    requires WellFormed(j)
    ensures AllPaired(j) ==> GoTree(j) == TreeOf(j)
    ensures !AllPaired(j) ==> forall l: R.Limits, depth: int, p: R.Progress :: R.Check(l, TreeOf(j), depth, p).None?
    decreases j
  {
    match j
    case Str(body) => PairedIsEncodable(UnitValues(body));
    case Atom(_) =>
    case Node(o, _, es) => PairedKidsAgree(o, es);
  }

  lemma {:induction false} PairedKidsAgree(o: bool, es: Entries)
    requires WellFormedEntries(o, es)
    ensures AllPairedEntries(o, es) ==> GoKids(o, es) == KidsOf(o, es)
    ensures !AllPairedEntries(o, es) ==>
      forall l: R.Limits, depth: int, seen: set<Points>, p: R.Progress ::
        R.CheckKids(l, KidsOf(o, es), depth, seen, p).None?
    decreases es
  {
    if es.Cons? {
      if es.name.Key? { PairedIsEncodable(UnitValues(es.name.body)); }
      PairedTreesAgree(es.value);
      PairedKidsAgree(o, es.rest);
    }
  }

  // The Go reader: the byte scan, then the token walk.
  function GoEventId(l: R.Limits, text: string, s: Stream): Option<Points> {
    if EscapesOk(Utf8(text)) then StreamId(l, s) else None
  }

  // On every text, whatever the decoder does with malformed input, the Go reader and
  // the Python reader return the same event_id or both refuse.
  lemma GoAndPythonAgree(l: R.Limits, text: string, s: Stream)
    requires Tokenizes(text, s)
    ensures GoEventId(l, text, s) == EventIdOf(l, text)
  {
    if exists d :: WellFormedDocument(d) && PrintDocument(d) == text {
      var d :| WellFormedDocument(d) && PrintDocument(d) == text;
      ReadDocumentIsInverse(text, d);
      EscapesOfDocument(d);
      PairedTreesAgree(d.root);
      GoTreeIsShaped(d.root);
      TakePut(GoTree(d.root), []);
    } else {
      if ReadDocument(text).Some? {
        ReadDocumentIsInverse(text, ReadDocument(text).value);
      }
      if StreamId(l, s).Some? { TakeSound(s.tokens); }
    }
  }

  lemma {:induction false} GoTreeIsShaped(j: Json)
    requires WellFormed(j)
    ensures R.Shaped(GoTree(j))
    decreases j
  {
    if j.Node? { GoKidsAreShaped(j.object_, j.entries); }
  }

  lemma {:induction false} GoKidsAreShaped(o: bool, es: Entries)
    requires WellFormedEntries(o, es)
    ensures R.ShapedKids(o, GoKids(o, es))
    decreases es
  {
    if es.Cons? {
      GoTreeIsShaped(es.value);
      GoKidsAreShaped(o, es.rest);
    }
  }

  // eventID of json.go as a whole: it computes the Python reader's answer.
  method EventId(l: R.Limits, text: string, s: Stream) returns (id: Option<Points>)
    requires R.ValidLimits(l) && Encodable(s.tokens) && Tokenizes(text, s)
    ensures id == EventIdOf(l, text)
  {
    GoAndPythonAgree(l, text, s);
    var scalar := ScalarEscapes(Utf8(text));
    if !scalar {
      return None;
    }
    var walker := new GoReader.Walker(s, l);
    id := walker.EventId();
  }

  // ---- The placement decoder's walk, on texts ----

  ghost predicate StrictText(text: string, lower: GoReader.Lowering) {
    exists d :: WellFormedDocument(d) && PrintDocument(d) == text && Shallow(lower, GoTree(d.root))
  }

  // Lower-case unique names at every level and at most eight levels below the root.
  ghost predicate Shallow(lower: GoReader.Lowering, t: R.Tree) {
    GoReader.Unambiguous(lower, t) && GoReader.Height(t) <= 8
  }

  lemma StrictStreamsAreTexts(text: string, s: Stream, lower: GoReader.Lowering)
    requires Tokenizes(text, s)
    ensures
      StrictText(text, lower) <==>
      s.clean && exists t :: R.Shaped(t) && s.tokens == Put(t, []) && GoReader.Strict(lower, t, 0)
  {
    assert forall t :: Shallow(lower, t) <==> GoReader.Strict(lower, t, 0);
    forall d | WellFormedDocument(d) && PrintDocument(d) == text
      ensures s.clean && R.Shaped(GoTree(d.root)) && s.tokens == Put(GoTree(d.root), [])
      ensures forall t :: R.Shaped(t) && s.tokens == Put(t, []) ==> t == GoTree(d.root)
    {
      GoTreeIsShaped(d.root);
      forall t | R.Shaped(t) && s.tokens == Put(t, []) ensures t == GoTree(d.root) {
        TakePut(t, []);
        TakePut(GoTree(d.root), []);
      }
    }
  }

  // strictDecode up to the typed decoder: of all byte strings it lets through exactly the
  // UTF-8 texts of one JSON value with lower-case unique names and at most eight levels.
  method StrictDecodeText(text: Option<string>, s: Stream, lower: GoReader.Lowering) returns (ok: bool)
    requires text.Some? ==> Tokenizes(text.value, s)
    ensures ok <==> text.Some? && StrictText(text.value, lower)
  {
    if text.None? {
      return false;
    }
    StrictStreamsAreTexts(text.value, s, lower);
    var walker := new GoReader.StrictWalker(s, lower);
    ok := walker.StrictDecode();
  }
}
