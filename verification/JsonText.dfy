// RFC 8259 documents as concrete trees: every character of the text is in the tree,
// so printing is exact and reading is its inverse.

module JsonText {
  import opened Common
  import opened JsonStrings
  import opened Names

  // A container keeps the padding after its bracket; an entry the padding after its
  // value and, when another entry follows, after the comma.
  datatype Json =
    | Str(body: seq<Unit>)
    | Atom(atom: Scalar)
    | Node(object_: bool, pad: string, entries: Entries)

  datatype Entries = Nil | Cons(name: Label, value: Json, after: string, next: string, rest: Entries)

  // mark is the exponent letter with its optional sign; "" means no such part.
  datatype Scalar =
    | Literal(text: string)
    | Number(minus: bool, whole: string, fraction: string, mark: string, exponent: string)

  datatype Label = NoLabel | Key(body: seq<Unit>, before: string, gap: string)

  datatype Document = Document(lead: string, root: Json, trail: string)

  // ---- Printing, in front of the text r that follows ----

  function Opening(object_: bool): char { if object_ then '{' else '[' }

  function Closing(object_: bool): char { if object_ then '}' else ']' }

  function PrintString(body: seq<Unit>, r: string): string {
    ['"'] + PrintBody(body, ['"'] + r)
  }

  function PrintLabel(l: Label, r: string): string {
    match l
    case NoLabel => r
    case Key(body, before, gap) => PrintString(body, before + ([':'] + (gap + r)))
  }

  function PrintScalar(a: Scalar, r: string): string {
    match a
    case Literal(text) => text + r
    case Number(minus, whole, fraction, mark, exponent) =>
      var tail := whole + ((if fraction == "" then "" else ['.'] + fraction) + (mark + (exponent + r)));
      if minus then ['-'] + tail else tail
  }

  function Print(j: Json, r: string): string
    decreases j
  {
    match j
    case Str(body) => PrintString(body, r)
    case Atom(atom) => PrintScalar(atom, r)
    case Node(o, pad, entries) => [Opening(o)] + (pad + PrintEntries(entries, [Closing(o)] + r))
  }

  function PrintEntries(es: Entries, r: string): string
    decreases es
  {
    match es
    case Nil => r
    case Cons(l, v, after, next, rest) =>
      PrintLabel(l, Print(v, after + (if rest.Nil? then r else [','] + (next + PrintEntries(rest, r)))))
  }

  function PrintDocument(d: Document): string { d.lead + Print(d.root, d.trail) }

  // ---- The grammar ----

  predicate IsSpace(c: char) { c in {' ', '\t', '\r', '\n'} }

  predicate Space(s: string) {
    forall i :: 0 <= i < |s| ==> s[i] == ' ' || s[i] == '\t' || s[i] == '\r' || s[i] == '\n'
  }

  predicate WellFormed(j: Json)
    decreases j
  {
    match j
    case Str(body) => ValidBody(body)
    case Atom(atom) => WellFormedScalar(atom)
    case Node(o, pad, entries) => Space(pad) && WellFormedEntries(o, entries)
  }

  predicate WellFormedEntries(o: bool, es: Entries)
    decreases es
  {
    match es
    case Nil => true
    case Cons(l, v, after, next, rest) =>
      && l.Key? == o && (l.Key? ==> ValidBody(l.body) && Space(l.before) && Space(l.gap))
      && WellFormed(v) && Space(after) && Space(next) && (rest.Nil? ==> next == "")
      && WellFormedEntries(o, rest)
  }

  predicate WellFormedDocument(d: Document) {
    Space(d.lead) && WellFormed(d.root) && Space(d.trail)
  }

  predicate Digits(s: string) { forall i :: 0 <= i < |s| ==> Digit(s[i]) }

  // "", or e or E with an optional sign.
  predicate ExponentMark(m: string) {
    m == "" || ((m[0] == 'e' || m[0] == 'E') && (|m| == 1 || (|m| == 2 && (m[1] == '+' || m[1] == '-'))))
  }

  // number = [ "-" ] int [ frac ] [ exp ], or one of the three literal names.
  predicate WellFormedScalar(a: Scalar) {
    match a
    case Literal(text) => text in {"true", "false", "null"}
    case Number(minus, whole, fraction, mark, exponent) =>
      && whole != "" && Digits(whole) && (whole[0] == '0' ==> whole == "0")
      && Digits(fraction) && Digits(exponent)
      && ExponentMark(mark) && (mark == "" <==> exponent == "")
  }

  // ---- Reading: each function returns a tree and the text after it ----

  function Lead(s: string): string {
    if s == "" || !IsSpace(s[0]) then "" else [s[0]] + Lead(s[1..])
  }

  function Trim(s: string): (t: string)
    ensures |t| <= |s|
  {
    if s == "" || !IsSpace(s[0]) then s else Trim(s[1..])
  }

  function ReadDigits(s: string): (string, string) {
    if s == "" || !Digit(s[0]) then ("", s)
    else var (d, r) := ReadDigits(s[1..]); ([s[0]] + d, r)
  }

  function ReadWhole(s: string): (string, string) {
    if s != "" && s[0] == '0' then ("0", s[1..]) else ReadDigits(s)
  }

  function ReadFraction(s: string): (string, string) {
    if |s| >= 2 && s[0] == '.' && Digit(s[1]) then ReadDigits(s[1..]) else ("", s)
  }

  function ExponentMarkLength(s: string): (n: nat)
    ensures n <= |s|
  {
    if s == "" || (s[0] != 'e' && s[0] != 'E') then 0 else if |s| >= 2 && (s[1] == '+' || s[1] == '-') then 2 else 1
  }

  function ReadExponent(s: string): (string, string, string) {
    var n := ExponentMarkLength(s);
    if n == 0 || |s| == n || !Digit(s[n]) then ("", "", s)
    else var (d, r) := ReadDigits(s[n..]); (s[..n], d, r)
  }

  function ReadUnsigned(t: string): Option<(Scalar, string)> {
    var (whole, r1) := ReadWhole(t);
    var (fraction, r2) := ReadFraction(r1);
    var (mark, exponent, r3) := ReadExponent(r2);
    if whole == "" then None else Some((Number(false, whole, fraction, mark, exponent), r3))
  }

  function ReadNumber(s: string): Option<(Scalar, string)> {
    if s == "" || s[0] != '-' then ReadUnsigned(s)
    else
      var n := ReadUnsigned(s[1..]);
      if n.None? then None else Some((Minus(n.value.0), n.value.1))
  }

  function Minus(a: Scalar): Scalar {
    if a.Number? then a.(minus := true) else a
  }

  function ReadScalar(s: string): Option<(Scalar, string)> {
    if "true" <= s then Some((Literal("true"), s[4..]))
    else if "false" <= s then Some((Literal("false"), s[5..]))
    else if "null" <= s then Some((Literal("null"), s[4..]))
    else ReadNumber(s)
  }

  function ReadBody(s: string): (r: Option<(seq<Unit>, string)>)
    ensures r.Some? ==> |r.value.1| < |s|
  {
    if s == "" || s[0] < ' ' then None
    else if s[0] == '"' then Some(([], s[1..]))
    else
      var n := if s[0] != '\\' then 1 else if |s| >= 2 && s[1] == 'u' then 6 else 2;
      if |s| < n then None
      else
        var u := if n == 1 then Plain(s[0]) else if n == 2 then Short(s[1]) else Hex(s[2..6]);
        if !ValidUnit(u) then None
        else
          var tail := ReadBody(s[n..]);
          if tail.None? then None else Some(([u] + tail.value.0, tail.value.1))
  }

  function ReadString(s: string): (r: Option<(seq<Unit>, string)>)
    ensures r.Some? ==> |r.value.1| < |s|
  {
    if s == "" || s[0] != '"' then None else ReadBody(s[1..])
  }

  function ReadLabel(o: bool, s: string): (r: Option<(Label, string)>)
    ensures r.Some? ==> |r.value.1| <= |s|
  {
    if !o then Some((NoLabel, s))
    else
      var key := ReadString(s);
      if key.None? then None
      else
        var t := Trim(key.value.1);
        if t == "" || t[0] != ':' then None
        else Some((Key(key.value.0, Lead(key.value.1), Lead(t[1..])), Trim(t[1..])))
  }

  function Read(s: string): (r: Option<(Json, string)>)
    ensures r.Some? ==> |r.value.1| < |s|
    decreases |s|, 0
  {
    if s == "" then None
    else if s[0] == '"' then
      var body := ReadString(s);
      if body.None? then None else Some((Str(body.value.0), body.value.1))
    else if s[0] in {'{', '['} then
      var o := s[0] == '{';
      var t := Trim(s[1..]);
      if t != "" && t[0] == Closing(o) then Some((Node(o, Lead(s[1..]), Nil), t[1..]))
      else
        var es := ReadEntries(o, t);
        if es.None? then None else Some((Node(o, Lead(s[1..]), es.value.0), es.value.1))
    else
      var a := ReadScalar(s);
      ReadScalarSound(s);
      if a.None? then None else Some((Atom(a.value.0), a.value.1))
  }

  // One label and value, the padding after it, and the text from the next mark on.
  function ReadEntry(o: bool, s: string): (r: Option<(Label, Json, string, string)>)
    ensures r.Some? ==> |r.value.3| < |s|
    decreases |s|, 1
  {
    var l := ReadLabel(o, s);
    if l.None? then None
    else
      var v := Read(l.value.1);
      if v.None? then None else Some((l.value.0, v.value.0, Lead(v.value.1), Trim(v.value.1)))
  }

  // One or more entries and the closing bracket.
  function ReadEntries(o: bool, s: string): (r: Option<(Entries, string)>)
    ensures r.Some? ==> |r.value.1| < |s|
    decreases |s|, 2
  {
    var e := ReadEntry(o, s);
    if e.None? || e.value.3 == "" then None
    else
      var (l, v, after, t) := e.value;
      if t[0] == Closing(o) then Some((Cons(l, v, after, "", Nil), t[1..]))
      else if t[0] != ',' then None
      else
        var rest := ReadEntries(o, Trim(t[1..]));
        if rest.None? then None
        else Some((Cons(l, v, after, Lead(t[1..]), rest.value.0), rest.value.1))
  }

  function ReadDocument(s: string): Option<Document> {
    var v := Read(Trim(s));
    if v.None? || Trim(v.value.1) != "" then None
    else Some(Document(Lead(s), v.value.0, v.value.1))
  }

  // ---- Soundness: what is read prints back to exactly the text consumed ----

  lemma {:induction false} TrimSplits(s: string)
    ensures s == Lead(s) + Trim(s) && Space(Lead(s))
  {
    if s != "" && IsSpace(s[0]) {
      TrimSplits(s[1..]);
      assert s == [s[0]] + s[1..];
    }
  }

  lemma {:induction false} ReadDigitsSound(s: string)
    ensures var (d, r) := ReadDigits(s); Digits(d) && s == d + r && (d == "" <==> s == "" || !Digit(s[0]))
  {
    if s != "" && Digit(s[0]) {
      ReadDigitsSound(s[1..]);
      assert s == [s[0]] + s[1..];
    }
  }

  lemma ReadWholeSound(s: string)
    ensures
      var (w, r) := ReadWhole(s);
      Digits(w) && s == w + r && (w != "" && w[0] == '0' ==> w == "0")
  {
    ReadDigitsSound(s);
  }

  lemma ReadFractionSound(s: string)
    ensures var (f, r) := ReadFraction(s); Digits(f) && s == (if f == "" then "" else ['.'] + f) + r
  {
    if |s| >= 2 && s[0] == '.' && Digit(s[1]) {
      ReadDigitsSound(s[1..]);
      assert s == ['.'] + s[1..];
    }
  }

  lemma ReadExponentSound(s: string)
    ensures
      var (mark, d, r) := ReadExponent(s);
      && Digits(d) && s == mark + (d + r)
      && ExponentMark(mark) && (mark == "" <==> d == "")
  {
    var n := ExponentMarkLength(s);
    if n != 0 && n < |s| && Digit(s[n]) {
      ReadDigitsSound(s[n..]);
      assert s == s[..n] + s[n..];
      assert n == 1 ==> s[..n] == [s[0]];
      assert n == 2 ==> s[..n] == [s[0], s[1]];
    }
  }

  lemma ReadUnsignedSound(t: string)
    requires ReadUnsigned(t).Some?
    ensures
      var (a, r) := ReadUnsigned(t).value;
      a.Number? && !a.minus && WellFormedScalar(a) && t == PrintScalar(a, r) && |r| < |t|
  {
    ReadWholeSound(t);
    ReadFractionSound(ReadWhole(t).1);
    ReadExponentSound(ReadFraction(ReadWhole(t).1).1);
  }

  lemma ReadNumberSound(s: string)
    requires ReadNumber(s).Some?
    ensures var (a, r) := ReadNumber(s).value; WellFormedScalar(a) && s == PrintScalar(a, r) && |r| < |s|
  {
    if s == "" || s[0] != '-' {
      ReadUnsignedSound(s);
    } else {
      ReadUnsignedSound(s[1..]);
      var (a, r) := ReadUnsigned(s[1..]).value;
      assert PrintScalar(Minus(a), r) == ['-'] + PrintScalar(a, r);
      assert s == ['-'] + s[1..];
    }
  }

  lemma ReadScalarSound(s: string)
    ensures ReadScalar(s).Some? ==>
      var (a, r) := ReadScalar(s).value; WellFormedScalar(a) && s == PrintScalar(a, r) && |r| < |s|
  {
    if ReadScalar(s).Some? && ReadScalar(s).value.0.Number? {
      ReadNumberSound(s);
    }
  }

  lemma {:induction false} ReadBodySound(s: string)
    requires ReadBody(s).Some?
    ensures var (body, r) := ReadBody(s).value; ValidBody(body) && s == PrintBody(body, ['"'] + r)
  {
    if s[0] == '"' {
      assert s == [s[0]] + s[1..];
    } else {
      var n := if s[0] != '\\' then 1 else if |s| >= 2 && s[1] == 'u' then 6 else 2;
      ReadBodySound(s[n..]);
      var (body, r) := ReadBody(s).value;
      assert body[1..] == ReadBody(s[n..]).value.0;
      assert s == PrintUnit(body[0], s[n..]);
    }
  }

  lemma ReadStringSound(s: string)
    requires ReadString(s).Some?
    ensures var (body, r) := ReadString(s).value; ValidBody(body) && s == PrintString(body, r)
  {
    ReadBodySound(s[1..]);
    assert s == ['"'] + s[1..];
  }

  lemma ReadLabelSound(o: bool, s: string)
    requires ReadLabel(o, s).Some?
    ensures
      var (l, r) := ReadLabel(o, s).value;
      && l.Key? == o && (l.Key? ==> ValidBody(l.body) && Space(l.before) && Space(l.gap))
      && s == PrintLabel(l, r)
  {
    if o {
      ReadStringSound(s);
      var k := ReadString(s).value.1;
      var t := Trim(k);
      TrimSplits(k);
      TrimSplits(t[1..]);
      assert t == [':'] + t[1..];
    }
  }

  lemma {:induction false} ReadSound(s: string)
    requires Read(s).Some?
    ensures WellFormed(Read(s).value.0) && s == Print(Read(s).value.0, Read(s).value.1)
    decreases |s|, 1
  {
    if s[0] == '"' {
      ReadStringSound(s);
    } else if s[0] in {'{', '['} {
      ReadNodeSound(s);
    } else {
      ReadScalarSound(s);
    }
  }

  lemma {:induction false} ReadNodeSound(s: string)
    requires Read(s).Some? && s[0] in {'{', '['}
    ensures WellFormed(Read(s).value.0) && s == Print(Read(s).value.0, Read(s).value.1)
    decreases |s|, 0
  {
    var o, t, pad := s[0] == '{', Trim(s[1..]), Lead(s[1..]);
    TrimSplits(s[1..]);
    assert s == [Opening(o)] + (pad + t);
    if t != "" && t[0] == Closing(o) {
      assert t == PrintEntries(Nil, [Closing(o)] + t[1..]);
      assert Read(s) == Some((Node(o, pad, Nil), t[1..]));
    } else {
      ReadEntriesSound(o, t);
      var es := ReadEntries(o, t).value;
      assert Read(s) == Some((Node(o, pad, es.0), es.1));
    }
  }

  lemma {:induction false} ReadEntrySound(o: bool, s: string)
    requires ReadEntry(o, s).Some?
    ensures
      var (l, v, after, t) := ReadEntry(o, s).value;
      && l.Key? == o && (l.Key? ==> ValidBody(l.body) && Space(l.before) && Space(l.gap))
      && WellFormed(v) && Space(after)
      && s == PrintLabel(l, Print(v, after + t))
    decreases |s|, 2
  {
    ReadLabelSound(o, s);
    var r := ReadLabel(o, s).value.1;
    ReadSound(r);
    TrimSplits(Read(r).value.1);
  }

  lemma {:induction false} ReadEntriesSound(o: bool, s: string)
    requires ReadEntries(o, s).Some?
    ensures
      var (es, r) := ReadEntries(o, s).value;
      WellFormedEntries(o, es) && es.Cons? && s == PrintEntries(es, [Closing(o)] + r)
    decreases |s|, 3
  {
    ReadEntrySound(o, s);
    var t := ReadEntry(o, s).value.3;
    if t[0] == Closing(o) {
      assert t == [Closing(o)] + t[1..];
    } else {
      ReadEntriesSound(o, Trim(t[1..]));
      var (rest, r) := ReadEntries(o, Trim(t[1..])).value;
      CommaSplits(t, PrintEntries(rest, [Closing(o)] + r));
    }
  }

  // A comma, its spaces, and what follows them.
  lemma CommaSplits(t: string, u: string)
    requires t != "" && t[0] == ',' && Trim(t[1..]) == u
    ensures t == [','] + (Lead(t[1..]) + u) && Space(Lead(t[1..]))
  {
    TrimSplits(t[1..]);
    assert t == [t[0]] + t[1..];
  }

  // ---- Completeness: every well-formed tree is read back from its text ----

  // What may follow a number or a literal in a document.
  predicate Delimited(r: string) { r == "" || IsSpace(r[0]) || r[0] in {',', ']', '}'} }

  predicate Trimmed(r: string) { r == "" || !IsSpace(r[0]) }

  lemma {:induction false} TrimPast(w: string, r: string)
    requires Space(w) && Trimmed(r)
    ensures Lead(w + r) == w && Trim(w + r) == r
  {
    if w == "" {
      assert w + r == r;
    } else {
      TrimPast(w[1..], r);
      assert (w + r)[1..] == w[1..] + r;
      assert IsSpace((w + r)[0]);
    }
  }

  lemma {:induction false} ReadDigitsPast(d: string, r: string)
    requires Digits(d) && (r == "" || !Digit(r[0]))
    ensures ReadDigits(d + r) == (d, r)
  {
    if d == "" {
      assert d + r == r;
    } else {
      ReadDigitsPast(d[1..], r);
      assert (d + r)[1..] == d[1..] + r;
      assert d == [d[0]] + d[1..];
    }
  }

  lemma ReadFractionPast(f: string, r: string)
    requires Digits(f) && (r == "" || (!Digit(r[0]) && r[0] != '.'))
    ensures ReadFraction((if f == "" then "" else ['.'] + f) + r) == (f, r)
  {
    ReadDigitsPast(f, r);
    var s := (if f == "" then "" else ['.'] + f) + r;
    if f != "" {
      assert s[1..] == f + r && s[1] == f[0];
    } else {
      assert s == r;
    }
  }

  lemma ReadExponentPast(mark: string, d: string, r: string)
    requires Digits(d) && Delimited(r)
    requires ExponentMark(mark) && (mark == "" <==> d == "")
    ensures ReadExponent(mark + (d + r)) == (mark, d, r)
  {
    ReadDigitsPast(d, r);
    var s := mark + (d + r);
    assert s[|mark|..] == d + r && s[..|mark|] == mark;
    assert mark != "" ==> s[|mark|] == d[0] && s[0] == mark[0];
    assert |mark| == 2 ==> s[1] == mark[1];
  }

  lemma ReadWholePast(w: string, r: string)
    requires w != "" && Digits(w) && (w[0] == '0' ==> w == "0") && (r == "" || !Digit(r[0]))
    ensures ReadWhole(w + r) == (w, r)
    ensures Digit((w + r)[0])
  {
    ReadDigitsPast(w, r);
    assert w == "0" ==> (w + r)[1..] == r;
  }

  // What follows the integer part starts with no digit.
  lemma ReadFractionalPast(a: Scalar, r: string)
    requires a.Number? && WellFormedScalar(a) && Delimited(r)
    ensures
      var r2 := a.mark + (a.exponent + r);
      var r1 := (if a.fraction == "" then "" else ['.'] + a.fraction) + r2;
      && (r1 == "" || !Digit(r1[0]))
      && ReadFraction(r1) == (a.fraction, r2) && ReadExponent(r2) == (a.mark, a.exponent, r)
  {
    var r2 := a.mark + (a.exponent + r);
    ReadExponentPast(a.mark, a.exponent, r);
    assert a.mark == "" ==> r2 == r;
    assert a.mark != "" ==> r2[0] == a.mark[0];
    ReadFractionPast(a.fraction, r2);
  }

  lemma ReadUnsignedPast(a: Scalar, r: string)
    requires a.Number? && !a.minus && WellFormedScalar(a) && Delimited(r)
    ensures ReadUnsigned(PrintScalar(a, r)) == Some((a, r))
    ensures var s := PrintScalar(a, r); s != "" && Digit(s[0])
  {
    ReadFractionalPast(a, r);
    ReadWholePast(a.whole, (if a.fraction == "" then "" else ['.'] + a.fraction) + (a.mark + (a.exponent + r)));
  }

  lemma ReadNumberPast(a: Scalar, r: string)
    requires a.Number? && WellFormedScalar(a) && Delimited(r)
    ensures ReadNumber(PrintScalar(a, r)) == Some((a, r))
    ensures var s := PrintScalar(a, r); s != "" && (s[0] == '-' || Digit(s[0]))
  {
    var u := a.(minus := false);
    ReadUnsignedPast(u, r);
    if a.minus {
      assert PrintScalar(a, r) == ['-'] + PrintScalar(u, r);
      assert PrintScalar(a, r)[1..] == PrintScalar(u, r);
    }
  }

  lemma ReadLiteralPast(text: string, r: string)
    requires text in {"true", "false", "null"}
    ensures ReadScalar(text + r) == Some((Literal(text), r)) && (text + r)[0] in {'t', 'f', 'n'}
  {
    var s := text + r;
    assert s[|text|..] == r && s[0] == text[0] && text <= s;
  }

  lemma NoLiteral(s: string)
    requires s != "" && s[0] !in {'t', 'f', 'n'}
    ensures ReadScalar(s) == ReadNumber(s)
  {
  }

  lemma ReadScalarPast(a: Scalar, r: string)
    requires WellFormedScalar(a) && Delimited(r)
    ensures ReadScalar(PrintScalar(a, r)) == Some((a, r))
    ensures var s := PrintScalar(a, r); s != "" && (s[0] == '-' || Digit(s[0]) || s[0] in {'t', 'f', 'n'})
  {
    if a.Number? {
      ReadNumberPast(a, r);
      NoLiteral(PrintScalar(a, r));
    } else {
      ReadLiteralPast(a.text, r);
    }
  }

  lemma {:induction false} ReadBodyPast(body: seq<Unit>, r: string)
    requires ValidBody(body)
    ensures ReadBody(PrintBody(body, ['"'] + r)) == Some((body, r))
  {
    if body != [] {
      var u, tail := body[0], PrintBody(body[1..], ['"'] + r);
      var s := PrintUnit(u, tail);
      ReadBodyPast(body[1..], r);
      assert body == [u] + body[1..];
      match u
      case Plain(c) => assert s[1..] == tail;
      case Short(e) => assert s[2..] == tail;
      case Hex(d) =>
        assert s[0] == '\\' && s[1] == 'u' && |s| >= 6;
        assert s[6..] == tail && s[2..6] == d;
    }
  }

  lemma ReadStringPast(body: seq<Unit>, r: string)
    requires ValidBody(body)
    ensures ReadString(PrintString(body, r)) == Some((body, r))
  {
    ReadBodyPast(body, r);
    assert PrintString(body, r)[1..] == PrintBody(body, ['"'] + r);
  }

  lemma ReadLabelPast(o: bool, l: Label, r: string)
    requires l.Key? == o && (l.Key? ==> ValidBody(l.body) && Space(l.before) && Space(l.gap)) && Trimmed(r)
    ensures ReadLabel(o, PrintLabel(l, r)) == Some((l, r))
    ensures o ==> PrintLabel(l, r)[0] == '"'
  {
    if o {
      var t := [':'] + (l.gap + r);
      ReadStringPast(l.body, l.before + t);
      TrimPast(l.before, t);
      TrimPast(l.gap, r);
      assert t[1..] == l.gap + r;
    }
  }

  lemma PrintStarts(j: Json, r: string)
    requires WellFormed(j) && Delimited(r)
    ensures Print(j, r) != "" && !IsSpace(Print(j, r)[0]) && Print(j, r)[0] !in {',', ':', ']', '}'}
  {
    if j.Atom? { ReadScalarPast(j.atom, r); }
  }

  lemma {:induction false} ReadPast(j: Json, r: string)
    requires WellFormed(j) && Delimited(r)
    ensures Read(Print(j, r)) == Some((j, r))
    decreases j, 0
  {
    match j
    case Str(body) => ReadStringPast(body, r);
    case Atom(atom) => ReadScalarPast(atom, r);
    case Node(o, pad, es) =>
      if es.Cons? { ReadEntriesPast(o, es, r); }
      ReadNodePast(o, pad, es, r);
  }

  lemma ReadNodePast(o: bool, pad: string, es: Entries, r: string)
    requires WellFormed(Node(o, pad, es))
    requires es.Cons? ==>
      var u := PrintEntries(es, [Closing(o)] + r);
      Trimmed(u) && u != "" && u[0] !in {',', ']', '}'} && ReadEntries(o, u) == Some((es, r))
    ensures Read(Print(Node(o, pad, es), r)) == Some((Node(o, pad, es), r))
  {
    var u := PrintEntries(es, [Closing(o)] + r);
    assert Print(Node(o, pad, es), r)[1..] == pad + u;
    TrimPast(pad, u);
    assert es.Nil? ==> u[1..] == r;
  }

  lemma {:induction false} ReadEntryPast(o: bool, es: Entries, t: string)
    requires es.Cons? && WellFormedEntries(o, es) && t != "" && t[0] in {',', ']', '}'}
    ensures ReadEntry(o, PrintLabel(es.name, Print(es.value, es.after + t))) == Some((es.name, es.value, es.after, t))
    ensures Trimmed(PrintLabel(es.name, Print(es.value, es.after + t)))
    ensures var s := PrintLabel(es.name, Print(es.value, es.after + t)); s != "" && s[0] !in {',', ']', '}'}
    decreases es, 0
  {
    var u := es.after + t;
    PrintStarts(es.value, u);
    ReadLabelPast(o, es.name, Print(es.value, u));
    ReadPast(es.value, u);
    TrimPast(es.after, t);
  }

  lemma {:induction false} ReadEntriesPast(o: bool, es: Entries, r: string)
    requires es.Cons? && WellFormedEntries(o, es)
    ensures ReadEntries(o, PrintEntries(es, [Closing(o)] + r)) == Some((es, r))
    ensures Trimmed(PrintEntries(es, [Closing(o)] + r))
    ensures var s := PrintEntries(es, [Closing(o)] + r); s != "" && s[0] !in {',', ']', '}'}
    decreases es, 1
  {
    var tail := [Closing(o)] + r;
    if es.rest.Nil? {
      ReadEntryPast(o, es, tail);
      assert tail[1..] == r;
    } else {
      var u := PrintEntries(es.rest, tail);
      ReadEntriesPast(o, es.rest, r);
      TrimPast(es.next, u);
      ReadEntryPast(o, es, [','] + (es.next + u));
      assert ([','] + (es.next + u))[1..] == es.next + u;
    }
  }

  // The reader and the printer are inverse: a text is read exactly as the one
  // well-formed document that prints it.
  lemma ReadDocumentIsInverse(s: string, d: Document)
    ensures ReadDocument(s) == Some(d) <==> WellFormedDocument(d) && PrintDocument(d) == s
  {
    TrimSplits(s);
    if ReadDocument(s).Some? {
      ReadSound(Trim(s));
      var r := Read(Trim(s)).value.1;
      TrimSplits(r);
      assert Lead(r) + "" == r;
    }
    if WellFormedDocument(d) && PrintDocument(d) == s {
      PrintStarts(d.root, d.trail);
      ReadPast(d.root, d.trail);
      TrimPast(d.lead, Print(d.root, d.trail));
      TrimPast(d.trail, "");
      assert d.trail + "" == d.trail;
    }
  }
}
