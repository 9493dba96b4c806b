// JSON string bodies (RFC 8259 section 7), UTF-8 (RFC 3629) and case folding.
// A char is a Unicode scalar value; decoded strings are code points, because an
// escape can spell a surrogate.

module JsonStrings {
  import opened Common

  type Point = p: int | 0 <= p < 0x11_0000
  type Points = seq<Point>

  function PointsOf(s: string): Points {
    seq(|s|, i requires 0 <= i < |s| => s[i] as int)
  }

  lemma PointsInjective(a: string, b: string)
    ensures PointsOf(a) == PointsOf(b) <==> a == b
  {
    if PointsOf(a) == PointsOf(b) {
      assert |a| == |PointsOf(a)| == |PointsOf(b)| == |b|;
      forall i | 0 <= i < |a| ensures a[i] == b[i] { assert PointsOf(a)[i] == PointsOf(b)[i]; }
    }
  }

  predicate HighSurrogate(p: int) { 0xD800 <= p <= 0xDBFF }

  predicate LowSurrogate(p: int) { 0xDC00 <= p <= 0xDFFF }

  // Encodable in strict UTF-8.
  predicate Scalars(ps: Points) {
    forall i :: 0 <= i < |ps| ==> !HighSurrogate(ps[i]) && !LowSurrogate(ps[i])
  }

  // ---- One character of a string literal, as written ----

  datatype Unit = Plain(c: char) | Short(e: char) | Hex(digits: string)

  predicate HexDigit(c: char) {
    '0' <= c <= '9' || 'a' <= c <= 'f' || 'A' <= c <= 'F'
  }

  predicate HexDigits(s: string) {
    |s| == 4 && HexDigit(s[0]) && HexDigit(s[1]) && HexDigit(s[2]) && HexDigit(s[3])
  }

  predicate ValidUnit(u: Unit) {
    match u
    case Plain(c) => c >= ' ' && c != '"' && c != '\\'
    case Short(e) => e in {'"', '\\', '/', 'b', 'f', 'n', 'r', 't'}
    case Hex(digits) => HexDigits(digits)
  }

  predicate ValidBody(body: seq<Unit>) {
    forall i :: 0 <= i < |body| ==> ValidUnit(body[i])
  }

  // Printing puts the text in front of what follows it.
  function PrintUnit(u: Unit, r: string): string {
    match u
    case Plain(c) => [c] + r
    case Short(e) => ['\\', e] + r
    case Hex(d) => "\\u" + (d + r)
  }

  function PrintBody(body: seq<Unit>, r: string): string {
    if body == [] then r else PrintUnit(body[0], PrintBody(body[1..], r))
  }

  function HexValue(c: char): (v: int)
    ensures 0 <= v < 16
  {
    if '0' <= c <= '9' then c as int - '0' as int
    else if 'a' <= c <= 'f' then c as int - 'a' as int + 10
    else if 'A' <= c <= 'F' then c as int - 'A' as int + 10
    else 0
  }

  function UnitValue(u: Unit): Point
    requires ValidUnit(u)
  {
    match u
    case Plain(c) => c as int
    case Short(e) =>
      if e == 'b' then 8 else if e == 'f' then 12 else if e == 'n' then 10
      else if e == 'r' then 13 else if e == 't' then 9 else e as int
    case Hex(d) => ((HexValue(d[0]) * 16 + HexValue(d[1])) * 16 + HexValue(d[2])) * 16 + HexValue(d[3])
  }

  // A short escape means what its four-digit spelling means.
  lemma ShortIsHex(e: char, digits: string)
    requires (e, digits) in {
      ('"', "0022"), ('\\', "005c"), ('/', "002f"), ('b', "0008"), ('f', "000c"), ('n', "000A"), ('r', "000d"),
      ('t', "0009")}
    ensures ValidUnit(Short(e)) && ValidUnit(Hex(digits)) && UnitValue(Short(e)) == UnitValue(Hex(digits))
  {
  }

  function UnitValues(body: seq<Unit>): Points
    requires ValidBody(body)
  {
    seq(|body|, i requires 0 <= i < |body| => UnitValue(body[i]))
  }

  function Pair(high: int, low: int): Point
    requires HighSurrogate(high) && LowSurrogate(low)
  {
    0x1_0000 + (high - 0xD800) * 0x400 + (low - 0xDC00)
  }

  predicate StartsWithPair(v: Points) {
    |v| >= 2 && HighSurrogate(v[0]) && LowSurrogate(v[1])
  }

  // Escaped pairs join; what stays unpaired is kept (Python) or replaced (Go).
  function Join(v: Points): Points {
    if v == [] then []
    else if StartsWithPair(v) then [Pair(v[0], v[1])] + Join(v[2..])
    else [v[0]] + Join(v[1..])
  }

  function JoinReplacing(v: Points): Points {
    if v == [] then []
    else if StartsWithPair(v) then [Pair(v[0], v[1])] + JoinReplacing(v[2..])
    else [if HighSurrogate(v[0]) || LowSurrogate(v[0]) then 0xFFFD else v[0]] + JoinReplacing(v[1..])
  }

  function Decode(body: seq<Unit>): Points
    requires ValidBody(body)
  {
    Join(UnitValues(body))
  }

  // Every surrogate escape is one half of an adjacent pair.
  predicate Paired(v: Points) {
    if v == [] then true
    else if StartsWithPair(v) then Paired(v[2..])
    else !HighSurrogate(v[0]) && !LowSurrogate(v[0]) && Paired(v[1..])
  }

  lemma {:induction false} PairedIsEncodable(v: Points)
    ensures Paired(v) <==> Scalars(Join(v))
    ensures Paired(v) ==> Join(v) == JoinReplacing(v)
  {
    if v == [] {
    } else if StartsWithPair(v) {
      PairedIsEncodable(v[2..]);
      var tail := Join(v[2..]);
      assert Join(v) == [Pair(v[0], v[1])] + tail;
      assert forall i :: 0 <= i < |tail| ==> Join(v)[i + 1] == tail[i];
    } else {
      PairedIsEncodable(v[1..]);
      var tail := Join(v[1..]);
      assert Join(v) == [v[0]] + tail;
      assert Join(v)[0] == v[0];
      assert forall i :: 0 <= i < |tail| ==> Join(v)[i + 1] == tail[i];
    }
  }

  // ---- UTF-8 ----

  function Utf8Point(p: Point): (b: Bytes)
    ensures 1 <= |b| <= 4
    ensures p < 128 ==> b == [p]
    ensures p >= 128 ==> forall i :: 0 <= i < |b| ==> b[i] >= 128
  {
    if p < 0x80 then [p]
    else if p < 0x800 then [0xC0 + p / 0x40, 0x80 + p % 0x40]
    else if p < 0x1_0000 then [0xE0 + p / 0x1000, 0x80 + p / 0x40 % 0x40, 0x80 + p % 0x40]
    else [0xF0 + p / 0x4_0000, 0x80 + p / 0x1000 % 0x40, 0x80 + p / 0x40 % 0x40, 0x80 + p % 0x40]
  }

  function Utf8Points(ps: Points): Bytes {
    if ps == [] then [] else Utf8Point(ps[0]) + Utf8Points(ps[1..])
  }

  function Utf8(s: string): Bytes {
    if s == "" then [] else Utf8Point(s[0] as int) + Utf8(s[1..])
  }

  // The first byte tells how many bytes a character has, and the bytes tell which it is.
  function Utf8Length(lead: Byte): int {
    if lead < 0x80 then 1 else if lead < 0xE0 then 2 else if lead < 0xF0 then 3 else 4
  }

  function Utf8Value(b: Bytes): int
    requires b != [] && |b| == Utf8Length(b[0])
  {
    if |b| == 1 then b[0] as int
    else if |b| == 2 then SixMore(b[0] as int - 0xC0, b[1])
    else if |b| == 3 then SixMore(SixMore(b[0] as int - 0xE0, b[1]), b[2])
    else SixMore(SixMore(SixMore(b[0] as int - 0xF0, b[1]), b[2]), b[3])
  }

  // Six more bits, from a continuation byte.
  function SixMore(high: int, b: int): int { high * 0x40 + (b - 0x80) }

  lemma SixBits(p: int)
    requires p >= 0
    ensures SixMore(p / 0x40, 0x80 + p % 0x40) == p
    ensures p / 0x1000 == p / 0x40 / 0x40 && p / 0x4_0000 == p / 0x1000 / 0x40
  {
  }

  lemma Utf8PointReads(p: Point)
    ensures |Utf8Point(p)| == Utf8Length(Utf8Point(p)[0]) && Utf8Value(Utf8Point(p)) == p
  {
    SixBits(p);
    SixBits(p / 0x40);
    SixBits(p / 0x1000);
    var b := Utf8Point(p);
    if 0x800 <= p < 0x1_0000 {
      assert b[1] == 0x80 + p / 0x40 % 0x40 && SixMore(b[0] as int - 0xE0, b[1]) == p / 0x40;
    } else if p >= 0x1_0000 {
      assert SixMore(b[0] as int - 0xF0, b[1]) == p / 0x1000;
    }
  }

  // The bytes of a text determine it.
  lemma {:induction false} Utf8Injective(a: string, b: string)
    requires Utf8(a) == Utf8(b)
    ensures a == b
  {
    if a != "" && b != "" {
      var u, v := Utf8Point(a[0] as int), Utf8Point(b[0] as int);
      Utf8PointReads(a[0] as int);
      Utf8PointReads(b[0] as int);
      assert u[0] == Utf8(a)[0] == Utf8(b)[0] == v[0];
      assert u == Utf8(a)[..|u|] == Utf8(b)[..|v|] == v;
      assert Utf8(a[1..]) == Utf8(a)[|u|..] == Utf8(b)[|v|..] == Utf8(b[1..]);
      Utf8Injective(a[1..], b[1..]);
      assert a == [a[0]] + a[1..] && b == [b[0]] + b[1..];
    }
  }

  lemma {:induction false} Utf8Concat(a: string, b: string)
    ensures Utf8(a + b) == Utf8(a) + Utf8(b)
  {
    if a == "" {
      assert a + b == b;
    } else {
      Utf8Concat(a[1..], b);
      assert (a + b)[1..] == a[1..] + b;
      assert (a + b)[0] == a[0];
    }
  }

  predicate Ascii(s: string) {
    forall i :: 0 <= i < |s| ==> s[i] as int < 128
  }

  lemma {:induction false} Utf8Ascii(s: string)
    requires Ascii(s)
    ensures |Utf8(s)| == |s|
    ensures forall i :: 0 <= i < |s| ==> Utf8(s)[i] == s[i] as int
  {
    if s != "" {
      Utf8Ascii(s[1..]);
      assert Utf8(s) == [s[0] as int] + Utf8(s[1..]);
    }
  }

  // ---- Case-insensitive comparison with an ASCII name ----

  // Go strings.EqualFold: simple folding, under which U+212A folds to k and U+017F
  // to s; every other non-ASCII point stays outside ASCII.
  function GoFold(p: Point): Point {
    if 65 <= p <= 90 then p + 32 else if p == 0x212A then 107 else if p == 0x17F then 115 else p
  }

  predicate EqualFold(a: Points, b: Points) {
    |a| == |b| && forall i :: 0 <= i < |a| ==> GoFold(a[i]) == GoFold(b[i])
  }

  // Python str.lower(): U+212A lowers to k, U+0130 to i plus a combining dot, and
  // U+017F is already lower case; every other non-ASCII point stays outside ASCII.
  function LowerPoint(p: Point): (r: Points)
    ensures |r| >= 1
  {
    if 65 <= p <= 90 then [p + 32] else if p == 0x212A then [107] else if p == 0x130 then [105, 0x307] else [p]
  }

  function PyLower(ps: Points): Points {
    if ps == [] then [] else LowerPoint(ps[0]) + PyLower(ps[1..])
  }

  const LONG_S: Point := 0x17F

  // name is ASCII lower case, as every compared name is once lowered.
  predicate LowerAscii(name: Points) {
    forall i :: 0 <= i < |name| ==> name[i] < 128 && !(65 <= name[i] <= 90)
  }

  predicate HasLongS(ps: Points) { exists i :: 0 <= i < |ps| && ps[i] == LONG_S }

  // Exactly when the two comparisons agree: Python's is Go's without U+017F, which only
  // Go reads as an s.
  lemma {:induction false} FoldingsAgree(ps: Points, name: Points)
    requires LowerAscii(name)
    ensures PyLower(ps) == name <==> EqualFold(ps, name) && !HasLongS(ps)
    ensures (PyLower(ps) == name <==> EqualFold(ps, name)) <==> !(EqualFold(ps, name) && HasLongS(ps))
  {
    if ps == [] {
    } else if name == [] {
      assert PyLower(ps) != [];
    } else {
      FoldingsAgree(ps[1..], name[1..]);
      EqualFoldStep(ps, name);
      PyLowerStep(ps, name);
      HasLongSStep(ps);
      assert name[0] < 128 && !(65 <= name[0] <= 90);
    }
  }

  lemma HasLongSStep(ps: Points)
    requires ps != []
    ensures HasLongS(ps) <==> ps[0] == LONG_S || HasLongS(ps[1..])
  {
    if HasLongS(ps[1..]) {
      var i :| 0 <= i < |ps| - 1 && ps[1..][i] == LONG_S;
      assert ps[i + 1] == LONG_S;
    }
    if HasLongS(ps) && ps[0] != LONG_S {
      var i :| 0 <= i < |ps| && ps[i] == LONG_S;
      assert ps[1..][i - 1] == LONG_S;
    }
  }

  lemma EqualFoldStep(a: Points, b: Points)
    requires a != [] && b != []
    ensures EqualFold(a, b) <==> GoFold(a[0]) == GoFold(b[0]) && EqualFold(a[1..], b[1..])
  {
    if EqualFold(a, b) {
      assert forall i :: 0 <= i < |a| - 1 ==> a[1..][i] == a[i + 1] && b[1..][i] == b[i + 1];
    }
    if GoFold(a[0]) == GoFold(b[0]) && EqualFold(a[1..], b[1..]) {
      forall i | 0 <= i < |a| ensures GoFold(a[i]) == GoFold(b[i]) {
        if i > 0 { assert a[i] == a[1..][i - 1] && b[i] == b[1..][i - 1]; }
      }
    }
  }

  // A point that lowers to two points leaves ASCII.
  lemma PyLowerStep(ps: Points, name: Points)
    requires ps != [] && name != [] && LowerAscii(name)
    ensures PyLower(ps) == name <==> LowerPoint(ps[0]) == [name[0]] && PyLower(ps[1..]) == name[1..]
  {
    var p, t := LowerPoint(ps[0]), PyLower(ps[1..]);
    assert PyLower(ps) == p + t;
    if |p| == 1 {
      assert (p + t)[1..] == t && (p + t)[0] == p[0];
      if p == [name[0]] && t == name[1..] { assert p + t == name; }
    } else {
      assert (p + t)[1] == 0x307;
      assert |name| >= 2 ==> name[1] < 128;
    }
  }
}
