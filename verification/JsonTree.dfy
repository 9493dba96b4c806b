// From concrete documents to trees, and the event-identity specification on texts.

module JsonTree {
  import opened Common
  import opened JsonStrings
  import opened JsonText
  import opened Names
  import R = JsonRules

  function TreeOf(j: Json): R.Tree
    requires WellFormed(j)
    decreases j
  {
    match j
    case Str(body) => R.Text(Decode(body))
    case Atom(_) => R.Scalar
    case Node(o, _, es) => R.Branch(o, KidsOf(o, es))
  }

  function KidsOf(o: bool, es: Entries): R.Kids
    requires WellFormedEntries(o, es)
    decreases es
  {
    match es
    case Nil => R.Nil
    case Cons(name, v, _, _, rest) =>
      R.Kid(if name.Key? then Some(Decode(name.body)) else None, TreeOf(v), KidsOf(o, rest))
  }

  lemma {:induction false} TreeIsShaped(j: Json)
    requires WellFormed(j)
    ensures R.Shaped(TreeOf(j))
    decreases j
  {
    if j.Node? { KidsAreShaped(j.object_, j.entries); }
  }

  lemma {:induction false} KidsAreShaped(o: bool, es: Entries)
    requires WellFormedEntries(o, es)
    ensures R.ShapedKids(o, KidsOf(o, es))
    decreases es
  {
    if es.Cons? {
      TreeIsShaped(es.value);
      KidsAreShaped(o, es.rest);
    }
  }

  // The event identity of a text: it is a document and its tree is accepted.
  function EventIdOf(l: R.Limits, text: string): Option<Points> {
    var d := ReadDocument(text);
    if d.None? then None
    else
      ReadDocumentIsInverse(text, d.value);
      R.CheckRoot(l, TreeOf(d.value.root))
  }

  // Printing any object document, with any whitespace and spelling, and reading it
  // back finds its event_id exactly when the tree is accepted; and every text that
  // is accepted is such a document.
  lemma EventIdIsExact(l: R.Limits, text: string, id: Points)
    requires R.ValidLimits(l)
    ensures EventIdOf(l, text) == Some(id) <==>
      exists d :: WellFormedDocument(d) && PrintDocument(d) == text && R.Accepted(l, TreeOf(d.root), id)
  {
    forall d | WellFormedDocument(d) && PrintDocument(d) == text
      ensures EventIdOf(l, text) == Some(id) <==> R.Accepted(l, TreeOf(d.root), id)
    {
      ReadDocumentIsInverse(text, d);
      TreeIsShaped(d.root);
      R.CheckRootIsExact(l, TreeOf(d.root), id);
    }
    if ReadDocument(text).Some? { ReadDocumentIsInverse(text, ReadDocument(text).value); }
  }

  // ---- One value, or the entries of a container, at the front of a text ----

  function ValueAt(l: R.Limits, s: string, depth: int, p: R.Progress): (r: Option<(string, R.Progress)>)
    ensures r.Some? ==> |r.value.0| < |s|
  {
    var v := Read(s);
    if v.None? then None
    else
      ReadSound(s);
      var q := R.Check(l, TreeOf(v.value.0), depth, p);
      if q.None? then None else Some((v.value.1, q.value))
  }

  function EntriesAt(l: R.Limits, o: bool, s: string, depth: int, seen: set<Points>, p: R.Progress)
    : Option<(string, R.Progress)>
  {
    var es := ReadEntries(o, s);
    if es.None? then None
    else
      ReadEntriesSound(o, s);
      var q := R.CheckKids(l, KidsOf(o, es.value.0), depth, seen, p);
      if q.None? then None else Some((es.value.1, q.value))
  }

  // The decoded value when the value at the front of s is a string.
  function ItemAt(s: string): Option<Points> {
    var body := ReadString(s);
    if body.None? then None
    else
      ReadStringSound(s);
      Some(Decode(body.value.0))
  }

  function LabelAt(l: R.Limits, o: bool, s: string, depth: int, seen: set<Points>, p: R.Progress)
    : (r: Option<(Option<Points>, string, R.Progress)>)
    ensures r.Some? ==> |r.value.1| <= |s|
  {
    var name := ReadLabel(o, s);
    if name.None? then None
    else
      ReadLabelSound(o, s);
      var key := if name.value.0.Key? then Some(Decode(name.value.0.body)) else None;
      var q := R.CheckKey(l, key, depth, seen, p);
      if q.None? then None else Some((key, name.value.1, q.value))
  }

  // One entry, up to the mark after it.
  function EntryAt(l: R.Limits, o: bool, s: string, depth: int, seen: set<Points>, p: R.Progress)
    : (r: Option<(set<Points>, string, R.Progress)>)
    ensures r.Some? ==> |r.value.1| < |s|
  {
    var name := LabelAt(l, o, s, depth, seen, p);
    if name.None? then None
    else
      var (key, r1, p1) := name.value;
      var v := ValueAt(l, r1, depth + 1, p1);
      if v.None? then None
      else
        var q := R.IdAfter(key, ItemAt(r1), depth, v.value.1);
        if q.None? then None else Some((R.Seen(seen, key), Trim(v.value.0), q.value))
  }

  lemma ItemIsText(s: string)
    requires Read(s).Some?
    ensures WellFormed(Read(s).value.0)
    ensures
      var t := TreeOf(Read(s).value.0);
      (t.Text? <==> ItemAt(s).Some?) && (t.Text? ==> t.points == ItemAt(s).value)
  {
    ReadSound(s);
  }

  // The first entry of kids, as CheckKids treats it.
  function HeadOf(l: R.Limits, kids: R.Kids, depth: int, seen: set<Points>, p: R.Progress): Option<R.Progress>
    requires kids.Kid?
  {
    var p1 := R.CheckKey(l, kids.key, depth, seen, p);
    if p1.None? then None
    else
      var p2 := R.Check(l, kids.value, depth + 1, p1.value);
      if p2.None? then None
      else R.IdAfter(kids.key, if kids.value.Text? then Some(kids.value.points) else None, depth, p2.value)
  }

  lemma EntryIsHead(l: R.Limits, o: bool, s: string, depth: int, seen: set<Points>, p: R.Progress)
    ensures EntryAt(l, o, s, depth, seen, p).Some? ==> ReadEntry(o, s).Some?
    ensures ReadEntry(o, s).Some? ==>
      var (name, v, after, t) := ReadEntry(o, s).value;
      && (name.Key? == o && (name.Key? ==> ValidBody(name.body)) && WellFormed(v))
      && var key := if name.Key? then Some(Decode(name.body)) else None;
         var q := HeadOf(l, R.Kid(key, TreeOf(v), R.Nil), depth, seen, p);
         EntryAt(l, o, s, depth, seen, p) == if q.None? then None else Some((R.Seen(seen, key), t, q.value))
  {
    if ReadEntry(o, s).Some? {
      ReadEntrySound(o, s);
      ItemIsText(ReadLabel(o, s).value.1);
    }
  }

  lemma CheckKidsUnfold(l: R.Limits, kids: R.Kids, depth: int, seen: set<Points>, p: R.Progress)
    requires kids.Kid?
    ensures R.CheckKids(l, kids, depth, seen, p) ==
      var head := HeadOf(l, kids, depth, seen, p);
      if head.None? then None else R.CheckKids(l, kids.rest, depth, R.Seen(seen, kids.key), head.value)
  {
  }

  lemma EntriesAtMeans(l: R.Limits, o: bool, s: string, depth: int, seen: set<Points>, p: R.Progress)
    requires ReadEntries(o, s).Some?
    ensures
      var (es, r) := ReadEntries(o, s).value;
      && es.Cons? && WellFormedEntries(o, es)
      && var head := HeadOf(l, KidsOf(o, es), depth, seen, p);
         var q := if head.None? then None
           else R.CheckKids(l, KidsOf(o, es.rest), depth, R.Seen(seen, KidsOf(o, es).key), head.value);
         EntriesAt(l, o, s, depth, seen, p) == if q.None? then None else Some((r, q.value))
  {
    ReadEntriesSound(o, s);
    CheckKidsUnfold(l, KidsOf(o, ReadEntries(o, s).value.0), depth, seen, p);
  }

  // Entries are read and checked one at a time, in document order.
  lemma EntriesUnfold(l: R.Limits, o: bool, s: string, depth: int, seen: set<Points>, p: R.Progress)
    ensures EntriesAt(l, o, s, depth, seen, p) ==
      var e := EntryAt(l, o, s, depth, seen, p);
      if e.None? || e.value.1 == "" then None
      else if e.value.1[0] == Closing(o) then Some((e.value.1[1..], e.value.2))
      else if e.value.1[0] != ',' then None
      else EntriesAt(l, o, Trim(e.value.1[1..]), depth, e.value.0, e.value.2)
  {
    EntryIsHead(l, o, s, depth, seen, p);
    if ReadEntries(o, s).Some? { EntriesReadUnfold(l, o, s, depth, seen, p); }
  }

  lemma EntriesReadUnfold(l: R.Limits, o: bool, s: string, depth: int, seen: set<Points>, p: R.Progress)
    requires ReadEntries(o, s).Some?
    ensures ReadEntry(o, s).Some? && ReadEntry(o, s).value.3 != ""
    ensures EntriesAt(l, o, s, depth, seen, p) ==
      var e, t := EntryAt(l, o, s, depth, seen, p), ReadEntry(o, s).value.3;
      if e.None? then None
      else if t[0] == Closing(o) then Some((t[1..], e.value.2))
      else if t[0] != ',' then None
      else EntriesAt(l, o, Trim(t[1..]), depth, e.value.0, e.value.2)
  {
    EntryIsHead(l, o, s, depth, seen, p);
    EntriesAtMeans(l, o, s, depth, seen, p);
    var (name, v, after, t) := ReadEntry(o, s).value;
    var (es, r) := ReadEntries(o, s).value;
    var key := if name.Key? then Some(Decode(name.body)) else None;
    assert KidsOf(o, es) == R.Kid(key, TreeOf(v), KidsOf(o, es.rest));
    assert HeadOf(l, KidsOf(o, es), depth, seen, p) == HeadOf(l, R.Kid(key, TreeOf(v), R.Nil), depth, seen, p);
    if t[0] != Closing(o) { ReadEntriesSound(o, Trim(t[1..])); }
  }

  // ---- The text after a token is a suffix of the text before it ----

  predicate Suffix(r: string, s: string) { |r| <= |s| && s[|s| - |r|..] == r }

  lemma {:induction false} TrimSuffix(s: string)
    ensures Suffix(Trim(s), s)
  {
    if s != "" && IsSpace(s[0]) { TrimSuffix(s[1..]); }
  }

  lemma {:induction false} ReadBodySuffix(s: string)
    requires ReadBody(s).Some?
    ensures Suffix(ReadBody(s).value.1, s)
  {
    if s[0] != '"' {
      var n := if s[0] != '\\' then 1 else if |s| >= 2 && s[1] == 'u' then 6 else 2;
      ReadBodySuffix(s[n..]);
    }
  }

  lemma {:induction false} ReadDigitsSuffix(s: string)
    ensures Suffix(ReadDigits(s).1, s)
  {
    if s != "" && Digit(s[0]) { ReadDigitsSuffix(s[1..]); }
  }

  lemma SuffixTransitive(a: string, b: string, c: string)
    requires Suffix(a, b) && Suffix(b, c)
    ensures Suffix(a, c)
  {
    assert c[|c| - |a|..] == c[|c| - |b|..][|b| - |a|..];
  }

  lemma ReadStringSuffix(s: string)
    requires ReadString(s).Some?
    ensures Suffix(ReadString(s).value.1, s)
  {
    ReadBodySuffix(s[1..]);
    SuffixTransitive(ReadString(s).value.1, s[1..], s);
  }

  // A suffix of the rest of a text, as a position in the text.
  lemma SuffixPosition(text: string, at: nat, r: string)
    requires at <= |text| && Suffix(r, text[at..])
    ensures at <= |text| - |r| && text[|text| - |r|..] == r
  {
  }

  lemma DropTwice(text: string, at: nat, n: nat)
    requires at + n <= |text|
    ensures text[at..][n..] == text[at + n..]
  {
  }

  lemma ReadFractionSuffix(s: string)
    ensures Suffix(ReadFraction(s).1, s)
  {
    if s != "" { ReadDigitsSuffix(s[1..]); }
  }

  lemma ReadExponentSuffix(s: string)
    ensures Suffix(ReadExponent(s).2, s)
  {
    var n := ExponentMarkLength(s);
    if n > 0 {
      ReadDigitsSuffix(s[n..]);
      SuffixTransitive(ReadDigits(s[n..]).1, s[n..], s);
    }
  }

  lemma ReadUnsignedSuffix(t: string)
    requires ReadUnsigned(t).Some?
    ensures Suffix(ReadUnsigned(t).value.1, t)
  {
    ReadDigitsSuffix(t);
    var r1 := ReadWhole(t).1;
    var r2 := ReadFraction(r1).1;
    ReadFractionSuffix(r1);
    ReadExponentSuffix(r2);
    SuffixTransitive(r2, r1, t);
    SuffixTransitive(ReadExponent(r2).2, r2, t);
  }

  lemma ReadNumberSuffix(s: string)
    requires ReadNumber(s).Some?
    ensures Suffix(ReadNumber(s).value.1, s)
  {
    if s == "" || s[0] != '-' {
      ReadUnsignedSuffix(s);
    } else {
      ReadUnsignedSuffix(s[1..]);
      SuffixTransitive(ReadNumber(s).value.1, s[1..], s);
    }
  }
}
