// The Go token stream. encoding/json yields brackets, decoded strings and scalars;
// commas and colons are consumed silently. A stream may also stop at a syntax error.

module GoTokens {
  import opened Common
  import opened JsonStrings
  import opened R = JsonRules

  datatype Token = Open(object_: bool) | Close(object_: bool) | Word(points: Points) | Other

  // clean: the tokens are followed by end of input, not by a syntax error.
  // moreAtEnd: what Decoder.More answers once the tokens are used up.
  datatype Stream = Stream(tokens: seq<Token>, clean: bool, moreAtEnd: bool)

  // Decoded strings carry no surrogates: the decoder replaces unpaired ones.
  ghost predicate Encodable(ts: seq<Token>) {
    forall i :: 0 <= i < |ts| && ts[i].Word? ==> Scalars(ts[i].points)
  }

  // The tokens of a tree, in front of r.
  function Put(t: Tree, r: seq<Token>): seq<Token>
    decreases t
  {
    match t
    case Text(points) => [Word(points)] + r
    case Scalar => [Other] + r
    case Branch(o, kids) => [Open(o)] + PutKids(kids, [Close(o)] + r)
  }

  function PutKids(kids: Kids, r: seq<Token>): seq<Token>
    decreases kids
  {
    match kids
    case Nil => r
    case Kid(key, v, rest) =>
      var tail := Put(v, PutKids(rest, r));
      if key.Some? then [Word(key.value)] + tail else tail
  }

  // The tree at the front of a stream, and the tokens after it.
  function Take(ts: seq<Token>): (r: Option<(Tree, seq<Token>)>)
    ensures r.Some? ==> |r.value.1| < |ts|
    decreases |ts|, 0
  {
    if ts == [] then None
    else
      match ts[0]
      case Word(points) => Some((Text(points), ts[1..]))
      case Other => Some((Scalar, ts[1..]))
      case Close(_) => None
      case Open(o) =>
        var kids := TakeKids(o, ts[1..]);
        if kids.None? then None else Some((Branch(o, kids.value.0), kids.value.1))
  }

  function TakeKids(o: bool, ts: seq<Token>): (r: Option<(Kids, seq<Token>)>)
    ensures r.Some? ==> |r.value.1| < |ts|
    decreases |ts|, 1
  {
    if ts == [] then None
    else if ts[0] == Close(o) then Some((Nil, ts[1..]))
    else if o && !ts[0].Word? then None
    else
      var v := Take(if o then ts[1..] else ts);
      if v.None? then None
      else
        var rest := TakeKids(o, v.value.1);
        if rest.None? then None
        else Some((Kid(if o then Some(ts[0].points) else None, v.value.0, rest.value.0), rest.value.1))
  }

  lemma {:induction false} TakePut(t: Tree, r: seq<Token>)
    requires Shaped(t)
    ensures Take(Put(t, r)) == Some((t, r))
    ensures Put(t, r) != [] && !Put(t, r)[0].Close?
    decreases t
  {
    if t.Branch? {
      TakePutKids(t.object_, t.kids, r);
      assert Put(t, r)[1..] == PutKids(t.kids, [Close(t.object_)] + r);
    }
  }

  lemma {:induction false} TakePutKids(o: bool, kids: Kids, r: seq<Token>)
    requires ShapedKids(o, kids)
    ensures TakeKids(o, PutKids(kids, [Close(o)] + r)) == Some((kids, r))
    decreases kids
  {
    var ts := PutKids(kids, [Close(o)] + r);
    if kids.Kid? {
      var tail := PutKids(kids.rest, [Close(o)] + r);
      TakePut(kids.value, tail);
      TakePutKids(o, kids.rest, r);
      if o { assert ts[1..] == Put(kids.value, tail); }
    } else {
      assert ts[1..] == r;
    }
  }

  lemma {:induction false} TakeSound(ts: seq<Token>)
    requires Take(ts).Some?
    ensures Shaped(Take(ts).value.0) && ts == Put(Take(ts).value.0, Take(ts).value.1)
    decreases |ts|, 0
  {
    assert ts == [ts[0]] + ts[1..];
    if ts[0].Open? { TakeKidsSound(ts[0].object_, ts[1..]); }
  }

  lemma {:induction false} TakeKidsSound(o: bool, ts: seq<Token>)
    requires TakeKids(o, ts).Some?
    ensures
      var (kids, r) := TakeKids(o, ts).value;
      ShapedKids(o, kids) && ts == PutKids(kids, [Close(o)] + r)
    decreases |ts|, 1
  {
    assert ts == [ts[0]] + ts[1..];
    if ts[0] != Close(o) {
      var us := if o then ts[1..] else ts;
      TakeSound(us);
      TakeKidsSound(o, Take(us).value.1);
    }
  }

  // ---- The event-identity walk over a stream ----

  function StreamId(l: Limits, s: Stream): Option<Points> {
    var t := Take(s.tokens);
    if t.None? || t.value.1 != [] || !s.clean then None else CheckRoot(l, t.value.0)
  }

  function TreeAt(l: Limits, ts: seq<Token>, depth: int, p: Progress): (r: Option<(seq<Token>, Progress)>)
    ensures r.Some? ==> |r.value.0| < |ts|
  {
    var t := Take(ts);
    if t.None? then None
    else
      var q := Check(l, t.value.0, depth, p);
      if q.None? then None else Some((t.value.1, q.value))
  }

  // The kids up to and with the closing bracket.
  function KidsAt(l: Limits, o: bool, ts: seq<Token>, depth: int, seen: set<Points>, p: Progress)
    : (r: Option<(seq<Token>, Progress)>)
    ensures r.Some? ==> |r.value.0| < |ts|
  {
    var kids := TakeKids(o, ts);
    if kids.None? then None
    else
      var q := CheckKids(l, kids.value.0, depth, seen, p);
      var c := if q.None? then None else Tick(l, q.value);
      if c.None? then None else Some((kids.value.1, c.value))
  }

  function Text_(t: Token): Option<Points> { if t.Word? then Some(t.points) else None }

  lemma TreeUnfold(l: Limits, ts: seq<Token>, depth: int, p: Progress)
    requires ts != []
    ensures TreeAt(l, ts, depth, p) ==
      match ts[0]
      case Close(_) => None
      case Open(o) =>
        var p1 := Tick(l, p);
        if depth > l.maxDepth || p1.None? then None else KidsAt(l, o, ts[1..], depth, {}, p1.value)
      case Word(points) =>
        var p1 := Tick(l, p);
        if !Scalars(points) || p1.None? then None else Some((ts[1..], p1.value))
      case Other =>
        var p1 := Tick(l, p);
        if p1.None? then None else Some((ts[1..], p1.value))
  {
  }

  // One kid, then the rest.
  lemma KidsUnfold(l: Limits, o: bool, ts: seq<Token>, depth: int, seen: set<Points>, p: Progress)
    requires ts != [] && ts[0] != Close(o) && (o ==> ts[0].Word?)
    ensures KidsAt(l, o, ts, depth, seen, p) ==
      var key, us := if o then Text_(ts[0]) else None, if o then ts[1..] else ts;
      var p1 := CheckKey(l, key, depth, seen, p);
      if p1.None? then None
      else
        var v := TreeAt(l, us, depth + 1, p1.value);
        if v.None? then None
        else
          var q := IdAfter(key, Text_(us[0]), depth, v.value.1);
          if q.None? then None else KidsAt(l, o, v.value.0, depth, Seen(seen, key), q.value)
  {
    var us := if o then ts[1..] else ts;
    if Take(us).Some? {
      assert Take(us).value.0.Text? <==> us[0].Word?;
      if TakeKids(o, ts).Some? {
        var kids := TakeKids(o, ts).value.0;
        assert kids.rest == TakeKids(o, Take(us).value.1).value.0;
      }
    }
  }

  lemma KidsStuck(l: Limits, o: bool, ts: seq<Token>, depth: int, seen: set<Points>, p: Progress)
    requires ts == [] || (ts[0] != Close(o) && (ts[0].Close? || (o && !ts[0].Word?)))
    ensures KidsAt(l, o, ts, depth, seen, p).None?
  {
    if ts != [] && !o { assert Take(ts).None?; }
  }

  lemma KidsEnd(l: Limits, o: bool, ts: seq<Token>, depth: int, seen: set<Points>, p: Progress)
    requires ts != [] && ts[0] == Close(o)
    ensures KidsAt(l, o, ts, depth, seen, p) ==
      var c := Tick(l, p); if c.None? then None else Some((ts[1..], c.value))
  {
  }
}
