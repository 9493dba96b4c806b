// What the event-identity readers accept, twice: as a walk in document order
// (Check, the meeting point of both readers) and as a property of the whole tree
// (Accepted), proved equal.

module JsonRules {
  import opened Common
  import opened JsonStrings
  import N = Names

  // A document without its spelling.
  datatype Tree = Text(points: Points) | Scalar | Branch(object_: bool, kids: Kids)
  datatype Kids = Nil | Kid(key: Option<Points>, value: Tree, rest: Kids)

  predicate Shaped(t: Tree)
    decreases t
  {
    t.Branch? ==> ShapedKids(t.object_, t.kids)
  }

  predicate ShapedKids(o: bool, kids: Kids)
    decreases kids
  {
    kids.Kid? ==> kids.key.Some? == o && Shaped(kids.value) && ShapedKids(o, kids.rest)
  }

  datatype Limits = Limits(maxDepth: int, maxTokens: int, maxKeyBytes: int)

  predicate ValidLimits(l: Limits) {
    1 <= l.maxDepth <= 64 && 4 <= l.maxTokens <= 65536 && 8 <= l.maxKeyBytes <= 4096
  }

  const EVENT_ID: Points := [101, 118, 101, 110, 116, 95, 105, 100]

  lemma EventIdSpelling()
    ensures EVENT_ID == PointsOf("event_id") && LowerAscii(EVENT_ID) && 115 !in EVENT_ID
  {
  }

  // [A-Za-z0-9][A-Za-z0-9_:-]{0,127}, on code points.
  predicate EventIdentity(id: Points) {
    && 1 <= |id| <= 128
    && AlphaNumPoint(id[0])
    && forall i :: 0 <= i < |id| ==> AlphaNumPoint(id[i]) || id[i] in {95, 58, 45}
  }

  predicate AlphaNumPoint(p: int) { 48 <= p <= 57 || 65 <= p <= 90 || 97 <= p <= 122 }

  // On texts it is the token without a dot that the signing contract asks of a header.
  lemma IdentityIsUndotted(s: string)
    ensures EventIdentity(PointsOf(s)) <==> N.UndottedToken(s)
  {
    var ps := PointsOf(s);
    assert forall i :: 0 <= i < |s| ==> ps[i] == s[i] as int;
    if N.Token(s) && '.' !in s {
      forall i | 0 <= i < |ps| ensures AlphaNumPoint(ps[i]) || ps[i] in {95, 58, 45} { assert s[i] in s; }
    }
  }

  // A root key that is not event_id but would be taken for it ignoring case.
  predicate Alias(k: Points) { k != EVENT_ID && PyLower(k) == EVENT_ID }

  // ---- The walk ----

  datatype Progress = Progress(tokens: int, id: Points)

  function Tick(l: Limits, p: Progress): Option<Progress> {
    if p.tokens + 1 > l.maxTokens then None else Some(p.(tokens := p.tokens + 1))
  }

  predicate KeyAllowed(l: Limits, k: Points, depth: int, seen: set<Points>) {
    Scalars(k) && |Utf8Points(k)| <= l.maxKeyBytes && k !in seen && !(depth == 1 && Alias(k))
  }

  function CheckKey(l: Limits, key: Option<Points>, depth: int, seen: set<Points>, p: Progress): Option<Progress> {
    if key.None? then Some(p)
    else
      var p1 := Tick(l, p);
      if p1.None? || !KeyAllowed(l, key.value, depth, seen) then None else p1
  }

  predicate IsIdEntry(key: Option<Points>, depth: int) { depth == 1 && key == Some(EVENT_ID) }

  // Keeps the root's event_id, which must be a string that is a valid identity.
  function IdAfter(key: Option<Points>, item: Option<Points>, depth: int, p: Progress): Option<Progress> {
    if !IsIdEntry(key, depth) then Some(p)
    else if item.None? || !EventIdentity(item.value) then None
    else Some(p.(id := item.value))
  }

  function Check(l: Limits, t: Tree, depth: int, p: Progress): Option<Progress> {
    match t
    case Text(points) => if Scalars(points) then Tick(l, p) else None
    case Scalar => Tick(l, p)
    case Branch(o, kids) =>
      if depth > l.maxDepth then None
      else
        var p1 := Tick(l, p);
        if p1.None? then None
        else
          var p2 := CheckKids(l, kids, depth, {}, p1.value);
          if p2.None? then None else Tick(l, p2.value)
  }

  function CheckKids(l: Limits, kids: Kids, depth: int, seen: set<Points>, p: Progress): Option<Progress> {
    match kids
    case Nil => Some(p)
    case Kid(key, value, rest) =>
      var p1 := CheckKey(l, key, depth, seen, p);
      if p1.None? then None
      else
        var p2 := Check(l, value, depth + 1, p1.value);
        if p2.None? then None
        else if !IsIdEntry(key, depth) then CheckKids(l, rest, depth, Seen(seen, key), p2.value)
        else if !value.Text? || !EventIdentity(value.points) then None
        else CheckKids(l, rest, depth, Seen(seen, key), p2.value.(id := value.points))
  }

  function Seen(seen: set<Points>, key: Option<Points>): set<Points> {
    if key.Some? then seen + {key.value} else seen
  }

  // The whole reader on a root value.
  function CheckRoot(l: Limits, t: Tree): Option<Points> {
    if !t.Branch? || !t.object_ then None
    else
      var p := Check(l, t, 1, Progress(0, []));
      if p.None? || p.value.id == [] then None else Some(p.value.id)
  }

  // ---- The same as a property of the tree ----

  // Keys, values and brackets; commas and colons do not count.
  function Count(t: Tree): nat {
    if t.Branch? then 2 + CountKids(t.kids) else 1
  }

  function CountKids(kids: Kids): nat {
    if kids.Nil? then 0 else (if kids.key.Some? then 1 else 0) + Count(kids.value) + CountKids(kids.rest)
  }

  function Max(a: int, b: int): int { if a < b then b else a }

  function Depth(t: Tree): nat {
    if t.Branch? then 1 + DepthKids(t.kids) else 0
  }

  function DepthKids(kids: Kids): nat {
    if kids.Nil? then 0 else Max(Depth(kids.value), DepthKids(kids.rest))
  }

  function Names(kids: Kids): seq<Points> {
    if kids.Nil? then [] else (if kids.key.Some? then [kids.key.value] else []) + Names(kids.rest)
  }

  ghost predicate Unique(names: seq<Points>) {
    forall i, j :: 0 <= i < j < |names| ==> names[i] != names[j]
  }

  // At every level: strings encodable, names unique and short.
  ghost predicate Tidy(l: Limits, t: Tree) {
    match t
    case Text(points) => Scalars(points)
    case Scalar => true
    case Branch(_, kids) => Unique(Names(kids)) && TidyKids(l, kids)
  }

  ghost predicate TidyKids(l: Limits, kids: Kids) {
    kids.Kid? ==>
      && (kids.key.Some? ==> Scalars(kids.key.value) && |Utf8Points(kids.key.value)| <= l.maxKeyBytes)
      && Tidy(l, kids.value) && TidyKids(l, kids.rest)
  }

  function Lookup(kids: Kids, name: Points): Option<Tree> {
    if kids.Nil? then None
    else if kids.key == Some(name) then Some(kids.value)
    else Lookup(kids.rest, name)
  }

  ghost predicate Accepted(l: Limits, t: Tree, id: Points) {
    && t.Branch? && t.object_
    && Tidy(l, t) && Depth(t) <= l.maxDepth && Count(t) <= l.maxTokens
    && (forall k :: k in Names(t.kids) ==> !Alias(k))
    && Lookup(t.kids, EVENT_ID) == Some(Text(id)) && EventIdentity(id)
  }

  ghost predicate FreshNames(kids: Kids, seen: set<Points>) {
    Unique(Names(kids)) && forall k :: k in Names(kids) ==> k !in seen
  }

  lemma FreshNamesStep(kids: Kids, seen: set<Points>)
    requires kids.Kid? && kids.key.Some?
    ensures FreshNames(kids, seen) <==> kids.key.value !in seen && FreshNames(kids.rest, seen + {kids.key.value})
  {
    var k, rest := kids.key.value, Names(kids.rest);
    var names := Names(kids);
    assert names == [k] + rest;
    assert forall i :: 0 <= i < |rest| ==> names[i + 1] == rest[i];
    if FreshNames(kids, seen) {
      assert names[0] in names;
      assert forall r :: r in rest ==> r in names;
    }
    if k !in seen && FreshNames(kids.rest, seen + {k}) {
      forall i, j | 0 <= i < j < |names| ensures names[i] != names[j] {
        assert names[j] == rest[j - 1];
        if i > 0 { assert names[i] == rest[i - 1]; } else { assert rest[j - 1] in rest; }
      }
    }
  }

  // Below the root the walk succeeds exactly on tidy trees within the budgets, and
  // its counter is the tree's token count.
  lemma {:induction false} CheckIsExact(l: Limits, t: Tree, depth: int, p: Progress)
    requires depth >= 2 && p.tokens <= l.maxTokens
    ensures Check(l, t, depth, p) ==
      if Tidy(l, t) && (Depth(t) == 0 || depth + Depth(t) - 1 <= l.maxDepth) && p.tokens + Count(t) <= l.maxTokens
      then Some(p.(tokens := p.tokens + Count(t))) else None
    decreases t
  {
    if t.Branch? && p.tokens < l.maxTokens {
      CheckKidsIsExact(l, t.kids, depth, {}, p.(tokens := p.tokens + 1));
    }
  }

  lemma {:induction false} CheckKidsIsExact(l: Limits, kids: Kids, depth: int, seen: set<Points>, p: Progress)
    requires depth >= 2 && p.tokens <= l.maxTokens
    ensures CheckKids(l, kids, depth, seen, p) ==
      if FreshNames(kids, seen) && TidyKids(l, kids)
        && (DepthKids(kids) == 0 || depth + DepthKids(kids) <= l.maxDepth) && p.tokens + CountKids(kids) <= l.maxTokens
      then Some(p.(tokens := p.tokens + CountKids(kids))) else None
    decreases kids
  {
    if kids.Kid? {
      var p1 := CheckKey(l, kids.key, depth, seen, p);
      if kids.key.Some? { FreshNamesStep(kids, seen); } else { assert Names(kids) == Names(kids.rest); }
      if p1.Some? {
        CheckIsExact(l, kids.value, depth + 1, p1.value);
        var p2 := Check(l, kids.value, depth + 1, p1.value);
        if p2.Some? { CheckKidsIsExact(l, kids.rest, depth, Seen(seen, kids.key), p2.value); }
      }
    }
  }

  // At the root the walk also finds the one event_id and refuses its aliases.
  ghost predicate RootAllowed(l: Limits, kids: Kids, seen: set<Points>, tokens: int) {
    && FreshNames(kids, seen) && TidyKids(l, kids)
    && (DepthKids(kids) == 0 || 1 + DepthKids(kids) <= l.maxDepth) && tokens + CountKids(kids) <= l.maxTokens
    && (forall k :: k in Names(kids) ==> !Alias(k))
    && IdFits(kids)
  }

  predicate IdFits(kids: Kids) {
    var id := Lookup(kids, EVENT_ID);
    id.Some? ==> id.value.Text? && EventIdentity(id.value.points)
  }

  lemma {:induction false} LookupNamed(kids: Kids, name: Points)
    ensures Lookup(kids, name).Some? <==> name in Names(kids)
  {
    if kids.Kid? { LookupNamed(kids.rest, name); }
  }

  ghost predicate HeadAllowed(l: Limits, k: Points, v: Tree, seen: set<Points>, tokens: int) {
    && KeyAllowed(l, k, 1, seen) && Tidy(l, v) && (Depth(v) == 0 || 1 + Depth(v) <= l.maxDepth)
    && (k == EVENT_ID ==> v.Text? && EventIdentity(v.points))
    && tokens + 1 + Count(v) <= l.maxTokens
  }

  lemma RootAllowedStep(l: Limits, kids: Kids, seen: set<Points>, tokens: int)
    requires kids.Kid? && kids.key.Some?
    ensures
      var k, v := kids.key.value, kids.value;
      RootAllowed(l, kids, seen, tokens) <==>
        HeadAllowed(l, k, v, seen, tokens) && RootAllowed(l, kids.rest, seen + {k}, tokens + 1 + Count(v))
  {
    var k, v, rest := kids.key.value, kids.value, Names(kids.rest);
    FreshNamesStep(kids, seen);
    assert Names(kids) == [k] + rest;
    assert forall n :: n in Names(kids) <==> n == k || n in rest;
    if k == EVENT_ID {
      LookupNamed(kids.rest, EVENT_ID);
      assert IdFits(kids) <==> v.Text? && EventIdentity(v.points);
      assert EVENT_ID !in rest ==> IdFits(kids.rest);
    } else {
      assert IdFits(kids) <==> IdFits(kids.rest);
    }
  }

  function RootId(kids: Kids, id: Points): Points {
    var found := Lookup(kids, EVENT_ID);
    if found.Some? && found.value.Text? then found.value.points else id
  }

  ghost function RootResult(l: Limits, kids: Kids, seen: set<Points>, p: Progress): Option<Progress> {
    if !RootAllowed(l, kids, seen, p.tokens) then None
    else Some(Progress(p.tokens + CountKids(kids), RootId(kids, p.id)))
  }

  function AfterHead(p: Progress, k: Points, v: Tree): Progress {
    Progress(p.tokens + 1 + Count(v), if k == EVENT_ID && v.Text? then v.points else p.id)
  }

  // A second event_id would repeat the name, so the first one is the answer.
  lemma RootIdStep(kids: Kids, seen: set<Points>, id: Points)
    requires kids.Kid? && kids.key.Some? && FreshNames(kids.rest, seen + {kids.key.value})
    ensures
      var next := if kids.key.value == EVENT_ID && kids.value.Text? then kids.value.points else id;
      RootId(kids, id) == RootId(kids.rest, next)
  {
    if kids.key.value == EVENT_ID { LookupNamed(kids.rest, EVENT_ID); }
  }

  lemma RootResultStep(l: Limits, kids: Kids, seen: set<Points>, p: Progress)
    requires kids.Kid? && kids.key.Some?
    ensures
      var k, v := kids.key.value, kids.value;
      RootResult(l, kids, seen, p) ==
        if HeadAllowed(l, k, v, seen, p.tokens) then RootResult(l, kids.rest, seen + {k}, AfterHead(p, k, v)) else None
  {
    RootAllowedStep(l, kids, seen, p.tokens);
    if RootAllowed(l, kids, seen, p.tokens) { RootIdStep(kids, seen, p.id); }
  }

  lemma HeadStep(l: Limits, k: Points, v: Tree, seen: set<Points>, p: Progress)
    requires p.tokens <= l.maxTokens
    ensures
      var p1 := CheckKey(l, Some(k), 1, seen, p);
      var p2 := if p1.None? then None else Check(l, v, 2, p1.value);
      && (HeadAllowed(l, k, v, seen, p.tokens) <==> p2.Some? && (k == EVENT_ID ==> v.Text? && EventIdentity(v.points)))
      && (p2.Some? ==> p2.value == p.(tokens := p.tokens + 1 + Count(v)))
  {
    var p1 := CheckKey(l, Some(k), 1, seen, p);
    if p1.Some? { CheckIsExact(l, v, 2, p1.value); }
  }

  lemma {:induction false} CheckRootKidsIsExact(l: Limits, kids: Kids, seen: set<Points>, p: Progress)
    requires p.tokens <= l.maxTokens && ShapedKids(true, kids)
    ensures CheckKids(l, kids, 1, seen, p) == RootResult(l, kids, seen, p)
    decreases kids
  {
    if kids.Kid? {
      var k, v := kids.key.value, kids.value;
      RootResultStep(l, kids, seen, p);
      HeadStep(l, k, v, seen, p);
      if HeadAllowed(l, k, v, seen, p.tokens) {
        CheckRootKidsIsExact(l, kids.rest, seen + {k}, AfterHead(p, k, v));
      }
    }
  }

  // The walk accepts exactly the accepted trees, with their event_id.
  lemma CheckRootIsExact(l: Limits, t: Tree, id: Points)
    requires Shaped(t) && ValidLimits(l)
    ensures CheckRoot(l, t) == Some(id) <==> Accepted(l, t, id)
    ensures CheckRoot(l, t).Some? ==> Check(l, t, 1, Progress(0, [])).value.tokens == Count(t)
  {
    if t.Branch? && t.object_ {
      var p := Progress(1, []);
      CheckRootKidsIsExact(l, t.kids, {}, p);
      var q := RootResult(l, t.kids, {}, p);
      assert Check(l, t, 1, Progress(0, [])) == if q.None? then None else Tick(l, q.value);
      assert FreshNames(t.kids, {}) <==> Unique(Names(t.kids));
    }
  }
}
