// The token walkers of backend/services/webhook-dispatcher/receiving/json.go and
// backend/internal/placement/json.go. The closures' shared variables are fields.

module GoReader {
  import opened Common
  import opened JsonStrings
  import opened GoTokens
  import opened JsonRules

  // The spelling of event_id lies outside the one difference between the foldings.
  lemma AliasMeans(k: Points)
    ensures Alias(k) <==> k != EVENT_ID && EqualFold(k, EVENT_ID)
  {
    EventIdSpelling();
    FoldingsAgree(k, EVENT_ID);
    assert forall i :: 0 <= i < |EVENT_ID| ==> GoFold(EVENT_ID[i]) != 115;
  }

  class Walker {
    const stream: Stream
    const limits: Limits
    var at: nat
    var tokens: int
    var id: Points

    ghost predicate Valid() reads this {
      at <= |stream.tokens| && tokens <= limits.maxTokens && Encodable(stream.tokens)
    }

    ghost function Rest(): seq<Token> reads this
      requires at <= |stream.tokens|
    {
      stream.tokens[at..]
    }

    ghost function State(): Progress reads this { Progress(tokens, id) }

    constructor (stream: Stream, limits: Limits)
      requires Encodable(stream.tokens) && limits.maxTokens >= 0
      ensures Valid() && this.stream == stream && this.limits == limits
      ensures at == 0 && Rest() == stream.tokens && State() == Progress(0, [])
    {
      this.stream, this.limits := stream, limits;
      at, tokens, id := 0, 0, [];
    }

    // Decoder.More: another element before the closing bracket.
    predicate More()
      requires Valid()
      reads this
    {
      if at < |stream.tokens| then !stream.tokens[at].Close? else stream.moreAtEnd
    }

    // next: count, then Decoder.Token.
    method Next() returns (t: Option<Token>)
      requires Valid()
      modifies `at, `tokens
      ensures t.Some? <==> Tick(limits, old(State())).Some? && old(Rest()) != []
      ensures t.Some? ==>
        && Valid() && at == old(at) + 1 && t.value == old(Rest())[0]
        && Some(State()) == Tick(limits, old(State())) && Rest() == old(Rest())[1..]
    {
      tokens := tokens + 1;
      if tokens > limits.maxTokens || at == |stream.tokens| {
        return None;
      }
      t := Some(stream.tokens[at]);
      at := at + 1;
    }

    // The name rule of the walk, as this reader applies it.
    predicate Allowed(k: Points, depth: int, seen: set<Points>)
      requires Scalars(k)
      ensures Allowed(k, depth, seen) <==> KeyAllowed(limits, k, depth, seen)
    {
      AliasMeans(k);
      |Utf8Points(k)| <= limits.maxKeyBytes && k !in seen && !(depth == 1 && k != EVENT_ID && EqualFold(k, EVENT_ID))
    }

    // The key of an object entry.
    method Key(depth: int, seen: set<Points>) returns (key: Option<Points>)
      requires Valid()
      modifies `at, `tokens
      ensures key.Some? <==>
        old(Rest()) != [] && old(Rest())[0].Word?
          && CheckKey(limits, Text_(old(Rest())[0]), depth, seen, old(State())).Some?
      ensures key.Some? ==>
        && Valid() && at == old(at) + 1 && Rest() == old(Rest())[1..]
        && key == Text_(old(Rest())[0]) && Some(State()) == CheckKey(limits, key, depth, seen, old(State()))
    {
      var t := Next();
      if t.None? || !t.value.Word? {
        return None;
      }
      var k := t.value.points;
      assert Scalars(k);
      if !Allowed(k, depth, seen) {
        return None;
      }
      return Some(k);
    }

    method Container(object_: bool, depth: int) returns (ok: bool)
      requires Valid() && depth >= 1
      modifies this
      ensures
        var kids := KidsAt(limits, object_, old(Rest()), depth, {}, old(State()));
        var r := if depth > limits.maxDepth then None else kids;
        && (ok <==> r.Some?)
        && (ok ==> Valid() && at > old(at) && Rest() == r.value.0 && State() == r.value.1)
      decreases |stream.tokens| - at
    {
      if depth > limits.maxDepth {
        return false;
      }
      var seen: set<Points> := {};
      while More()
        invariant Valid() && at >= old(at)
        invariant KidsAt(limits, object_, Rest(), depth, seen, State()) ==
          KidsAt(limits, object_, old(Rest()), depth, {}, old(State()))
        decreases |stream.tokens| - at
      {
        if Rest() == [] || (object_ && !Rest()[0].Word?) {
          KidsStuck(limits, object_, Rest(), depth, seen, State());
        } else {
          KidsUnfold(limits, object_, Rest(), depth, seen, State());
        }
        var key: Option<Points> := None;
        if object_ {
          key := Key(depth, seen);
          if key.None? {
            return false;
          }
        }
        ok := Value(key, depth);
        if !ok {
          return;
        }
        seen := Seen(seen, key);
      }
      if Rest() == [] || Rest()[0] != Close(object_) {
        KidsStuck(limits, object_, Rest(), depth, seen, State());
      } else {
        KidsEnd(limits, object_, Rest(), depth, seen, State());
      }
      var close := Next();
      ok := close == Some(Close(object_));
    }

    // A value token, the event_id rule for it, and its container when it opens one.
    method Value(key: Option<Points>, depth: int) returns (ok: bool)
      requires Valid() && depth >= 1
      modifies this
      ensures
        var v := if old(Rest()) == [] then None else TreeAt(limits, old(Rest()), depth + 1, old(State()));
        var q := if v.None? then None else IdAfter(key, Text_(old(Rest())[0]), depth, v.value.1);
        && (ok <==> q.Some?)
        && (ok ==> Valid() && at > old(at) && Rest() == v.value.0 && State() == q.value)
      decreases |stream.tokens| - at, 0
    {
      if Rest() != [] { TreeUnfold(limits, Rest(), depth + 1, State()); }
      var t := Next();
      if t.None? {
        return false;
      }
      if depth == 1 && key == Some(EVENT_ID) {
        if !t.value.Word? || !EventIdentity(t.value.points) {
          return false;
        }
        id := t.value.points;
      }
      match t.value
      case Open(o) => ok := Container(o, depth + 1);
      case Close(_) => return false;
      case Word(_) => return true;
      case Other => return true;
    }

    method EventId() returns (r: Option<Points>)
      requires Valid() && at == 0 && State() == Progress(0, [])
      modifies this
      ensures r == StreamId(limits, stream)
    {
      if Rest() != [] { TreeUnfold(limits, Rest(), 1, State()); }
      var first := Next();
      if first != Some(Open(true)) {
        return None;
      }
      var ok := Container(true, 1);
      if !ok || id == [] {
        return None;
      }
      // Only whitespace may follow.
      if at < |stream.tokens| || !stream.clean {
        return None;
      }
      return Some(id);
    }
  }

  // ---- walkValue of the placement decoder ----

  // strings.ToLower, as a function of the decoded key.
  type Lowering = Points -> Points

  const MAX_NESTING: int := 8

  // Levels below a value; a scalar and an empty container have none.
  function Height(t: Tree): nat {
    if t.Branch? then HeightKids(t.kids) else 0
  }

  function HeightKids(kids: Kids): nat {
    if kids.Nil? then 0 else Max(1 + Height(kids.value), HeightKids(kids.rest))
  }

  // At every level: names lower case and unique.
  ghost predicate Unambiguous(lower: Lowering, t: Tree) {
    t.Branch? ==> Unique(Names(t.kids)) && UnambiguousKids(lower, t.kids)
  }

  ghost predicate UnambiguousKids(lower: Lowering, kids: Kids) {
    kids.Kid? ==>
      && (kids.key.Some? ==> lower(kids.key.value) == kids.key.value)
      && Unambiguous(lower, kids.value) && UnambiguousKids(lower, kids.rest)
  }

  ghost predicate Strict(lower: Lowering, t: Tree, depth: int) {
    Unambiguous(lower, t) && depth + Height(t) <= MAX_NESTING
  }

  ghost predicate StrictKids(lower: Lowering, kids: Kids, depth: int, seen: set<Points>) {
    && FreshNames(kids, seen) && UnambiguousKids(lower, kids)
    && depth <= MAX_NESTING && depth + HeightKids(kids) <= MAX_NESTING
  }

  lemma StrictKidsStep(lower: Lowering, kids: Kids, depth: int, seen: set<Points>)
    requires kids.Kid?
    ensures StrictKids(lower, kids, depth, seen) <==>
      && (kids.key.Some? ==> kids.key.value !in seen && lower(kids.key.value) == kids.key.value)
      && Strict(lower, kids.value, depth + 1) && StrictKids(lower, kids.rest, depth, Seen(seen, kids.key))
  {
    if kids.key.Some? { FreshNamesStep(kids, seen); } else { assert Names(kids) == Names(kids.rest); }
  }

  class StrictWalker {
    const stream: Stream
    const lower: Lowering
    var at: nat

    ghost predicate Valid() reads this { at <= |stream.tokens| }

    ghost function Rest(): seq<Token> reads this
      requires Valid()
    {
      stream.tokens[at..]
    }

    constructor (stream: Stream, lower: Lowering)
      ensures Valid() && this.stream == stream && this.lower == lower && at == 0 && Rest() == stream.tokens
    {
      this.stream, this.lower, at := stream, lower, 0;
    }

    predicate More()
      requires Valid()
      reads this
    {
      if at < |stream.tokens| then !stream.tokens[at].Close? else stream.moreAtEnd
    }

    method Next() returns (t: Option<Token>)
      requires Valid()
      modifies `at
      ensures Valid() && (t.None? <==> old(Rest()) == [])
      ensures t.Some? ==> at == old(at) + 1 && t.value == old(Rest())[0] && Rest() == old(Rest())[1..]
    {
      if at == |stream.tokens| {
        return None;
      }
      t := Some(stream.tokens[at]);
      at := at + 1;
    }

    // Succeeds exactly when a whole value is next and it is strict at this depth.
    method WalkValue(depth: int) returns (ok: bool)
      requires Valid()
      modifies `at
      ensures Valid() && (ok <==> Take(old(Rest())).Some? && Strict(lower, Take(old(Rest())).value.0, depth))
      ensures ok ==> at > old(at) && Rest() == Take(old(Rest())).value.1
      decreases |stream.tokens| - at, 0
    {
      if depth > MAX_NESTING {
        return false;
      }
      var t := Next();
      if t.None? {
        return false;
      }
      match t.value
      case Word(_) => return true;
      case Other => return true;
      case Close(_) => return false;
      case Open(o) => ok := WalkKids(o, depth);
    }

    // The loop over one container's elements, with its closing bracket.
    method WalkKids(object_: bool, depth: int) returns (ok: bool)
      requires Valid() && depth <= MAX_NESTING
      modifies `at
      ensures var kids := TakeKids(object_, old(Rest()));
        Valid() && (ok <==> kids.Some? && StrictKids(lower, kids.value.0, depth, {}))
      ensures ok ==> at > old(at) && Rest() == TakeKids(object_, old(Rest())).value.1
      decreases |stream.tokens| - at, 1
    {
      var seen: set<Points> := {};
      while More()
        invariant Valid() && at >= old(at)
        invariant StrictAt(lower, object_, Rest(), depth, seen) == StrictAt(lower, object_, old(Rest()), depth, {})
        decreases |stream.tokens| - at
      {
        StrictAtUnfold(lower, object_, Rest(), depth, seen);
        var key: Option<Points> := None;
        if object_ {
          var t := Next();
          if t.None? || !t.value.Word? || t.value.points != lower(t.value.points) || t.value.points in seen {
            return false;
          }
          key := Some(t.value.points);
        }
        ok := WalkValue(depth + 1);
        if !ok {
          return;
        }
        seen := Seen(seen, key);
      }
      StrictAtUnfold(lower, object_, Rest(), depth, seen);
      var close := Next();
      ok := close == Some(Close(object_));
    }

    // strictDecode up to the typed decoder: one value, nothing after it.
    method StrictDecode() returns (ok: bool)
      requires Valid() && at == 0
      modifies `at
      ensures ok <==> stream.clean && exists t :: Shaped(t) && stream.tokens == Put(t, []) && Strict(lower, t, 0)
    {
      ghost var taken := Take(stream.tokens);
      if taken.Some? { TakeSound(stream.tokens); }
      forall t | Shaped(t) && stream.tokens == Put(t, []) ensures taken == Some((t, [])) { TakePut(t, []); }
      ok := WalkValue(0);
      if !ok {
        return;
      }
      ok := at == |stream.tokens| && stream.clean;
    }
  }

  // The tokens left after a container, when it is strict.
  ghost function StrictAt(lower: Lowering, o: bool, ts: seq<Token>, depth: int, seen: set<Points>): Option<seq<Token>> {
    var kids := TakeKids(o, ts);
    if kids.Some? && StrictKids(lower, kids.value.0, depth, seen) then Some(kids.value.1) else None
  }

  lemma StrictAtUnfold(lower: Lowering, o: bool, ts: seq<Token>, depth: int, seen: set<Points>)
    requires depth <= MAX_NESTING
    ensures ts == [] ==> StrictAt(lower, o, ts, depth, seen).None?
    ensures ts != [] && ts[0] == Close(o) ==> StrictAt(lower, o, ts, depth, seen) == Some(ts[1..])
    ensures ts != [] && ts[0] != Close(o) ==>
      var key, us := if o then Text_(ts[0]) else None, if o then ts[1..] else ts;
      StrictAt(lower, o, ts, depth, seen) ==
        if (o && (key.None? || key.value in seen || lower(key.value) != key.value))
          || Take(us).None? || !Strict(lower, Take(us).value.0, depth + 1) then None
        else StrictAt(lower, o, Take(us).value.1, depth, Seen(seen, key))
  {
    if ts != [] && ts[0] != Close(o) && TakeKids(o, ts).Some? {
      StrictKidsStep(lower, TakeKids(o, ts).value.0, depth, seen);
    }
  }
}
