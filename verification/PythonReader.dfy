// The character scanner _Reader of backend/sdk/python/greeto_webhooks/event.py.
// A raised WebhookEventError is a false or None result; the reader is then dropped.

module PythonReader {
  import opened Common
  import opened JsonStrings
  import opened JsonText
  import opened JsonTree
  import R = JsonRules

  class Reader {
    const text: string
    const limits: R.Limits
    var at: nat
    var tokens: int
    var eventId: Points

    ghost predicate Valid() reads this { at <= |text| && tokens <= limits.maxTokens }

    // What is left to read.
    ghost function Rest(): string reads this
      requires at <= |text|
    {
      text[at..]
    }

    ghost function State(): R.Progress reads this { R.Progress(tokens, eventId) }

    constructor (text: string, limits: R.Limits)
      requires limits.maxTokens >= 0
      ensures Valid() && this.text == text && this.limits == limits
      ensures Rest() == text && State() == R.Progress(0, [])
    {
      this.text, this.limits := text, limits;
      at, tokens, eventId := 0, 0, [];
    }

    method Space()
      requires Valid()
      modifies `at
      ensures Valid() && at >= old(at) && Rest() == Trim(old(Rest()))
    {
      while at < |text| && IsSpace(text[at])
        invariant old(at) <= at <= |text| && Trim(Rest()) == Trim(old(Rest()))
      {
        assert Rest()[1..] == text[at + 1..];
        at := at + 1;
      }
    }

    function Peek(): (c: Option<char>)
      requires Valid()
      reads this
      ensures c == if Rest() == "" then None else Some(Rest()[0])
    {
      if at < |text| then Some(text[at]) else None
    }

    method Tick() returns (ok: bool)
      requires Valid()
      modifies `tokens
      ensures ok <==> R.Tick(limits, old(State())).Some?
      ensures ok ==> Valid() && Some(State()) == R.Tick(limits, old(State()))
    {
      tokens := tokens + 1;
      ok := tokens <= limits.maxTokens;
    }

    // raw_decode on a quoted string, then the strict UTF-8 encoding check.
    method String() returns (value: Option<Points>)
      requires Valid() && Rest() != "" && Rest()[0] == '"'
      modifies `at, `tokens
      ensures value.Some? <==>
        R.Tick(limits, old(State())).Some? && ItemAt(old(Rest())).Some? && Scalars(ItemAt(old(Rest())).value)
      ensures value.Some? ==>
        && Valid() && at > old(at) && value == ItemAt(old(Rest()))
        && Some(State()) == R.Tick(limits, old(State())) && Rest() == ReadString(old(Rest())).value.1
    {
      var ok := Tick();
      if !ok {
        return None;
      }
      var s := text[at..];
      var decoded := ReadString(s);
      if decoded.None? {
        return None;
      }
      ReadStringSound(s);
      var (body, rest) := decoded.value;
      var v := Decode(body);
      if exists i :: 0 <= i < |v| && (HighSurrogate(v[i]) || LowSurrogate(v[i])) {
        return None;
      }
      ReadStringSuffix(s);
      SuffixPosition(text, at, rest);
      at := |text| - |rest|;
      return Some(v);
    }

    // The length of the literal at the front of s, or 0.
    static method Literal(s: string) returns (n: nat)
      ensures n == 0 ==> ReadScalar(s) == ReadNumber(s)
      ensures n > 0 ==> n <= |s| && ReadScalar(s).Some? && ReadScalar(s).value.1 == s[n..]
    {
      var literals := ["true", "false", "null"];
      for k := 0 to 3
        invariant k > 0 ==> !("true" <= s)
        invariant k > 1 ==> !("false" <= s)
        invariant k > 2 ==> !("null" <= s)
      {
        if literals[k] <= s {
          return |literals[k]|;
        }
      }
      n := 0;
    }

    // A literal or a number.
    method Atom() returns (ok: bool)
      requires Valid()
      requires Rest() != "" ==> Rest()[0] !in {'"', '{', '['}
      modifies `at, `tokens
      ensures ok <==> R.Tick(limits, old(State())).Some? && ReadScalar(old(Rest())).Some?
      ensures ok ==>
        && Valid() && at > old(at)
        && Some(State()) == R.Tick(limits, old(State())) && Rest() == ReadScalar(old(Rest())).value.1
    {
      ok := Tick();
      if !ok {
        return;
      }
      var s := text[at..];
      ReadScalarSound(s);
      var n := Literal(s);
      if n > 0 {
        DropTwice(text, at, n);
        at := at + n;
        return true;
      }
      var match_ := ReadNumber(s);
      if match_.None? {
        return false;
      }
      ReadNumberSuffix(s);
      SuffixPosition(text, at, match_.value.1);
      at := |text| - |match_.value.1|;
      return true;
    }

    method Value(depth: int) returns (ok: bool, item: Option<Points>)
      requires Valid() && depth >= 2
      modifies this
      ensures var v := ValueAt(limits, Trim(old(Rest())), depth, old(State()));
        && (ok <==> v.Some?)
        && (ok ==> Valid() && at > old(at) && Rest() == v.value.0 && State() == v.value.1)
        && (ok ==> item == ItemAt(Trim(old(Rest()))))
      decreases |text| - at, 1
    {
      item := None;
      Space();
      ghost var s := Rest();
      var ch := Peek();
      if ch == Some('{') || ch == Some('[') {
        ok := Container(depth);
      } else if ch == Some('"') {
        item := String();
        ok := item.Some?;
        if ReadString(s).Some? { ReadStringSound(s); }
      } else {
        ok := Atom();
        ReadScalarSound(s);
      }
    }

    // The name of an entry and its colon; arrays have none.
    method Name(object_: bool, depth: int, names: set<Points>) returns (ok: bool, key: Option<Points>)
      requires Valid() && Trim(Rest()) == Rest()
      modifies `at, `tokens
      ensures ok <==> LabelAt(limits, object_, old(Rest()), depth, names, old(State())).Some?
      ensures ok ==>
        && Valid() && at >= old(at)
        && Some((key, Trim(Rest()), State())) == LabelAt(limits, object_, old(Rest()), depth, names, old(State()))
    {
      key := None;
      if !object_ {
        return true, None;
      }
      if Peek() != Some('"') {
        return false, None;
      }
      LabelUnfold(limits, Rest(), depth, names, State());
      key := String();
      if key.None? || |Utf8Points(key.value)| > limits.maxKeyBytes || key.value in names {
        return false, None;
      }
      if depth == 1 && key.value != R.EVENT_ID && PyLower(key.value) == R.EVENT_ID {
        return false, None;
      }
      ok := Mark(':');
      return ok, key;
    }

    // Skips spaces and steps over c.
    method Mark(c: char) returns (ok: bool)
      requires Valid()
      modifies `at
      ensures var t := Trim(old(Rest()));
        && Valid() && at >= old(at) && (ok <==> t != "" && t[0] == c)
        && Rest() == (if ok then t[1..] else t) && (ok ==> at > old(at))
    {
      Space();
      ok := Peek() == Some(c);
      if ok {
        assert Rest()[1..] == text[at + 1..];
        at := at + 1;
      }
    }

    method Container(depth: int) returns (ok: bool)
      requires Valid() && depth >= 1 && Rest() != "" && Rest()[0] in {'{', '['}
      modifies this
      ensures var v := ValueAt(limits, old(Rest()), depth, old(State()));
        && (ok <==> v.Some?)
        && (ok ==> Valid() && at > old(at) && Rest() == v.value.0 && State() == v.value.1)
      decreases |text| - at, 0
    {
      if depth > limits.maxDepth {
        NodeTooDeep(limits, Rest(), depth, State());
        return false;
      }
      NodeUnfold(limits, Rest(), depth, State());
      var object_ := Peek() == Some('{');
      assert Rest()[1..] == text[at + 1..];
      at := at + 1;
      ok := Tick();
      if !ok {
        return;
      }
      ok := Mark(Closing(object_));
      if !ok {
        TrimTwice(old(Rest())[1..]);
        ok := Entries(object_, depth);
        if !ok {
          return;
        }
      }
      ok := Tick();
    }

    // The loop of container, up to the closing bracket.
    method Entries(object_: bool, depth: int) returns (ok: bool)
      requires Valid() && depth >= 1 && Trim(Rest()) == Rest()
      modifies this
      ensures var e := EntriesAt(limits, object_, old(Rest()), depth, {}, old(State()));
        && (ok <==> e.Some?)
        && (ok ==> Valid() && at > old(at) && Rest() == e.value.0 && State() == e.value.1)
      decreases |text| - at, 3
    {
      var names: set<Points> := {};
      while true
        invariant Valid() && at >= old(at) && Trim(Rest()) == Rest()
        invariant EntriesAt(limits, object_, Rest(), depth, names, State()) ==
          EntriesAt(limits, object_, old(Rest()), depth, {}, old(State()))
        decreases |text| - at
      {
        EntriesUnfold(limits, object_, Rest(), depth, names, State());
        ok, names := Entry(object_, depth, names);
        if !ok {
          return;
        }
        var more: bool;
        ok, more := Separator(object_);
        if !ok || !more {
          return;
        }
      }
    }

    // After an entry: the closing bracket, or a comma and the spaces after it.
    method Separator(object_: bool) returns (ok: bool, more: bool)
      requires Valid() && Trim(Rest()) == Rest()
      modifies `at
      ensures Valid()
      ensures var t := old(Rest());
        && (ok <==> t != "" && (t[0] == Closing(object_) || t[0] == ','))
        && (ok ==> at > old(at) && (more <==> t[0] != Closing(object_)))
        && (ok ==> Rest() == if more then Trim(t[1..]) else t[1..])
        && (ok ==> Trim(Trim(t[1..])) == Trim(t[1..]))
    {
      ghost var t := Rest();
      more := false;
      ok := Mark(Closing(object_));
      if t != "" { TrimTwice(t[1..]); }
      if ok {
        return;
      }
      ok := Mark(',');
      if ok {
        Space();
        more := true;
      }
    }

    // One round of the loop: a name, its value and the spaces after it.
    method Entry(object_: bool, depth: int, names: set<Points>) returns (ok: bool, seen: set<Points>)
      requires Valid() && depth >= 1 && Trim(Rest()) == Rest()
      modifies this
      ensures ok <==> EntryAt(limits, object_, old(Rest()), depth, names, old(State())).Some?
      ensures ok ==>
        && Valid() && at > old(at) && Trim(Rest()) == Rest()
        && Some((seen, Rest(), State())) == EntryAt(limits, object_, old(Rest()), depth, names, old(State()))
      decreases |text| - at, 2
    {
      seen := names;
      var key: Option<Points>;
      ok, key := Name(object_, depth, names);
      if !ok {
        return;
      }
      var item: Option<Points>;
      ok, item := Value(depth + 1);
      if !ok {
        return;
      }
      ok := Record(key, item, depth);
      if !ok {
        return;
      }
      seen := R.Seen(names, key);
      TrimTwice(Rest());
      Space();
    }

    // Keeps the root's event_id, which must be a valid identity.
    method Record(key: Option<Points>, item: Option<Points>, depth: int) returns (ok: bool)
      requires Valid()
      modifies `eventId
      ensures ok <==> R.IdAfter(key, item, depth, old(State())).Some?
      ensures Valid() && (ok ==> Some(State()) == R.IdAfter(key, item, depth, old(State())))
    {
      if depth == 1 && key == Some(R.EVENT_ID) {
        if item.None? || !R.EventIdentity(item.value) {
          return false;
        }
        eventId := item.value;
      }
      return true;
    }

    method Run() returns (id: Option<Points>)
      requires Valid() && at == 0 && State() == R.Progress(0, [])
      modifies this
      ensures id == EventIdOf(limits, text)
      // Every key, value and bracket of the document was counted once.
      ensures id.Some? && R.ValidLimits(limits) ==>
        exists d :: WellFormedDocument(d) && PrintDocument(d) == text && tokens == R.Count(TreeOf(d.root))
    {
      EventIdUnfold(limits, text);
      Space();
      if Peek() != Some('{') {
        return None;
      }
      var ok := Container(1);
      if !ok {
        return None;
      }
      Space();
      if at != |text| || eventId == [] {
        return None;
      }
      return Some(eventId);
    }
  }

  lemma {:induction false} TrimTwice(s: string)
    ensures Trim(Trim(s)) == Trim(s)
  {
    if s != "" && IsSpace(s[0]) { TrimTwice(s[1..]); }
  }

  // An event identity is that of one object with nothing but spaces around it, whose
  // walk counts every token of the document.
  lemma EventIdUnfold(l: R.Limits, text: string)
    ensures
      var s := Trim(text);
      var v := if s == "" || s[0] != '{' then None else ValueAt(l, s, 1, R.Progress(0, []));
      && EventIdOf(l, text) ==
        (if v.None? || Trim(v.value.0) != "" || v.value.1.id == [] then None else Some(v.value.1.id))
      && (EventIdOf(l, text).Some? && R.ValidLimits(l) ==>
          exists d :: WellFormedDocument(d) && PrintDocument(d) == text && v.value.1.tokens == R.Count(TreeOf(d.root)))
  {
    if ReadDocument(text).Some? {
      var d := ReadDocument(text).value;
      ReadDocumentIsInverse(text, d);
      TreeIsShaped(d.root);
      assert TreeOf(d.root).Branch? && TreeOf(d.root).object_ <==> Trim(text)[0] == '{';
      if R.ValidLimits(l) && EventIdOf(l, text).Some? {
        R.CheckRootIsExact(l, TreeOf(d.root), EventIdOf(l, text).value);
      }
    }
  }

  lemma NodeTooDeep(l: R.Limits, s: string, depth: int, p: R.Progress)
    requires s != "" && s[0] in {'{', '['} && depth > l.maxDepth
    ensures ValueAt(l, s, depth, p).None?
  {
    if Read(s).Some? { ReadSound(s); }
  }

  // A container at the front of a text: its bracket, its entries, its bracket.
  lemma NodeUnfold(l: R.Limits, s: string, depth: int, p: R.Progress)
    requires s != "" && s[0] in {'{', '['} && depth <= l.maxDepth
    ensures
      var o, t, p1 := s[0] == '{', Trim(s[1..]), R.Tick(l, p);
      ValueAt(l, s, depth, p) ==
        if p1.None? then None
        else
          var inner :=
            if t != "" && t[0] == Closing(o) then Some((t[1..], p1.value))
            else EntriesAt(l, o, t, depth, {}, p1.value);
          if inner.None? then None
          else
            var q := R.Tick(l, inner.value.1);
            if q.None? then None else Some((inner.value.0, q.value))
  {
    var o, t, p1 := s[0] == '{', Trim(s[1..]), R.Tick(l, p);
    if Read(s).Some? {
      ReadSound(s);
      var j := Read(s).value.0;
      if t != "" && t[0] == Closing(o) {
        assert j == Node(o, Lead(s[1..]), Nil);
        BranchUnfold(l, j, depth, p);
        if p1.Some? { assert R.CheckKids(l, KidsOf(o, Nil), depth, {}, p1.value) == p1; }
      } else {
        ReadEntriesSound(o, t);
        assert j == Node(o, Lead(s[1..]), ReadEntries(o, t).value.0);
        BranchUnfold(l, j, depth, p);
      }
    } else {
      assert ReadEntries(o, t).None?;
    }
  }

  lemma BranchUnfold(l: R.Limits, j: Json, depth: int, p: R.Progress)
    requires j.Node? && WellFormed(j) && depth <= l.maxDepth
    ensures R.Check(l, TreeOf(j), depth, p) ==
      var p1 := R.Tick(l, p);
      var p2 := if p1.None? then None else R.CheckKids(l, KidsOf(j.object_, j.entries), depth, {}, p1.value);
      if p2.None? then None else R.Tick(l, p2.value)
  {
    assert TreeOf(j) == R.Branch(j.object_, KidsOf(j.object_, j.entries));
  }

  lemma LabelUnfold(l: R.Limits, s: string, depth: int, seen: set<Points>, p: R.Progress)
    ensures LabelAt(l, true, s, depth, seen, p) ==
      var k := ItemAt(s);
      if k.None? then None
      else
        var t := Trim(ReadString(s).value.1);
        var q := R.CheckKey(l, k, depth, seen, p);
        if t == "" || t[0] != ':' || q.None? then None else Some((k, Trim(t[1..]), q.value))
  {
    if ReadString(s).Some? { ReadStringSound(s); }
    if ReadLabel(true, s).Some? { ReadLabelSound(true, s); }
  }
}
