// Signing and verification from raw headers: Sign and Verify of signing/signature.go,
// sign_webhook and verify_webhook of signature.py, and the selection of VerifyEvent.

module SignedHeaders {
  import opened Common
  import opened JsonStrings
  import opened HeaderFields
  import opened Signing

  const EVENT_HEADER := "X-Platform-Event-Id"
  const DELIVERY_HEADER := "X-Platform-Delivery-Id"
  const TIMESTAMP_HEADER := "X-Platform-Timestamp"
  const KEY_HEADER := "X-Platform-Key-Id"
  const SIGNATURE_HEADER := "X-Platform-Signature"

  const NAMES: seq<string> := [EVENT_HEADER, DELIVERY_HEADER, TIMESTAMP_HEADER, KEY_HEADER, SIGNATURE_HEADER]

  predicate SecurityHeader(name: string) {
    name in {EVENT_HEADER, DELIVERY_HEADER, TIMESTAMP_HEADER, KEY_HEADER, SIGNATURE_HEADER}
  }

  // The value of each header in a proof.
  function ValueOf(s: Signed, name: string): string
    requires SecurityHeader(name)
  {
    if name == EVENT_HEADER then s.event
    else if name == DELIVERY_HEADER then s.delivery
    else if name == TIMESTAMP_HEADER then s.timestamp
    else if name == KEY_HEADER then s.keyId
    else s.signature
  }

  lemma ValuesOf(s: Signed)
    ensures ValueOf(s, EVENT_HEADER) == s.event && ValueOf(s, DELIVERY_HEADER) == s.delivery
    ensures ValueOf(s, TIMESTAMP_HEADER) == s.timestamp && ValueOf(s, KEY_HEADER) == s.keyId
    ensures ValueOf(s, SIGNATURE_HEADER) == s.signature
  {
  }

  function Gather(event: Option<string>, delivery: Option<string>, at: Option<string>, kid: Option<string>,
      sig: Option<string>)
    : Option<Signed>
  {
    if event.None? || delivery.None? || at.None? || kid.None? || sig.None? then None
    else Some(Signed(event.value, delivery.value, at.value, kid.value, sig.value))
  }

  // The headers Sign sends.
  function HeadersOf(s: Signed): GoHeader {
    map[EVENT_HEADER := [s.event], DELIVERY_HEADER := [s.delivery], TIMESTAMP_HEADER := [s.timestamp],
        KEY_HEADER := [s.keyId], SIGNATURE_HEADER := [s.signature]]
  }

  function PairsOf(s: Signed): Pairs {
    [(EVENT_HEADER, s.event)] + ([(DELIVERY_HEADER, s.delivery)] + ([(TIMESTAMP_HEADER, s.timestamp)]
      + ([(KEY_HEADER, s.keyId)] + [(SIGNATURE_HEADER, s.signature)])))
  }

  lemma NamesAreAscii(name: string)
    requires SecurityHeader(name)
    ensures HeaderName(name)
  {
  }

  lemma NamesDiffer(a: string, b: string)
    requires SecurityHeader(a) && SecurityHeader(b) && a != b
    ensures !GoNamed(a, b)
  {
    if |a| == |b| {
      assert a[11] in {'T', 'S'} && b[11] in {'T', 'S'} && a[11] != b[11];
      assert GoFold(PointsOf(a)[11]) != GoFold(PointsOf(b)[11]);
    }
  }

  // ---- Which of the five names the two languages can read differently ----

  lemma OnlyTwoNamesDivide(pairs: Pairs, name: string)
    requires SecurityHeader(name) && name !in {TIMESTAMP_HEADER, SIGNATURE_HEADER}
    ensures !Divided(pairs, name)
  {
    NamesWithoutS(name);
    UndividedWithoutS(pairs, name);
  }

  lemma NamesWithoutS(name: string)
    requires name in {EVENT_HEADER, DELIVERY_HEADER, KEY_HEADER}
    ensures HeaderName(name) && WithoutS(name)
  {
    if name == EVENT_HEADER {
    } else if name == DELIVERY_HEADER {
    } else {
      assert name == KEY_HEADER;
    }
  }

  lemma SignatureHeaderDivides(v: string, w: string)
    ensures
      var long := "X-Platform-\U{017F}ignature";
      && GoPick(Group([(SIGNATURE_HEADER, v), (long, w)]), SIGNATURE_HEADER) == None
      && PyPick([(SIGNATURE_HEADER, v), (long, w)], SIGNATURE_HEADER) == Some(v)
      && GoPick(Group([(long, w)]), SIGNATURE_HEADER) == Some(w)
      && PyPick([(long, w)], SIGNATURE_HEADER) == None
  {
    NamesAreAscii(SIGNATURE_HEADER);
    HeadersDisagreeAtLongS(SIGNATURE_HEADER, 11, v, w);
    assert LongSpelling(SIGNATURE_HEADER, 11) == "X-Platform-\U{017F}ignature";
  }

  lemma TimestampHeaderDivides(v: string, w: string)
    ensures
      var long := "X-Platform-Time\U{017F}tamp";
      && GoPick(Group([(TIMESTAMP_HEADER, v), (long, w)]), TIMESTAMP_HEADER) == None
      && PyPick([(TIMESTAMP_HEADER, v), (long, w)], TIMESTAMP_HEADER) == Some(v)
      && GoPick(Group([(long, w)]), TIMESTAMP_HEADER) == Some(w)
      && PyPick([(long, w)], TIMESTAMP_HEADER) == None
  {
    NamesAreAscii(TIMESTAMP_HEADER);
    HeadersDisagreeAtLongS(TIMESTAMP_HEADER, 15, v, w);
    assert LongSpelling(TIMESTAMP_HEADER, 15) == "X-Platform-Time\U{017F}tamp";
  }

  predicate Undivided(pairs: Pairs) {
    !Divided(pairs, TIMESTAMP_HEADER) && !Divided(pairs, SIGNATURE_HEADER)
  }

  // ---- Verify of signature.go ----

  ghost function GoSigned(h: GoHeader): Option<Signed> {
    Gather(GoPick(h, EVENT_HEADER), GoPick(h, DELIVERY_HEADER), GoPick(h, TIMESTAMP_HEADER),
           GoPick(h, KEY_HEADER), GoPick(h, SIGNATURE_HEADER))
  }

  ghost function GoVerify(hs: Hashes, body: Bytes, h: GoHeader, keys: seq<KeyVersion>, now: int, p: Policy)
    : Result<Proof>
  {
    if !PolicyValid(p, now) || !RingValid(keys) then Err(ERR_CONFIG)
    else if |body| > p.maxBodyBytes || |h| > 128 || GoSigned(h).None? then Err(ERR_PROOF)
    else Verify(hs, body, GoSigned(h).value, keys, now, p)
  }

  method VerifyHeaders(hs: Hashes, body: Bytes, h: GoHeader, keys: seq<KeyVersion>, now: int, p: Policy)
    returns (r: Result<Proof>)
    ensures r == GoVerify(hs, body, h, keys, now, p)
  {
    if !PolicyValid(p, now) {
      return Err(ERR_CONFIG);
    }
    var ring := CheckRing(keys);
    if !ring {
      return Err(ERR_CONFIG);
    }
    if |body| > p.maxBodyBytes || |h| > 128 {
      return Err(ERR_PROOF);
    }
    var event, a := One(h, EVENT_HEADER);
    var delivery, b := One(h, DELIVERY_HEADER);
    var at, c := One(h, TIMESTAMP_HEADER);
    var kid, d := One(h, KEY_HEADER);
    var sig, e := One(h, SIGNATURE_HEADER);
    if !a || !b || !c || !d || !e {
      return Err(ERR_PROOF);
    }
    r := VerifyValues(hs, body, Signed(event, delivery, at, kid, sig), keys, now, p);
  }

  // ---- verify_webhook of signature.py ----

  predicate Modest(pairs: Pairs) {
    |pairs| <= 128 && forall i :: 0 <= i < |pairs| ==> |pairs[i].0| <= 8192 && |pairs[i].1| <= 8192
  }

  function PySigned(pairs: Pairs): Option<Signed> {
    Gather(PyPick(pairs, EVENT_HEADER), PyPick(pairs, DELIVERY_HEADER), PyPick(pairs, TIMESTAMP_HEADER),
           PyPick(pairs, KEY_HEADER), PyPick(pairs, SIGNATURE_HEADER))
  }

  function PyVerify(hs: Hashes, body: Bytes, pairs: Pairs, keys: seq<KeyVersion>, now: int, p: Policy): Result<Proof> {
    if !PyPolicy(p, now) || !PyRing(keys) then Err(ERR_CONFIG)
    else if |body| > p.maxBodyBytes || !Modest(pairs) then Err(ERR_PROOF)
    else
      var s := PySigned(pairs);
      if s.None? then Err(ERR_PROOF) else PyVerifyValues(hs, body, s.value, keys, now, p)
  }

  lemma SignedAgree(pairs: Pairs)
    requires Undivided(pairs)
    ensures GoSigned(Group(pairs)) == PySigned(pairs)
  {
    forall name | SecurityHeader(name) ensures GoPick(Group(pairs), name) == PyPick(pairs, name) {
      PicksAgree(pairs, name);
    }
  }

  lemma PicksAgree(pairs: Pairs, name: string)
    requires SecurityHeader(name) && Undivided(pairs)
    ensures GoPick(Group(pairs), name) == PyPick(pairs, name)
  {
    NamesAreAscii(name);
    HeadersAgree(pairs, name);
    if name !in {TIMESTAMP_HEADER, SIGNATURE_HEADER} { OnlyTwoNamesDivide(pairs, name); }
  }

  // On the same received pairs both verifiers return the same result exactly within
  // Python's size limits and while U+017F divides neither the timestamp nor the
  // signature header, or where both refuse anyway.
  lemma VerifiersAgree(hs: Hashes, body: Bytes, pairs: Pairs, keys: seq<KeyVersion>, now: int, p: Policy)
    ensures
      var python, go := PyVerify(hs, body, pairs, keys, now, p), GoVerify(hs, body, Group(pairs), keys, now, p);
      var sized := |pairs| <= 128 && forall i :: 0 <= i < |pairs| ==> |pairs[i].0| <= 8192 && |pairs[i].1| <= 8192;
      python == go <==> (sized && Undivided(pairs)) || (python.Err? && go.Err?)
  {
    PyVerifyMeans(hs, body, pairs, keys, now, p);
    GroupsAreFilled(pairs);
    if Undivided(pairs) { SignedAgree(pairs); } else { DividedIsMissed(pairs); }
    if PolicyValid(p, now) && RingValid(keys) && GoSigned(Group(pairs)).Some? {
      VerifyErrors(hs, body, GoSigned(Group(pairs)).value, keys, now, p);
    }
    if PolicyValid(p, now) && RingValid(keys) && PySigned(pairs).Some? {
      VerifyErrors(hs, body, PySigned(pairs).value, keys, now, p);
    }
  }

  lemma VerifyErrors(hs: Hashes, body: Bytes, s: Signed, keys: seq<KeyVersion>, now: int, p: Policy)
    requires PolicyValid(p, now) && RingValid(keys)
    ensures Verify(hs, body, s, keys, now, p).Err? ==> Verify(hs, body, s, keys, now, p) == Err(ERR_PROOF)
  {
  }

  // A divided header is missing for one of the two.
  lemma DividedIsMissed(pairs: Pairs)
    requires !Undivided(pairs)
    ensures GoSigned(Group(pairs)).None? || PySigned(pairs).None?
  {
    var name := if Divided(pairs, TIMESTAMP_HEADER) then TIMESTAMP_HEADER else SIGNATURE_HEADER;
    NamesAreAscii(name);
    ValuesAdd(pairs, name);
    GoPickIs(pairs, name);
    assert GoPick(Group(pairs), name).None? || PyPick(pairs, name).None?;
  }

  // verify_webhook in terms of the verification of five values.
  lemma PyVerifyMeans(hs: Hashes, body: Bytes, pairs: Pairs, keys: seq<KeyVersion>, now: int, p: Policy)
    ensures PyVerify(hs, body, pairs, keys, now, p) ==
      if !PolicyValid(p, now) || !RingValid(keys) then Err(ERR_CONFIG)
      else if |body| > p.maxBodyBytes || !Modest(pairs) || PySigned(pairs).None? then Err(ERR_PROOF)
      else Verify(hs, body, PySigned(pairs).value, keys, now, p)
  {
    RingsAgree(keys);
    if PolicyValid(p, now) && RingValid(keys) && |body| <= p.maxBodyBytes && PySigned(pairs).Some? {
      ValueVerifiersAgree(hs, body, PySigned(pairs).value, keys, now, p);
    }
  }

  // ---- Received with the signed headers ----

  // Each of the five is there once, for both languages, among any others.
  ghost predicate Carries(pairs: Pairs, s: Signed) {
    forall name, rule :: SecurityHeader(name) && rule != GoOnly ==> Values(rule, pairs, name) == [ValueOf(s, name)]
  }

  ghost predicate Foreign(pairs: Pairs) {
    forall i, name :: 0 <= i < |pairs| && SecurityHeader(name) ==> !GoNamed(pairs[i].0, name)
  }

  lemma {:induction false} ForeignHasNone(rule: Rule, pairs: Pairs, name: string)
    requires Foreign(pairs) && SecurityHeader(name)
    ensures Values(rule, pairs, name) == []
  {
    if pairs != [] {
      ForeignHasNone(rule, pairs[..|pairs| - 1], name);
      NamesAreAscii(name);
      NamingsAgree(Last(pairs).0, name);
    }
  }

  lemma OwnValue(rule: Rule, k: string, v: string, name: string)
    requires SecurityHeader(k) && SecurityHeader(name) && rule != GoOnly
    ensures Values(rule, [(k, v)], name) == if k == name then [v] else []
  {
    ValuesOfOne(rule, k, v, name);
    NamesAreAscii(name);
    NamingsAgree(k, name);
    if k != name { NamesDiffer(k, name); }
  }

  lemma OwnPairs(s: Signed)
    ensures Carries(PairsOf(s), s)
  {
    forall name, rule | SecurityHeader(name) && rule != GoOnly
      ensures Values(rule, PairsOf(s), name) == [ValueOf(s, name)]
    {
      var e, d, t := [(EVENT_HEADER, s.event)], [(DELIVERY_HEADER, s.delivery)], [(TIMESTAMP_HEADER, s.timestamp)];
      var k, g := [(KEY_HEADER, s.keyId)], [(SIGNATURE_HEADER, s.signature)];
      ValuesConcat(rule, e, d + (t + (k + g)), name);
      ValuesConcat(rule, d, t + (k + g), name);
      ValuesConcat(rule, t, k + g, name);
      ValuesConcat(rule, k, g, name);
      OwnValue(rule, EVENT_HEADER, s.event, name);
      OwnValue(rule, DELIVERY_HEADER, s.delivery, name);
      OwnValue(rule, TIMESTAMP_HEADER, s.timestamp, name);
      OwnValue(rule, KEY_HEADER, s.keyId, name);
      OwnValue(rule, SIGNATURE_HEADER, s.signature, name);
    }
  }

  // The signed headers arrive among any headers of other names.
  lemma SentHeadersAreCarried(before: Pairs, s: Signed, after: Pairs)
    requires Foreign(before) && Foreign(after)
    ensures Carries(before + PairsOf(s) + after, s)
  {
    OwnPairs(s);
    forall name, rule | SecurityHeader(name) && rule != GoOnly
      ensures Values(rule, before + PairsOf(s) + after, name) == [ValueOf(s, name)]
    {
      ValuesConcat(rule, before + PairsOf(s), after, name);
      ValuesConcat(rule, before, PairsOf(s), name);
      ForeignHasNone(rule, before, name);
      ForeignHasNone(rule, after, name);
    }
  }

  lemma CarriedIsFound(pairs: Pairs, s: Signed)
    requires Carries(pairs, s)
    ensures GoSigned(Group(pairs)) == Some(s) && PySigned(pairs) == Some(s)
    ensures forall name :: SecurityHeader(name) ==>
      GoPick(Group(pairs), name) == Some(ValueOf(s, name)) == PyPick(pairs, name)
  {
    forall name | SecurityHeader(name)
      ensures GoPick(Group(pairs), name) == Some(ValueOf(s, name)) == PyPick(pairs, name)
    {
      assert Values(Go, pairs, name) == [ValueOf(s, name)] == Values(Python, pairs, name);
      GoPickIs(pairs, name);
    }
  }

  // From Sign to Verify through any transport that keeps the five headers: both
  // languages accept, with the original delivery, key, time and digest, exactly when
  // the clock window and the rotation intervals allow it.
  lemma SignedHeadersVerify(hs: Hashes, body: Bytes, event: string, delivery: string, k: KeyVersion, t: int, p: Policy,
      pairs: Pairs, keys: seq<KeyVersion>, i: nat, now: int, q: Policy)
    requires Sized(hs) && Sign(hs, body, event, delivery, k, t, p).Ok?
    requires Carries(pairs, Sign(hs, body, event, delivery, k, t, p).value) && Modest(pairs)
    requires RingValid(keys) && i < |keys| && keys[i].id == k.id && keys[i].secret == k.secret && PolicyValid(q, now)
    ensures GoVerify(hs, body, Group(pairs), keys, now, q) ==
      if |body| <= q.maxBodyBytes && InWindow(keys[i], t, now, q) then Ok(Proof(delivery, k.id, t, hs.sha(body)))
      else Err(ERR_PROOF)
    ensures PyVerify(hs, body, pairs, keys, now, q) == GoVerify(hs, body, Group(pairs), keys, now, q)
  {
    CarriedVerifies(hs, body, pairs, Sign(hs, body, event, delivery, k, t, p).value, keys, now, q);
    SignedVerifies(hs, body, event, delivery, k, t, p, keys, i, now, q);
  }

  lemma CarriedVerifies(hs: Hashes, body: Bytes, pairs: Pairs, s: Signed, keys: seq<KeyVersion>, now: int, p: Policy)
    requires Carries(pairs, s) && Modest(pairs) && RingValid(keys) && PolicyValid(p, now)
    ensures GoVerify(hs, body, Group(pairs), keys, now, p) == Verify(hs, body, s, keys, now, p)
    ensures PyVerify(hs, body, pairs, keys, now, p) == Verify(hs, body, s, keys, now, p)
  {
    CarriedIsFound(pairs, s);
    GroupsAreFilled(pairs);
    PyVerifyMeans(hs, body, pairs, keys, now, p);
  }

  // ---- The selection of VerifyEvent, with its own bounds ----

  ghost function GoSelected(h: GoHeader): Option<Signed> {
    if |h| > 128 then None
    else Gather(SolePick(h, EVENT_HEADER), SolePick(h, DELIVERY_HEADER), SolePick(h, TIMESTAMP_HEADER),
                SolePick(h, KEY_HEADER), SolePick(h, SIGNATURE_HEADER))
  }

  method Select(h: GoHeader) returns (r: Option<Signed>)
    ensures r == GoSelected(h)
  {
    if |h| > 128 {
      return None;
    }
    var values: seq<string> := [];
    for i := 0 to |NAMES|
      invariant |values| == i
      invariant forall k :: 0 <= k < i ==> SolePick(h, NAMES[k]) == Some(values[k])
    {
      var value := SelectSole(h, NAMES[i]);
      if value.None? {
        SelectionNeeds(h, i);
        return None;
      }
      values := values + [value.value];
    }
    SelectionIs(h, values);
    return Some(Signed(values[0], values[1], values[2], values[3], values[4]));
  }

  lemma SelectionNeeds(h: GoHeader, i: nat)
    requires i < |NAMES| && SolePick(h, NAMES[i]).None?
    ensures GoSelected(h).None?
  {
  }

  lemma SelectionIs(h: GoHeader, values: seq<string>)
    requires |h| <= 128 && |values| == |NAMES|
    requires forall k :: 0 <= k < |NAMES| ==> SolePick(h, NAMES[k]) == Some(values[k])
    ensures GoSelected(h) == Some(Signed(values[0], values[1], values[2], values[3], values[4]))
  {
    assert SolePick(h, NAMES[0]) == Some(values[0]) && SolePick(h, NAMES[1]) == Some(values[1]);
    assert SolePick(h, NAMES[2]) == Some(values[2]) && SolePick(h, NAMES[3]) == Some(values[3]);
    assert SolePick(h, NAMES[4]) == Some(values[4]);
  }

  function PySmall(pairs: Pairs, name: string): Option<string> {
    var r := PyPick(pairs, name);
    if r.Some? && |Utf8(r.value)| > 256 then None else r
  }

  function PySelected(pairs: Pairs): Option<Signed> {
    if !Modest(pairs) then None
    else Gather(PySmall(pairs, EVENT_HEADER), PySmall(pairs, DELIVERY_HEADER), PySmall(pairs, TIMESTAMP_HEADER),
                PySmall(pairs, KEY_HEADER), PySmall(pairs, SIGNATURE_HEADER))
  }

  lemma SelectedAgree(pairs: Pairs)
    requires Modest(pairs) && Undivided(pairs)
    ensures GoSelected(Group(pairs)) == PySelected(pairs)
  {
    GroupsAreFilled(pairs);
    forall name | SecurityHeader(name) ensures SolePick(Group(pairs), name) == PySmall(pairs, name) {
      PicksAgree(pairs, name);
      SoleInGroups(pairs, name);
    }
  }

  // A map with exactly the five headers, each with its value.
  ghost predicate Exactly(h: GoHeader, s: Signed) {
    && |h| == 5
    && (forall j :: j in h <==> SecurityHeader(j))
    && forall j :: j in h ==> h[j] == [ValueOf(s, j)]
  }

  lemma HeadersAreExact(s: Signed)
    ensures Exactly(HeadersOf(s), s)
  {
    var h := HeadersOf(s);
    assert h.Keys == {EVENT_HEADER, DELIVERY_HEADER, TIMESTAMP_HEADER, KEY_HEADER, SIGNATURE_HEADER};
  }

  // What was selected is found again by the verifier it is handed to.
  lemma ExactIsFound(h: GoHeader, s: Signed)
    requires Exactly(h, s)
    ensures GoSigned(h) == Some(s)
  {
    ValuesOf(s);
    ExactValue(h, s, EVENT_HEADER);
    ExactValue(h, s, DELIVERY_HEADER);
    ExactValue(h, s, TIMESTAMP_HEADER);
    ExactValue(h, s, KEY_HEADER);
    ExactValue(h, s, SIGNATURE_HEADER);
  }

  lemma ExactValue(h: GoHeader, s: Signed, name: string)
    requires Exactly(h, s) && SecurityHeader(name)
    ensures GoPick(h, name) == Some(ValueOf(s, name))
  {
    forall j | j in h && j != name ensures !GoNamed(j, name) { NamesDiffer(j, name); }
    assert GoNamed(name, name);
    assert GoSingle(h, name, ValueOf(s, name));
    SingleIsUnique(h, name, ValueOf(s, name), GoPick(h, name).value);
  }

  lemma ExactVerifies(hs: Hashes, body: Bytes, s: Signed, keys: seq<KeyVersion>, now: int, p: Policy)
    ensures GoVerify(hs, body, HeadersOf(s), keys, now, p) == Verify(hs, body, s, keys, now, p)
  {
    HeadersAreExact(s);
    ExactIsFound(HeadersOf(s), s);
  }

  lemma {:induction false} Utf8IsLonger(s: string)
    ensures |Utf8(s)| >= |s|
  {
    if s != "" { Utf8IsLonger(s[1..]); }
  }

  lemma SelectedIsModest(pairs: Pairs)
    requires PySelected(pairs).Some?
    ensures Modest(PairsOf(PySelected(pairs).value))
  {
    var s := PySelected(pairs).value;
    Utf8IsLonger(s.event);
    Utf8IsLonger(s.delivery);
    Utf8IsLonger(s.timestamp);
    Utf8IsLonger(s.keyId);
    Utf8IsLonger(s.signature);
    ShortIsModest(s);
  }

  lemma ShortIsModest(s: Signed)
    requires |s.event| <= 256 && |s.delivery| <= 256 && |s.timestamp| <= 256 && |s.keyId| <= 256 && |s.signature| <= 256
    ensures Modest(PairsOf(s))
  {
    var names := [EVENT_HEADER, DELIVERY_HEADER, TIMESTAMP_HEADER, KEY_HEADER, SIGNATURE_HEADER];
    var values := [s.event, s.delivery, s.timestamp, s.keyId, s.signature];
    var pairs := PairsOf(s);
    assert |pairs| == 5;
    forall i | 0 <= i < 5 ensures |pairs[i].0| <= 8192 && |pairs[i].1| <= 8192 {
      assert pairs[i] == (names[i], values[i]);
    }
  }

  lemma SelectedVerifies(hs: Hashes, body: Bytes, pairs: Pairs, keys: seq<KeyVersion>, now: int, p: Policy)
    requires PySelected(pairs).Some?
    ensures
      var s := PySelected(pairs).value;
      PyVerify(hs, body, PairsOf(s), keys, now, p) == Verify(hs, body, s, keys, now, p)
  {
    var s := PySelected(pairs).value;
    SelectedIsModest(pairs);
    OwnPairs(s);
    CarriedIsFound(PairsOf(s), s);
    PyVerifyMeans(hs, body, PairsOf(s), keys, now, p);
  }

  // A shaped proof is within every selection's bounds.
  lemma ShapedIsSelected(pairs: Pairs, s: Signed)
    requires Carries(pairs, s) && Modest(pairs) && Shaped(s)
    ensures GoSelected(Group(pairs)) == Some(s) && PySelected(pairs) == Some(s)
  {
    CarriedIsFound(pairs, s);
    GroupsAreFilled(pairs);
    forall name | SecurityHeader(name)
      ensures SolePick(Group(pairs), name) == Some(ValueOf(s, name)) == PySmall(pairs, name)
    {
      ShapedIsShort(s, name);
      SoleInGroups(pairs, name);
    }
  }

  lemma ShapedIsShort(s: Signed, name: string)
    requires Shaped(s) && SecurityHeader(name)
    ensures |Utf8(ValueOf(s, name))| <= 256
  {
    var v := ValueOf(s, name);
    assert |v| <= 128;
    assert JsonStrings.Ascii(v) by {
      if name == SIGNATURE_HEADER {
        forall i | 0 <= i < |v| ensures v[i] as int < 128 { if i < 3 { assert v[i] == v[..3][i]; } }
      }
    }
    Utf8Ascii(v);
  }
}
