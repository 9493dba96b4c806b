// The v1 proof contract in both languages: signing/signature.go and
// backend/sdk/python/greeto_webhooks/signature.py.

module Signing {
  import opened Common
  import opened Names
  import opened Decimal
  import opened JsonStrings

  const MAX_UNIX: int := 9999999999
  const ERR_CONFIG := "WEBHOOK_SIGNING_CONFIG_INVALID"
  const ERR_PROOF := "WEBHOOK_PROOF_INVALID"

  datatype Policy = Policy(maxAgeSeconds: int, maxFutureSkewSeconds: int, maxBodyBytes: int)

  datatype KeyVersion = KeyVersion(
    id: string, secret: Bytes, notBefore: int, signUntil: int, verifyUntil: int, revoked: bool)

  datatype Proof = Proof(deliveryId: string, keyId: string, attemptedAt: int, bodySha256: Bytes)

  // The five header values.
  datatype Signed = Signed(event: string, delivery: string, timestamp: string, keyId: string, signature: string)

  // HMAC-SHA-256 (secret, message) and SHA-256, as functions with 32-byte results.
  datatype Hashes = Hashes(hmac: (Bytes, Bytes) -> Bytes, sha: Bytes -> Bytes)

  ghost predicate Sized(h: Hashes) {
    forall k, m :: |h.hmac(k, m)| == 32
  }

  // ---- Framing ----

  function Ascii(s: string): Bytes {
    seq(|s|, i requires 0 <= i < |s| => if s[i] as int < 128 then s[i] as int else 63)
  }

  function Message(timestamp: string, delivery: string, body: Bytes): Bytes {
    Ascii(timestamp + "." + delivery + ".") + body
  }

  predicate TokenText(s: string) { forall i :: 0 <= i < |s| ==> s[i] as int < 128 && s[i] != '.' }

  lemma UndottedIsTokenText(s: string)
    requires UndottedToken(s) || AllDigits(s)
    ensures TokenText(s)
  {
    forall i | 0 <= i < |s| ensures s[i] as int < 128 && s[i] != '.' {
      if UndottedToken(s) {
        assert s[i] in s;
        assert AlphaNum(s[i]) || s[i] in {'_', '.', ':', '-'};
      } else {
        assert Digit(s[i]);
      }
    }
  }

  // A dot-free field is recovered from what precedes the first dot.
  lemma FirstFieldInjective(a: string, x: Bytes, b: string, y: Bytes)
    requires TokenText(a) && TokenText(b)
    requires Ascii(a) + [46] + x == Ascii(b) + [46] + y
    ensures a == b && x == y
  {
    var u, v := Ascii(a) + [46] + x, Ascii(b) + [46] + y;
    assert forall i :: 0 <= i < |a| ==> u[i] == a[i] as int;
    assert forall i :: 0 <= i < |b| ==> v[i] == b[i] as int;
    assert u[|a|] == 46 && v[|b|] == 46;
    assert |a| == |b|;
    assert u[|a| + 1..] == x && v[|a| + 1..] == y;
    forall i | 0 <= i < |a| ensures a[i] == b[i] { assert u[i] == v[i]; }
  }

  // The dots make the framing injective over timestamp, delivery and body.
  lemma FramingInjective(t1: string, d1: string, b1: Bytes, t2: string, d2: string, b2: Bytes)
    requires TokenText(t1) && TokenText(d1) && TokenText(t2) && TokenText(d2)
    requires Message(t1, d1, b1) == Message(t2, d2, b2)
    ensures t1 == t2 && d1 == d2 && b1 == b2
  {
    assert Message(t1, d1, b1) == Ascii(t1) + [46] + (Ascii(d1) + [46] + b1);
    assert Message(t2, d2, b2) == Ascii(t2) + [46] + (Ascii(d2) + [46] + b2);
    FirstFieldInjective(t1, Ascii(d1) + [46] + b1, t2, Ascii(d2) + [46] + b2);
    FirstFieldInjective(d1, b1, d2, b2);
  }

  // ---- Lower-case hex ----

  function HexChar(n: int): (c: char)
    requires 0 <= n < 16
    ensures LowerHex(c)
  {
    if n < 10 then ('0' as int + n) as char else ('a' as int + n - 10) as char
  }

  function Hex(b: Bytes): string {
    if b == [] then "" else [HexChar(b[0] / 16), HexChar(b[0] % 16)] + Hex(b[1..])
  }

  function Unhex(s: string): Bytes {
    if |s| < 2 then [] else [HexValue(s[0]) * 16 + HexValue(s[1])] + Unhex(s[2..])
  }

  lemma HexStep(x: Byte, t: Bytes)
    ensures Hex([x] + t) == [HexChar(x / 16), HexChar(x % 16)] + Hex(t)
  {
    assert ([x] + t)[1..] == t;
  }

  lemma UnhexStep(a: char, b: char, t: string)
    ensures Unhex([a, b] + t) == [HexValue(a) * 16 + HexValue(b)] + Unhex(t)
  {
    assert ([a, b] + t)[2..] == t;
  }

  lemma HexCharOfValue(c: char)
    requires LowerHex(c)
    ensures HexChar(HexValue(c)) == c
  {
  }

  function Joined(high: int, low: int): (b: Byte)
    requires 0 <= high < 16 && 0 <= low < 16
    ensures b == high * 16 + low && b / 16 == high && b % 16 == low
  {
    high * 16 + low
  }

  lemma {:induction false} HexRoundTrip(b: Bytes)
    ensures |Hex(b)| == 2 * |b| && Unhex(Hex(b)) == b
    ensures forall i :: 0 <= i < |Hex(b)| ==> LowerHex(Hex(b)[i])
  {
    if b != [] {
      var x, t := b[0], b[1..];
      HexRoundTrip(t);
      assert b == [x] + t;
      HexStep(x, t);
      UnhexStep(HexChar(x / 16), HexChar(x % 16), Hex(t));
    }
  }

  lemma {:induction false} UnhexRoundTrip(s: string)
    requires |s| % 2 == 0 && forall i :: 0 <= i < |s| ==> LowerHex(s[i])
    ensures |Unhex(s)| == |s| / 2 && Hex(Unhex(s)) == s
  {
    if s != "" {
      var a, b, t := s[0], s[1], s[2..];
      UnhexRoundTrip(t);
      assert s == [a, b] + t;
      UnhexStep(a, b, t);
      assert LowerHex(a) && LowerHex(b);
      HexCharOfValue(a);
      HexCharOfValue(b);
      HexStep(Joined(HexValue(a), HexValue(b)), Unhex(t));
    }
  }

  // ---- Patterns ----

  predicate TimestampText(s: string) { |s| <= 10 && Canonical(s) }

  predicate SignatureText(s: string) {
    |s| == 67 && s[..3] == "v1=" && forall i :: 3 <= i < 67 ==> LowerHex(s[i])
  }

  predicate PolicyValid(p: Policy, now: int) {
    && 0 <= now <= MAX_UNIX && 1 <= p.maxAgeSeconds <= 86400
    && 0 <= p.maxFutureSkewSeconds <= p.maxAgeSeconds && 1 <= p.maxBodyBytes <= 1048576
  }

  predicate KeyValid(k: KeyVersion) {
    && Token(k.id) && 32 <= |k.secret| <= 4096
    && 0 <= k.notBefore < k.signUntil <= k.verifyUntil <= MAX_UNIX
  }

  predicate RingValid(keys: seq<KeyVersion>) {
    && 1 <= |keys| <= 2
    && (forall i :: 0 <= i < |keys| ==> KeyValid(keys[i]))
    && (|keys| == 2 ==> keys[0].id != keys[1].id && keys[0].secret != keys[1].secret)
  }

  predicate Shaped(s: Signed) {
    && UndottedToken(s.event) && UndottedToken(s.delivery) && TimestampText(s.timestamp)
    && Token(s.keyId) && SignatureText(s.signature)
  }

  // ---- Sign, the same in both languages ----

  function Tag(h: Hashes, k: KeyVersion, timestamp: string, delivery: string, body: Bytes): string {
    "v1=" + Hex(h.hmac(k.secret, Message(timestamp, delivery, body)))
  }

  function Sign(h: Hashes, body: Bytes, event: string, delivery: string, k: KeyVersion, now: int, p: Policy)
    : Result<Signed>
  {
    if !PolicyValid(p, now) || !KeyValid(k) then Err(ERR_CONFIG)
    else if |body| > p.maxBodyBytes || !UndottedToken(event) || !UndottedToken(delivery)
      || k.revoked || now < k.notBefore || now >= k.signUntil then Err(ERR_PROOF)
    else Ok(Signed(event, delivery, Format(now), k.id, Tag(h, k, Format(now), delivery, body)))
  }

  // Exactly when a delivery is signed, and what is sent.
  lemma SignIsExact(h: Hashes, body: Bytes, event: string, delivery: string, k: KeyVersion, now: int, p: Policy)
    ensures Sign(h, body, event, delivery, k, now, p).Ok? <==>
      && 0 <= now <= 9999999999 && 1 <= p.maxAgeSeconds <= 86400 && 0 <= p.maxFutureSkewSeconds <= p.maxAgeSeconds
      && 1 <= p.maxBodyBytes <= 1048576 && |body| <= p.maxBodyBytes
      && Token(k.id) && 32 <= |k.secret| <= 4096 && 0 <= k.notBefore < k.signUntil <= k.verifyUntil <= 9999999999
      && UndottedToken(event) && UndottedToken(delivery) && !k.revoked && k.notBefore <= now < k.signUntil
    ensures Sign(h, body, event, delivery, k, now, p).Ok? ==>
      Sign(h, body, event, delivery, k, now, p).value == Signed(event, delivery, Format(now), k.id,
        "v1=" + Hex(h.hmac(k.secret, Ascii(Format(now)) + [46] + Ascii(delivery) + [46] + body)))
  {
    if now >= 0 { MessageSpelled(Format(now), delivery, body); }
  }

  // ---- Verify ----

  // The replay window and the key's signing and verification intervals.
  predicate InWindow(k: KeyVersion, t: int, now: int, p: Policy) {
    && (t <= now ==> now - t <= p.maxAgeSeconds) && (t > now ==> t - now <= p.maxFutureSkewSeconds)
    && !k.revoked && k.notBefore <= t < k.signUntil && k.notBefore <= now < k.verifyUntil
  }

  function IndexOf(keys: seq<KeyVersion>, id: string): Option<nat> {
    if |keys| > 0 && keys[0].id == id then Some(0)
    else if |keys| > 1 && keys[1].id == id then Some(1)
    else None
  }

  // On the five header values.
  function Verify(h: Hashes, body: Bytes, s: Signed, keys: seq<KeyVersion>, now: int, p: Policy): Result<Proof> {
    if !PolicyValid(p, now) || !RingValid(keys) then Err(ERR_CONFIG)
    else if |body| > p.maxBodyBytes || !Shaped(s) then Err(ERR_PROOF)
    else
      var t, i := Value(s.timestamp), IndexOf(keys, s.keyId);
      if i.None? || !InWindow(keys[i.value], t, now, p) then Err(ERR_PROOF)
      else if Unhex(s.signature[3..]) != h.hmac(keys[i.value].secret, Message(s.timestamp, s.delivery, body)) then
        Err(ERR_PROOF)
      else Ok(Proof(s.delivery, s.keyId, t, h.sha(body)))
  }

  // The first loop of signature.go's Verify.
  method CheckRing(keys: seq<KeyVersion>) returns (ok: bool)
    ensures ok <==> RingValid(keys)
  {
    if |keys| < 1 || |keys| > 2 {
      return false;
    }
    for i := 0 to |keys|
      invariant forall k :: 0 <= k < i ==> KeyValid(keys[k])
      invariant forall j, k :: 0 <= j < k < i ==> keys[j].id != keys[k].id && keys[j].secret != keys[k].secret
    {
      if !KeyValid(keys[i]) {
        return false;
      }
      for j := 0 to i
        invariant forall k :: 0 <= k < j ==> keys[k].id != keys[i].id && keys[k].secret != keys[i].secret
      {
        if keys[i].id == keys[j].id || keys[i].secret == keys[j].secret {
          return false;
        }
      }
    }
    return true;
  }

  // Its part after the header values are found, with the key selection loop.
  method VerifyValues(h: Hashes, body: Bytes, s: Signed, keys: seq<KeyVersion>, now: int, p: Policy)
    returns (r: Result<Proof>)
    requires PolicyValid(p, now) && RingValid(keys) && |body| <= p.maxBodyBytes
    ensures r == Verify(h, body, s, keys, now, p)
  {
    if !Shaped(s) {
      return Err(ERR_PROOF);
    }
    TimestampRange(s.timestamp);
    var t := Value(s.timestamp);
    if t > MAX_UNIX || (t <= now && now - t > p.maxAgeSeconds) || (t > now && t - now > p.maxFutureSkewSeconds) {
      return Err(ERR_PROOF);
    }
    var selected: Option<nat> := None;
    for i := 0 to |keys|
      invariant selected.Some? ==> selected.value < i && keys[selected.value].id == s.keyId
      invariant selected.None? ==> forall k :: 0 <= k < i ==> keys[k].id != s.keyId
    {
      if keys[i].id == s.keyId { selected := Some(i); }
    }
    if selected.None? {
      return Err(ERR_PROOF);
    }
    var k := keys[selected.value];
    if k.revoked || t < k.notBefore || t >= k.signUntil || now < k.notBefore || now >= k.verifyUntil {
      return Err(ERR_PROOF);
    }
    if Unhex(s.signature[3..]) != h.hmac(k.secret, Message(s.timestamp, s.delivery, body)) {
      return Err(ERR_PROOF);
    }
    return Ok(Proof(s.delivery, s.keyId, t, h.sha(body)));
  }

  lemma TimestampRange(s: string)
    requires TimestampText(s)
    ensures 0 <= Value(s) <= MAX_UNIX
  {
    ValueBound(s);
    TwelveDigits();
    PowerMonotone(|s|, 10);
  }

  lemma TagReads(mac: Bytes)
    requires |mac| == 32
    ensures SignatureText("v1=" + Hex(mac)) && Unhex(("v1=" + Hex(mac))[3..]) == mac
  {
    HexRoundTrip(mac);
    var hex := Hex(mac);
    var tag := "v1=" + hex;
    assert tag[3..] == hex && tag[..3] == "v1=";
    forall i | 3 <= i < 67 ensures LowerHex(tag[i]) { assert tag[i] == hex[i - 3]; }
  }

  lemma TimestampReads(t: int)
    requires 0 <= t <= MAX_UNIX
    ensures TimestampText(Format(t)) && Value(Format(t)) == t
  {
    FormatIsCanonical(t);
    TwelveDigits();
    FormatLength(t, 10);
  }

  lemma SignedIsShaped(h: Hashes, body: Bytes, event: string, delivery: string, k: KeyVersion, t: int, p: Policy)
    requires Sized(h) && Sign(h, body, event, delivery, k, t, p).Ok?
    ensures
      var s := Sign(h, body, event, delivery, k, t, p).value;
      && Shaped(s) && Value(s.timestamp) == t && s.event == event && s.delivery == delivery && s.keyId == k.id
      && Unhex(s.signature[3..]) == h.hmac(k.secret, Message(s.timestamp, delivery, body))
  {
    TimestampReads(t);
    var mac := h.hmac(k.secret, Message(Format(t), delivery, body));
    assert |mac| == 32;
    TagReads(mac);
  }

  // Sign then Verify: accepted, with the original delivery, key, time and digest,
  // exactly when the clock window and the rotation intervals allow it.
  lemma SignedVerifies(h: Hashes, body: Bytes, event: string, delivery: string, k: KeyVersion, t: int, p: Policy,
      keys: seq<KeyVersion>, i: nat, now: int, q: Policy)
    requires Sized(h) && Sign(h, body, event, delivery, k, t, p).Ok?
    requires RingValid(keys) && i < |keys| && keys[i].id == k.id && keys[i].secret == k.secret
    requires PolicyValid(q, now)
    ensures
      var s := Sign(h, body, event, delivery, k, t, p).value;
      Verify(h, body, s, keys, now, q) ==
        if |body| <= q.maxBodyBytes && InWindow(keys[i], t, now, q) then Ok(Proof(delivery, k.id, t, h.sha(body)))
        else Err(ERR_PROOF)
  {
    SignedIsShaped(h, body, event, delivery, k, t, p);
    KeyIsFound(keys, i);
  }

  lemma KeyIsFound(keys: seq<KeyVersion>, i: nat)
    requires RingValid(keys) && i < |keys|
    ensures IndexOf(keys, keys[i].id) == Some(i)
  {
  }

  // Conversely, whatever is accepted is what Sign makes of these bytes with that key
  // at the stated time.
  lemma VerifiedWasSigned(h: Hashes, body: Bytes, s: Signed, keys: seq<KeyVersion>, now: int, p: Policy)
    requires Verify(h, body, s, keys, now, p).Ok?
    ensures
      var i := IndexOf(keys, s.keyId);
      i.Some? && Sign(h, body, s.event, s.delivery, keys[i.value], Value(s.timestamp), p) == Ok(s)
  {
    var k := keys[IndexOf(keys, s.keyId).value];
    TimestampRange(s.timestamp);
    CanonicalIsFormat(s.timestamp);
    var hex := s.signature[3..];
    assert forall j :: 0 <= j < |hex| ==> hex[j] == s.signature[j + 3];
    UnhexRoundTrip(hex);
    assert s.signature == s.signature[..3] + hex;
  }

  // The tag is the MAC of these very bytes: timestamp, dot, delivery, dot, body.
  ghost predicate Tagged(h: Hashes, k: KeyVersion, s: Signed, body: Bytes) {
    var mac := h.hmac(k.secret, Ascii(s.timestamp) + [46] + Ascii(s.delivery) + [46] + body);
    |mac| == 32 && s.signature == "v1=" + Hex(mac)
  }

  // At time t, not older than the policy allows nor further ahead, and inside the key's
  // intervals.
  ghost predicate Timely(k: KeyVersion, t: int, now: int, p: Policy) {
    && 0 <= t <= 9999999999 && now - t <= p.maxAgeSeconds && t - now <= p.maxFutureSkewSeconds
    && !k.revoked && k.notBefore <= t && t < k.signUntil && k.notBefore <= now && now < k.verifyUntil
  }

  ghost predicate Authentic(h: Hashes, body: Bytes, s: Signed, k: KeyVersion, t: int, now: int, p: Policy) {
    && UndottedToken(s.event) && UndottedToken(s.delivery)
    && k.id == s.keyId && Timely(k, t, now, p) && s.timestamp == Format(t) && Tagged(h, k, s, body)
  }

  // Exactly what is accepted: five values that some key of the ring authenticates.
  lemma VerifyIsExact(h: Hashes, body: Bytes, s: Signed, keys: seq<KeyVersion>, now: int, p: Policy)
    requires PolicyValid(p, now) && RingValid(keys) && |body| <= p.maxBodyBytes
    ensures Verify(h, body, s, keys, now, p).Ok? <==> exists k, t :: k in keys && Authentic(h, body, s, k, t, now, p)
    ensures Verify(h, body, s, keys, now, p) in {
      Ok(Proof(s.delivery, s.keyId, Value(s.timestamp), h.sha(body))), Err("WEBHOOK_PROOF_INVALID")}
  {
    if Verify(h, body, s, keys, now, p).Ok? {
      VerifiedWasSigned(h, body, s, keys, now, p);
      TimestampRange(s.timestamp);
      var k := keys[IndexOf(keys, s.keyId).value];
      VerifiedIsTagged(h, k, s, body);
      assert Authentic(h, body, s, k, Value(s.timestamp), now, p);
    }
    forall k, t | k in keys && Authentic(h, body, s, k, t, now, p) ensures Verify(h, body, s, keys, now, p).Ok? {
      AuthenticVerifies(h, body, s, keys, k, t, now, p);
    }
  }

  lemma MessageSpelled(timestamp: string, delivery: string, body: Bytes)
    ensures Message(timestamp, delivery, body) == Ascii(timestamp) + [46] + Ascii(delivery) + [46] + body
  {
  }

  lemma VerifiedIsTagged(h: Hashes, k: KeyVersion, s: Signed, body: Bytes)
    requires SignatureText(s.signature)
    requires Unhex(s.signature[3..]) == h.hmac(k.secret, Message(s.timestamp, s.delivery, body))
    ensures Tagged(h, k, s, body)
  {
    MessageSpelled(s.timestamp, s.delivery, body);
    var hex := s.signature[3..];
    assert forall j :: 0 <= j < |hex| ==> hex[j] == s.signature[j + 3];
    UnhexRoundTrip(hex);
    assert s.signature == s.signature[..3] + hex;
  }

  lemma AuthenticVerifies(h: Hashes, body: Bytes, s: Signed, keys: seq<KeyVersion>, k: KeyVersion, t: int, now: int,
      p: Policy)
    requires PolicyValid(p, now) && RingValid(keys) && |body| <= p.maxBodyBytes
    requires k in keys && Authentic(h, body, s, k, t, now, p)
    ensures Verify(h, body, s, keys, now, p).Ok?
  {
    var i :| 0 <= i < |keys| && keys[i] == k;
    KeyIsFound(keys, i);
    TimestampReads(t);
    MessageSpelled(s.timestamp, s.delivery, body);
    TagReads(h.hmac(k.secret, Message(s.timestamp, s.delivery, body)));
    assert KeyValid(keys[i]);
  }

  // One signature accepted twice under one key names one delivery, one time and one
  // body, or else shows two messages with one MAC.
  lemma AcceptedSignatureBinds(h: Hashes, b1: Bytes, s1: Signed, b2: Bytes, s2: Signed, keys: seq<KeyVersion>,
      now: int, p: Policy)
    requires Verify(h, b1, s1, keys, now, p).Ok? && Verify(h, b2, s2, keys, now, p).Ok?
    requires s1.keyId == s2.keyId && s1.signature == s2.signature
    ensures
      var m1, m2 := Message(s1.timestamp, s1.delivery, b1), Message(s2.timestamp, s2.delivery, b2);
      || (s1.delivery == s2.delivery && s1.timestamp == s2.timestamp && b1 == b2
          && Verify(h, b1, s1, keys, now, p) == Verify(h, b2, s2, keys, now, p))
      || (m1 != m2 && exists i :: 0 <= i < |keys| && h.hmac(keys[i].secret, m1) == h.hmac(keys[i].secret, m2))
  {
    var m1, m2 := Message(s1.timestamp, s1.delivery, b1), Message(s2.timestamp, s2.delivery, b2);
    var i := IndexOf(keys, s1.keyId).value;
    assert h.hmac(keys[i].secret, m1) == h.hmac(keys[i].secret, m2);
    if m1 == m2 {
      UndottedIsTokenText(s1.delivery);
      UndottedIsTokenText(s2.delivery);
      UndottedIsTokenText(s1.timestamp);
      UndottedIsTokenText(s2.timestamp);
      FramingInjective(s1.timestamp, s1.delivery, b1, s2.timestamp, s2.delivery, b2);
    }
  }

  // ---- The checks of signature.py ----

  predicate PyInteger(n: int, lo: int, hi: int) { lo <= n <= hi }

  predicate PyPolicy(p: Policy, now: int) {
    && PyInteger(now, 0, MAX_UNIX) && PyInteger(p.maxAgeSeconds, 1, 86400)
    && PyInteger(p.maxFutureSkewSeconds, 0, p.maxAgeSeconds) && PyInteger(p.maxBodyBytes, 1, 1048576)
  }

  predicate PyKey(k: KeyVersion) {
    && Token(k.id) && 32 <= |k.secret| <= 4096 && PyInteger(k.notBefore, 0, MAX_UNIX)
    && PyInteger(k.signUntil, k.notBefore + 1, MAX_UNIX) && PyInteger(k.verifyUntil, k.signUntil, MAX_UNIX)
  }

  predicate PyRing(keys: seq<KeyVersion>) {
    && 1 <= |keys| <= 2 && !(exists i :: 0 <= i < |keys| && !PyKey(keys[i]))
    && !(|keys| == 2 && (keys[0].id == keys[1].id || keys[0].secret == keys[1].secret))
  }

  // The first key of that name, if any.
  function PySelect(keys: seq<KeyVersion>, kid: string): Option<KeyVersion> {
    if keys == [] then None else if keys[0].id == kid then Some(keys[0]) else PySelect(keys[1..], kid)
  }

  // verify_webhook once the five values are found.
  function PyVerifyValues(h: Hashes, body: Bytes, s: Signed, keys: seq<KeyVersion>, now: int, p: Policy)
    : Result<Proof>
  {
    if !Shaped(s) then Err(ERR_PROOF)
    else
      var at := Value(s.timestamp);
      if (at <= now && now - at > p.maxAgeSeconds) || (at > now && at - now > p.maxFutureSkewSeconds) then
        Err(ERR_PROOF)
      else
        var k := PySelect(keys, s.keyId);
        if k.None? || k.value.revoked then Err(ERR_PROOF)
        else if !(k.value.notBefore <= at < k.value.signUntil && k.value.notBefore <= now < k.value.verifyUntil) then
          Err(ERR_PROOF)
        else if Unhex(s.signature[3..]) != h.hmac(k.value.secret, Message(s.timestamp, s.delivery, body)) then
          Err(ERR_PROOF)
        else Ok(Proof(s.delivery, s.keyId, at, h.sha(body)))
  }

  lemma SelectionsAgree(keys: seq<KeyVersion>, kid: string)
    requires 1 <= |keys| <= 2
    ensures PySelect(keys, kid) == if IndexOf(keys, kid).None? then None else Some(keys[IndexOf(keys, kid).value])
  {
    var tail := keys[1..];
    if |keys| == 1 {
      assert PySelect(tail, kid) == None;
    } else {
      assert tail[0] == keys[1] && PySelect(tail[1..], kid) == None;
    }
  }

  lemma RingsAgree(keys: seq<KeyVersion>)
    ensures RingValid(keys) <==> PyRing(keys)
  {
    assert forall i :: 0 <= i < |keys| ==> (KeyValid(keys[i]) <==> PyKey(keys[i]));
  }

  // On the same values the two implementations return the same result.
  lemma ValueVerifiersAgree(h: Hashes, body: Bytes, s: Signed, keys: seq<KeyVersion>, now: int, p: Policy)
    requires PolicyValid(p, now) && RingValid(keys) && |body| <= p.maxBodyBytes
    ensures PyVerifyValues(h, body, s, keys, now, p) == Verify(h, body, s, keys, now, p)
  {
    SelectionsAgree(keys, s.keyId);
  }
}
