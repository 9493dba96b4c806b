// The join of signature proof and body identity: VerifyEvent of receiving/event.go and
// verify_webhook_event of event.py.

module Receiving {
  import opened Common
  import opened HeaderFields
  import opened JsonStrings
  import opened JsonText
  import opened JsonTree
  import opened Signing
  import opened SignedHeaders
  import R = JsonRules
  import GoTokens
  import PythonReader
  import ReadersAgree

  const ERR_LIMITS := "WEBHOOK_EVENT_LIMITS_INVALID"
  const ERR_ENVELOPE := "WEBHOOK_EVENT_ENVELOPE_INVALID"

  datatype Event = Event(id: Points, proof: Proof, raw: Bytes)

  // The body as text when it is valid UTF-8, and what the Go decoder makes of it.
  datatype Body = Body(raw: Bytes, text: Option<string>, stream: GoTokens.Stream)

  ghost predicate Faithful(b: Body) {
    && GoTokens.Encodable(b.stream.tokens)
    && (b.text.Some? ==> Utf8(b.text.value) == b.raw && ReadersAgree.Tokenizes(b.text.value, b.stream))
  }

  // Authenticate first, then compare the signed body's event_id with its header.
  // selected holds the five header values, when they were found within bounds.
  function VerifyEvent(h: Hashes, b: Body, selected: Option<Signed>, keys: seq<KeyVersion>, now: int, p: Policy,
      l: R.Limits)
    : Result<Event>
  {
    if !R.ValidLimits(l) then Err(ERR_LIMITS)
    else if !(1 <= p.maxBodyBytes <= 1048576) then Err(ERR_CONFIG)
    else if |b.raw| > p.maxBodyBytes || selected.None? then Err(ERR_PROOF)
    else
      var proof := Verify(h, b.raw, selected.value, keys, now, p);
      if proof.Err? then Err(proof.error)
      else
        var id := if b.text.None? then None else EventIdOf(l, b.text.value);
        if id != Some(PointsOf(selected.value.event)) then Err(ERR_ENVELOPE)
        else Ok(Event(id.value, proof.value, b.raw))
  }

  method GoVerifyEvent(h: Hashes, b: Body, headers: GoHeader, keys: seq<KeyVersion>, now: int, p: Policy, l: R.Limits)
    returns (r: Result<Event>)
    requires Faithful(b)
    ensures r == VerifyEvent(h, b, GoSelected(headers), keys, now, p, l)
  {
    if !R.ValidLimits(l) {
      return Err(ERR_LIMITS);
    }
    if p.maxBodyBytes < 1 || p.maxBodyBytes > 1048576 {
      return Err(ERR_CONFIG);
    }
    if |b.raw| > p.maxBodyBytes || |headers| > 128 {
      return Err(ERR_PROOF);
    }
    var selected := Select(headers);
    if selected.None? {
      return Err(ERR_PROOF);
    }
    ExactVerifies(h, b.raw, selected.value, keys, now, p);
    var proof := VerifyHeaders(h, b.raw, HeadersOf(selected.value), keys, now, p);
    if proof.Err? {
      return Err(proof.error);
    }
    if b.text.None? {
      return Err(ERR_ENVELOPE);
    }
    var id := ReadersAgree.EventId(l, b.text.value, b.stream);
    if id != Some(PointsOf(selected.value.event)) {
      return Err(ERR_ENVELOPE);
    }
    return Ok(Event(id.value, proof.value, b.raw));
  }

  method PyVerifyEvent(h: Hashes, b: Body, pairs: Pairs, keys: seq<KeyVersion>, now: int, p: Policy, l: R.Limits)
    returns (r: Result<Event>)
    ensures r == VerifyEvent(h, b, PySelected(pairs), keys, now, p, l)
  {
    if !R.ValidLimits(l) {
      return Err(ERR_LIMITS);
    }
    if p.maxBodyBytes < 1 || p.maxBodyBytes > 1048576 {
      return Err(ERR_CONFIG);
    }
    if |b.raw| > p.maxBodyBytes || !Modest(pairs) {
      return Err(ERR_PROOF);
    }
    var selected := PySelected(pairs);
    if selected.None? {
      return Err(ERR_PROOF);
    }
    SelectedVerifies(h, b.raw, pairs, keys, now, p);
    var proof := PyVerify(h, b.raw, PairsOf(selected.value), keys, now, p);
    if proof.Err? {
      return Err(proof.error);
    }
    if b.text.None? {
      return Err(ERR_ENVELOPE);
    }
    var reader := new PythonReader.Reader(b.text.value, l);
    var id := reader.Run();
    if id != Some(PointsOf(selected.value.event)) {
      return Err(ERR_ENVELOPE);
    }
    return Ok(Event(id.value, proof.value, b.raw));
  }

  // The two programs decide alike on the same received request, within Python's size
  // limits and unless U+017F divides the timestamp or the signature header.
  lemma EventVerifiersAgree(h: Hashes, b: Body, pairs: Pairs, keys: seq<KeyVersion>, now: int, p: Policy, l: R.Limits)
    requires Modest(pairs) && Undivided(pairs)
    ensures VerifyEvent(h, b, PySelected(pairs), keys, now, p, l) ==
      VerifyEvent(h, b, GoSelected(Group(pairs)), keys, now, p, l)
  {
    SelectedAgree(pairs);
  }

  // End to end: a document signed under its own event_id and sent with the signed
  // headers among any others is received in both languages as exactly that event, when
  // the limits, the clock window and the rotation intervals allow it.
  lemma SignedDocumentIsReceived(h: Hashes, d: Document, b: Body, event: string, delivery: string, k: KeyVersion,
      t: int, p: Policy,
      pairs: Pairs, keys: seq<KeyVersion>, i: nat, now: int, q: Policy, l: R.Limits)
    requires WellFormedDocument(d) && b.text == Some(PrintDocument(d)) && b.raw == Utf8(PrintDocument(d))
    requires Sized(h) && Sign(h, b.raw, event, delivery, k, t, p).Ok?
    requires Carries(pairs, Sign(h, b.raw, event, delivery, k, t, p).value) && Modest(pairs)
    requires RingValid(keys) && i < |keys| && keys[i].id == k.id && keys[i].secret == k.secret
    requires PolicyValid(q, now) && |b.raw| <= q.maxBodyBytes && R.ValidLimits(l)
    ensures VerifyEvent(h, b, GoSelected(Group(pairs)), keys, now, q, l) ==
      VerifyEvent(h, b, PySelected(pairs), keys, now, q, l)
    ensures VerifyEvent(h, b, GoSelected(Group(pairs)), keys, now, q, l) ==
      if !InWindow(keys[i], t, now, q) then Err(ERR_PROOF)
      else if EventIdOf(l, PrintDocument(d)) == Some(PointsOf(event))
      then Ok(Event(PointsOf(event), Proof(delivery, k.id, t, h.sha(b.raw)), b.raw)) else Err(ERR_ENVELOPE)
    ensures EventIdOf(l, PrintDocument(d)) == Some(PointsOf(event)) <==> R.Accepted(l, TreeOf(d.root), PointsOf(event))
  {
    SignedIsSelected(h, b.raw, event, delivery, k, t, p, pairs);
    SignedVerifies(h, b.raw, event, delivery, k, t, p, keys, i, now, q);
    var s := Sign(h, b.raw, event, delivery, k, t, p).value;
    VerdictFollows(h, b, s, keys, now, q, l, InWindow(keys[i], t, now, q), Proof(delivery, k.id, t, h.sha(b.raw)));
    DocumentIdentity(l, d, PointsOf(event));
  }

  // The verdict on a text from the verdict on its proof.
  lemma VerdictFollows(h: Hashes, b: Body, s: Signed, keys: seq<KeyVersion>, now: int, p: Policy, l: R.Limits,
      accepted: bool, proof: Proof)
    requires R.ValidLimits(l) && 1 <= p.maxBodyBytes <= 1048576 && |b.raw| <= p.maxBodyBytes && b.text.Some?
    requires Verify(h, b.raw, s, keys, now, p) == if accepted then Ok(proof) else Err(ERR_PROOF)
    ensures VerifyEvent(h, b, Some(s), keys, now, p, l) ==
      if !accepted then Err(ERR_PROOF)
      else if EventIdOf(l, b.text.value) == Some(PointsOf(s.event)) then Ok(Event(PointsOf(s.event), proof, b.raw))
      else Err(ERR_ENVELOPE)
  {
  }

  lemma SignedIsSelected(h: Hashes, raw: Bytes, event: string, delivery: string, k: KeyVersion, t: int, p: Policy,
      pairs: Pairs)
    requires Sized(h) && Sign(h, raw, event, delivery, k, t, p).Ok?
    requires Carries(pairs, Sign(h, raw, event, delivery, k, t, p).value) && Modest(pairs)
    ensures
      var s := Sign(h, raw, event, delivery, k, t, p).value;
      GoSelected(Group(pairs)) == Some(s) == PySelected(pairs) && s.event == event
  {
    SignedIsShaped(h, raw, event, delivery, k, t, p);
    ShapedIsSelected(pairs, Sign(h, raw, event, delivery, k, t, p).value);
  }

  lemma DocumentIdentity(l: R.Limits, d: Document, id: Points)
    requires WellFormedDocument(d) && R.ValidLimits(l)
    ensures EventIdOf(l, PrintDocument(d)) == Some(id) <==> R.Accepted(l, TreeOf(d.root), id)
  {
    ReadDocumentIsInverse(PrintDocument(d), d);
    TreeIsShaped(d.root);
    R.CheckRootIsExact(l, TreeOf(d.root), id);
  }

  // The text is a document that the limits accept with this event_id.
  ghost predicate Identifies(l: R.Limits, text: string, id: Points) {
    exists d :: WellFormedDocument(d) && PrintDocument(d) == text && R.Accepted(l, TreeOf(d.root), id)
  }

  // The proof is what Sign makes of these bytes under one of the keys.
  ghost predicate SignedUnder(h: Hashes, raw: Bytes, s: Signed, delivery: string, keys: seq<KeyVersion>, t: int,
      p: Policy)
  {
    exists k :: k in keys && Sign(h, raw, s.event, delivery, k, t, p) == Ok(s)
  }

  // Exactly what each answer means: limits out of range, an authenticated body that does
  // not identify the event it was signed for, and an event.
  lemma VerdictIsExact(h: Hashes, b: Body, selected: Option<Signed>, keys: seq<KeyVersion>, now: int, p: Policy,
      l: R.Limits)
    ensures
      var r := VerifyEvent(h, b, selected, keys, now, p, l);
      var bounded := 1 <= l.maxDepth <= 64 && 4 <= l.maxTokens <= 65536 && 8 <= l.maxKeyBytes <= 4096;
      var proven := |b.raw| <= p.maxBodyBytes && selected.Some? && Verify(h, b.raw, selected.value, keys, now, p).Ok?;
      var named := b.text.Some? && selected.Some? && Identifies(l, b.text.value, PointsOf(selected.value.event));
      && (r == Err("WEBHOOK_EVENT_LIMITS_INVALID") <==> !bounded)
      && (r == Err("WEBHOOK_EVENT_ENVELOPE_INVALID") <==> bounded && proven && !named)
      && (r.Ok? <==> bounded && proven && named)
  {
    if selected.Some? && b.text.Some? && R.ValidLimits(l) {
      EventIdIsExact(l, b.text.value, PointsOf(selected.value.event));
    }
  }

  // An event carries the identity of its own body, authenticated with it.
  lemma EventIsAuthentic(h: Hashes, b: Body, selected: Option<Signed>, keys: seq<KeyVersion>, now: int, p: Policy,
      l: R.Limits)
    requires VerifyEvent(h, b, selected, keys, now, p, l).Ok?
    ensures
      var e := VerifyEvent(h, b, selected, keys, now, p, l).value;
      && e.raw == b.raw && b.text.Some? && selected.Some? && e.id == PointsOf(selected.value.event)
      && Identifies(l, b.text.value, e.id)
      && e.proof.deliveryId == selected.value.delivery && e.proof.bodySha256 == h.sha(b.raw)
      && SignedUnder(h, b.raw, selected.value, e.proof.deliveryId, keys, e.proof.attemptedAt, p)
  {
    var s := selected.value;
    EventIdIsExact(l, b.text.value, PointsOf(s.event));
    VerifiedWasSigned(h, b.raw, s, keys, now, p);
    assert keys[IndexOf(keys, s.keyId).value] in keys;
  }
}
