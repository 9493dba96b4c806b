// ServeHTTP of backend/services/webhook-dispatcher/receiverhttp/handler.go: one
// response path, and 204 only on a matching inbox receipt.

module ReceiverHttp {
  import opened Common
  import opened JsonStrings
  import R = JsonRules
  import S = Signing
  import HeaderFields
  import Receiving
  import SignedHeaders
  import Names
  import ReceiverGate

  datatype Scope = Scope(tenantId: string, workspaceId: string, environmentId: string, endpointId: string)
  datatype Identity = Identity(scope: Scope, eventId: Points, deliveryId: string, bodySha256: Bytes)
  datatype Receipt = Receipt(identity: Identity, ref: string, state: string)

  // What a port call comes back with, if it comes back.
  datatype Port<+T> = Returns(value: T) | Fails(error: string) | Panics

  const ERR_DENIED := "RECEIVER_DENIED"
  const ERR_REJECTED := "RECEIVER_EVENT_REJECTED"
  const ERR_CONFLICT := "RECEIVER_DELIVERY_CONFLICT"
  const ERR_UNAVAILABLE := "RECEIVER_UNAVAILABLE"
  const ERR_BODY_LIMIT := "RECEIVER_BODY_LIMIT"

  // ---- The inbox port: one record per delivery, written once ----

  datatype Slot = Slot(scope: Scope, deliveryId: string)
  datatype Filed = Filed(identity: Identity, ref: string)
  type Records = map<Slot, Filed>

  // An answer, a fault before or after the write, or an adapter that breaks its contract.
  datatype Act = Answers | Breaks(written: bool, panics: bool) | Rogue(receipt: Receipt)

  datatype Accept = Accept(intent: Identity, ref: string, act: Act)

  function SlotOf(i: Identity): Slot { Slot(i.scope, i.deliveryId) }

  function Accepted(r: Records, a: Accept): (Records, Port<Receipt>) {
    var slot := SlotOf(a.intent);
    var filed := if slot in r then r else r[slot := Filed(a.intent, a.ref)];
    match a.act
    case Answers =>
      if slot !in r then (filed, Returns(Receipt(a.intent, a.ref, "accepted")))
      else if r[slot].identity == a.intent then (r, Returns(Receipt(a.intent, r[slot].ref, "duplicate")))
      else (r, Fails(ERR_CONFLICT))
    case Breaks(written, panics) => (if written then filed else r, if panics then Panics else Fails(ERR_UNAVAILABLE))
    case Rogue(receipt) => (r, Returns(receipt))
  }

  function AcceptedAll(r: Records, calls: seq<Accept>): Records
    decreases |calls|
  {
    if calls == [] then r else AcceptedAll(Accepted(r, calls[0]).0, calls[1..])
  }

  lemma {:induction false} RecordsAreFinal(r: Records, calls: seq<Accept>, slot: Slot)
    requires slot in r
    ensures slot in AcceptedAll(r, calls) && AcceptedAll(r, calls)[slot] == r[slot]
    decreases |calls|
  {
    if calls != [] { RecordsAreFinal(Accepted(r, calls[0]).0, calls[1..], slot); }
  }

  class Inbox {
    var records: Records

    constructor ()
      ensures records == map[]
    {
      records := map[];
    }

    method Take(a: Accept) returns (p: Port<Receipt>)
      modifies this
      ensures (records, p) == Accepted(old(records), a)
    {
      p := Accepted(records, a).1;
      records := Accepted(records, a).0;
    }

    // Other requests' acceptances.
    method Await(others: seq<Accept>)
      modifies this
      ensures records == AcceptedAll(old(records), others)
    {
      for i := 0 to |others|
        invariant AcceptedAll(old(records), others) == AcceptedAll(records, others[i..])
      {
        assert others[i..][0] == others[i] && others[i..][1..] == others[i + 1..];
        var _ := Take(others[i]);
      }
    }
  }

  // ---- One request ----

  datatype Config = Config(scope: Scope, signing: S.Policy, parser: R.Limits, hashes: S.Hashes)

  // The request and what the ports and the clock do during it. expired says whether
  // the one bounded context is over at each place where ServeHTTP looks.
  datatype Outside = Outside(
    requestId: Port<string>, deadlinesSet: bool, post: bool, headersBounded: bool, mediaOk: bool, encodingOk: bool,
    contentLength: int, keys: Port<seq<S.KeyVersion>>, body: Port<Receiving.Body>,
    headers: HeaderFields.GoHeader, clock: Port<int>,
    check: Port<()>, ref: string, act: Act,
    expired: Expired, steps: seq<ReceiverGate.Step>, accepts: seq<Accept>)

  datatype Expired = Expired(atStart: bool, atKeys: bool, atBody: bool, atEvent: bool, atCheck: bool)

  datatype Report = Report(status: int, code: string, durable: bool)

  const Unavailable: Report := Report(503, "RECEIVER_UNAVAILABLE", false)

  predicate Bounded(cfg: Config, out: Outside) {
    && out.requestId.Returns? && Names.Token(out.requestId.value) && out.deadlinesSet && !out.expired.atStart
    && out.post && out.headersBounded && out.mediaOk && out.encodingOk && out.contentLength <= cfg.signing.maxBodyBytes
  }

  predicate Collected(out: Outside) {
    out.keys.Returns? && !out.expired.atKeys && out.body.Returns? && !out.expired.atBody && out.clock.Returns?
  }

  // What verification says of the request, once there is something to verify.
  ghost function VerdictIn(cfg: Config, out: Outside): Result<Receiving.Event>
    requires Collected(out)
  {
    var selected := SignedHeaders.GoSelected(out.headers);
    Receiving.VerifyEvent(cfg.hashes, out.body.value, selected, out.keys.value, out.clock.value, cfg.signing,
      cfg.parser)
  }

  ghost function EventIn(cfg: Config, out: Outside): Option<Receiving.Event> {
    if Collected(out) && VerdictIn(cfg, out).Ok? then Some(VerdictIn(cfg, out).value) else None
  }

  ghost function ProofIn(cfg: Config, out: Outside): Option<string> {
    if Collected(out) && VerdictIn(cfg, out).Err? then Some(VerdictIn(cfg, out).error) else None
  }

  // The inbox is asked about this request.
  ghost predicate Presented(cfg: Config, out: Outside) {
    && Bounded(cfg, out) && EventIn(cfg, out).Some? && !out.expired.atEvent
    && out.check.Returns? && !out.expired.atCheck
  }

  ghost function IntentIn(cfg: Config, out: Outside): Identity
    requires EventIn(cfg, out).Some?
  {
    IntentOf(cfg, EventIn(cfg, out).value)
  }

  function IntentOf(cfg: Config, e: Receiving.Event): Identity {
    Identity(cfg.scope, e.id, e.proof.deliveryId, e.proof.bodySha256)
  }

  ghost function AcceptIn(cfg: Config, out: Outside): Accept
    requires EventIn(cfg, out).Some?
  {
    Accept(IntentIn(cfg, out), out.ref, out.act)
  }

  predicate Matching(r: Receipt, intent: Identity) {
    r.identity == intent && Names.Token(r.ref) && r.state in {"accepted", "duplicate"}
  }

  // What the inbox says to it, and what it holds afterwards.
  ghost function ReceiptIn(cfg: Config, r: Records, out: Outside): Port<Receipt>
    requires Presented(cfg, out)
  {
    Accepted(AcceptedAll(r, out.accepts), AcceptIn(cfg, out)).1
  }

  ghost function RecordsAfter(cfg: Config, r: Records, out: Outside): Records {
    var before := AcceptedAll(r, out.accepts);
    if Presented(cfg, out) then Accepted(before, AcceptIn(cfg, out)).0 else before
  }

  // Every check passed and a matching receipt came back.
  ghost predicate Acknowledged(cfg: Config, r: Records, out: Outside) {
    && Presented(cfg, out)
    && ReceiptIn(cfg, r, out).Returns?
    && var receipt := ReceiptIn(cfg, r, out).value;
       && receipt.identity == IntentIn(cfg, out) && Names.Token(receipt.ref)
       && receipt.state in {"accepted", "duplicate"}
  }

  // An answer, and what may have caused it; 503 is whatever has no answer of its own.
  ghost predicate Caused(cfg: Config, out: Outside, report: Report) {
    match report.status
    case 204 => report.code == "RECEIVER_ACCEPTED"
    case 400 => report.code == "RECEIVER_BODY_INCOMPLETE" && (!out.body.Returns? || out.expired.atBody)
    case 401 => report.code == "RECEIVER_PROOF"
    case 403 =>
      && report.code == "RECEIVER_DENIED"
      && (out.keys == Fails("RECEIVER_DENIED") || out.check == Fails("RECEIVER_DENIED"))
    case 405 => report.code == "RECEIVER_METHOD" && !out.post
    case 409 => report.code == "RECEIVER_DELIVERY_CONFLICT"
    case 413 =>
      && report.code == "RECEIVER_BODY_LIMIT"
      && (out.contentLength > cfg.signing.maxBodyBytes || out.body == Fails("RECEIVER_BODY_LIMIT"))
    case 415 =>
      || (report.code == "RECEIVER_MEDIA_TYPE" && !out.mediaOk)
      || (report.code == "RECEIVER_ENCODING" && !out.encodingOk)
    case 422 =>
      && report.code == "RECEIVER_EVENT_REJECTED"
      && (ProofIn(cfg, out) == Some(Receiving.ERR_ENVELOPE) || out.check == Fails("RECEIVER_EVENT_REJECTED"))
    case 431 => report.code == "RECEIVER_HEADERS" && !out.headersBounded
    case 503 => true
    case _ => false
  }

  function Refuse(status: int, code: string): Report { Report(status, code, false) }

  // Up to the bounds of the request; None when they are met.
  method CheckBounds(cfg: Config, out: Outside) returns (refusal: Option<Report>, panicked: bool)
    ensures refusal.None? <==> Bounded(cfg, out)
    ensures refusal.Some? ==> refusal.value.status !in {204, 401, 409} && !refusal.value.durable
    ensures refusal.Some? ==> Caused(cfg, out, refusal.value)
    ensures refusal.None? ==> !panicked
  {
    panicked := out.requestId.Panics?;
    if panicked {
      return Some(Unavailable), true;
    }
    if out.requestId.Fails? || !Names.Token(out.requestId.value) {
      return Some(Refuse(503, "RECEIVER_CORRELATION_INVALID")), false;
    }
    if !out.deadlinesSet {
      return Some(Refuse(503, "RECEIVER_HOST_UNSUPPORTED")), false;
    }
    if out.expired.atStart {
      return Some(Unavailable), false;
    }
    if !out.post {
      return Some(Refuse(405, "RECEIVER_METHOD")), false;
    }
    if !out.headersBounded {
      return Some(Refuse(431, "RECEIVER_HEADERS")), false;
    }
    if !out.mediaOk {
      return Some(Refuse(415, "RECEIVER_MEDIA_TYPE")), false;
    }
    if !out.encodingOk {
      return Some(Refuse(415, "RECEIVER_ENCODING")), false;
    }
    if out.contentLength > cfg.signing.maxBodyBytes {
      return Some(Refuse(413, ERR_BODY_LIMIT)), false;
    }
    return None, false;
  }

  // From the keys to the gate: the event, or the report of what refused it.
  method Authenticate(cfg: Config, out: Outside)
    returns (event: Option<Receiving.Event>, report: Report, panicked: bool)
    requires Bounded(cfg, out) && (out.body.Returns? ==> Receiving.Faithful(out.body.value))
    ensures event == if Presented(cfg, out) then EventIn(cfg, out) else None
    ensures report.status !in {204, 409} && !report.durable && (event.Some? ==> !panicked)
    ensures report.status == 401 <==> ProofIn(cfg, out) == Some(S.ERR_PROOF)
    ensures report.status == 401 ==> !panicked
    ensures event.None? ==> Caused(cfg, out, report)
  {
    event, report, panicked := None, Unavailable, false;
    if !out.keys.Returns? || out.expired.atKeys {
      report := if out.keys == Fails(ERR_DENIED) then Refuse(403, ERR_DENIED) else Unavailable;
      return None, report, out.keys.Panics?;
    }
    if !out.body.Returns? || out.expired.atBody {
      report := if out.body == Fails(ERR_BODY_LIMIT) then Refuse(413, ERR_BODY_LIMIT)
        else Refuse(400, "RECEIVER_BODY_INCOMPLETE");
      return None, report, out.body.Panics?;
    }
    if !out.clock.Returns? {
      return None, Unavailable, true;
    }
    var verdict := Receiving.GoVerifyEvent(cfg.hashes, out.body.value, out.headers, out.keys.value, out.clock.value,
      cfg.signing, cfg.parser);
    if verdict.Err? {
      report := if verdict.error == S.ERR_PROOF then Refuse(401, "RECEIVER_PROOF")
        else if verdict.error == Receiving.ERR_ENVELOPE then Refuse(422, ERR_REJECTED) else Unavailable;
      return None, report, false;
    }
    if out.expired.atEvent {
      return;
    }
    if !out.check.Returns? || out.expired.atCheck {
      report := if out.check == Fails(ERR_DENIED) then Refuse(403, ERR_DENIED)
        else if out.check == Fails(ERR_REJECTED) then Refuse(422, ERR_REJECTED) else Unavailable;
      return None, report, out.check.Panics?;
    }
    event := Some(verdict.value);
  }

  // The part between admission and the deferred function; a panic leaves through
  // panicked, with whatever the ports had already done.
  method Handle(cfg: Config, inbox: Inbox, out: Outside) returns (report: Report, panicked: bool)
    requires out.body.Returns? ==> Receiving.Faithful(out.body.value)
    modifies inbox
    ensures report.durable <==> report.status == 204
    ensures panicked ==> report.status !in {204, 401, 409}
    ensures report.status == 204 <==> Acknowledged(cfg, old(inbox.records), out)
    // A refusal names its cause.
    ensures report.status == 401 <==> Bounded(cfg, out) && ProofIn(cfg, out) == Some(S.ERR_PROOF)
    ensures report.status == 409 <==>
      Presented(cfg, out) && ReceiptIn(cfg, old(inbox.records), out) == Fails(ERR_CONFLICT)
    ensures Caused(cfg, out, report)
    ensures inbox.records == RecordsAfter(cfg, old(inbox.records), out)
  {
    inbox.Await(out.accepts);
    var refusal: Option<Report>;
    refusal, panicked := CheckBounds(cfg, out);
    if refusal.Some? {
      return refusal.value, panicked;
    }
    var event: Option<Receiving.Event>;
    event, report, panicked := Authenticate(cfg, out);
    if event.None? {
      return;
    }
    var intent := IntentOf(cfg, event.value);
    var receipt := inbox.Take(Accept(intent, out.ref, out.act));
    if !receipt.Returns? {
      report := if receipt == Fails(ERR_CONFLICT) then Refuse(409, ERR_CONFLICT) else Unavailable;
      return report, receipt.Panics?;
    }
    if !Matching(receipt.value, intent) {
      return Unavailable, false;
    }
    return Report(204, "RECEIVER_ACCEPTED", true), false;
  }

  // Whatever happens inside, panics included, the admission is given back and one
  // report is answered.
  method ServeHTTP(cfg: Config, h: ReceiverGate.Handler, inbox: Inbox, request: nat, out: Outside)
    returns (report: Report)
    requires h.Valid() && request !in h.live
    requires ReceiverGate.Finish(request) !in out.steps
    requires out.body.Returns? ==> Receiving.Faithful(out.body.value)
    modifies h, inbox
    ensures h.Valid() && request !in h.live
    ensures old(h.draining || h.active >= h.maxConcurrent) ==>
      report == Report(503, "RECEIVER_NOT_ADMITTED", false)
      && inbox.records == old(inbox.records) && h.Fields() == old(h.Fields())
    ensures !old(h.draining || h.active >= h.maxConcurrent) ==>
      h.Fields() == ReceiverGate.Run(h.maxConcurrent, old(h.Fields()),
        [ReceiverGate.Arrive(request)] + out.steps + [ReceiverGate.Finish(request)])
    ensures !old(h.draining || h.active >= h.maxConcurrent) ==>
      && (report.status == 204 <==> Acknowledged(cfg, old(inbox.records), out))
      && (report.status == 401 <==> Bounded(cfg, out) && ProofIn(cfg, out) == Some(S.ERR_PROOF))
      && (report.status == 409 <==>
          Presented(cfg, out) && ReceiptIn(cfg, old(inbox.records), out) == Fails(ERR_CONFLICT))
      && inbox.records == RecordsAfter(cfg, old(inbox.records), out)
    ensures report.status == 204 ==> Confirmed(cfg, inbox.records, out)
    ensures Caused(cfg, out, report)
    ensures Keeps(old(inbox.records), inbox.records)
  {
    ghost var max, s0 := h.maxConcurrent, h.Fields();
    var admitted := h.TryAdmit(request);
    if !admitted {
      return Refuse(503, "RECEIVER_NOT_ADMITTED");
    }
    ghost var s1 := h.Fields();
    h.Await(out.steps);
    ReceiverGate.OnlyItselfFinishes(max, s1, out.steps, request);
    var panicked: bool;
    report, panicked := Handle(cfg, inbox, out);
    if panicked {
      report := Unavailable;
    }
    h.Leave(request);
    RunAround(max, s0, ReceiverGate.Arrive(request), out.steps, ReceiverGate.Finish(request));
    KeptThroughout(cfg, old(inbox.records), out);
    if report.status == 204 { AcknowledgedIsFiled(cfg, old(inbox.records), out); }
  }

  // A matching receipt came back and, unless the adapter broke its contract, the
  // delivery is on file with this identity.
  ghost predicate Confirmed(cfg: Config, r: Records, out: Outside) {
    && Presented(cfg, out)
    && (out.act.Rogue? ==>
        && out.act.receipt.identity == IntentIn(cfg, out) && Names.Token(out.act.receipt.ref)
        && out.act.receipt.state in {"accepted", "duplicate"})
    && (!out.act.Rogue? ==>
        var slot := SlotOf(IntentIn(cfg, out));
        slot in r && r[slot].identity == IntentIn(cfg, out))
  }

  lemma AcknowledgedIsFiled(cfg: Config, r: Records, out: Outside)
    requires Acknowledged(cfg, r, out)
    ensures Confirmed(cfg, RecordsAfter(cfg, r, out), out)
  {
    AnswerMeans(AcceptedAll(r, out.accepts), AcceptIn(cfg, out));
  }

  lemma AnswerMeans(r: Records, a: Accept)
    ensures
      var (after, p) := Accepted(r, a);
      p.Returns? && !a.act.Rogue? ==>
        SlotOf(a.intent) in after && after[SlotOf(a.intent)] == Filed(a.intent, p.value.ref)
  {
  }

  ghost predicate Keeps(a: Records, b: Records) {
    forall slot :: slot in a ==> slot in b && b[slot] == a[slot]
  }

  lemma KeptThroughout(cfg: Config, r: Records, out: Outside)
    ensures Keeps(r, RecordsAfter(cfg, r, out))
  {
    var before := AcceptedAll(r, out.accepts);
    forall slot | slot in r ensures slot in before && before[slot] == r[slot] {
      RecordsAreFinal(r, out.accepts, slot);
    }
    if Presented(cfg, out) { AcceptKeeps(before, AcceptIn(cfg, out)); }
  }

  lemma AcceptKeeps(r: Records, a: Accept)
    ensures Keeps(r, Accepted(r, a).0)
  {
  }

  lemma RunAround(max: int, s: ReceiverGate.System, first: ReceiverGate.Step, steps: seq<ReceiverGate.Step>,
      last: ReceiverGate.Step)
    ensures ReceiverGate.Run(max, s, [first] + steps + [last]) ==
      ReceiverGate.Next(max, ReceiverGate.Run(max, ReceiverGate.Next(max, s, first), steps), last)
  {
    assert ([first] + steps + [last])[1..] == steps + [last];
    RunThen(max, ReceiverGate.Next(max, s, first), steps, last);
  }

  lemma {:induction false} RunThen(max: int, s: ReceiverGate.System, steps: seq<ReceiverGate.Step>,
      last: ReceiverGate.Step)
    ensures ReceiverGate.Run(max, s, steps + [last]) == ReceiverGate.Next(max, ReceiverGate.Run(max, s, steps), last)
    decreases |steps|
  {
    if steps == [] {
      assert steps + [last] == [last];
    } else {
      RunThen(max, ReceiverGate.Next(max, s, steps[0]), steps[1..], last);
      assert (steps + [last])[1..] == steps[1..] + [last];
    }
  }

  // The inbox is asked exactly about requests that pass every check inside one bounded
  // context and whose signed body identifies its event.
  lemma PresentedIff(cfg: Config, out: Outside)
    ensures Presented(cfg, out) <==>
      && out.requestId.Returns? && Names.Token(out.requestId.value) && out.deadlinesSet
      && out.post && out.headersBounded && out.mediaOk && out.encodingOk
      && out.contentLength <= cfg.signing.maxBodyBytes
      && out.keys.Returns? && out.body.Returns? && out.clock.Returns? && out.check.Returns?
      && out.expired == Expired(false, false, false, false, false)
      && Receiving.VerifyEvent(cfg.hashes, out.body.value, SignedHeaders.GoSelected(out.headers), out.keys.value,
        out.clock.value, cfg.signing, cfg.parser).Ok?
  {
  }

  // What is put to the inbox is the document's event_id, the delivery and the digest of
  // the very bytes received, signed as delivered under a key of the endpoint.
  lemma AcknowledgedIsAuthentic(cfg: Config, out: Outside)
    requires Presented(cfg, out)
    ensures
      var intent, b, s := IntentIn(cfg, out), out.body.value, SignedHeaders.GoSelected(out.headers);
      && b.text.Some? && s.Some?
      && intent == Identity(cfg.scope, PointsOf(s.value.event), s.value.delivery, cfg.hashes.sha(b.raw))
      && Receiving.Identifies(cfg.parser, b.text.value, intent.eventId)
      && exists t ::
        Receiving.SignedUnder(cfg.hashes, b.raw, s.value, intent.deliveryId, out.keys.value, t, cfg.signing)
  {
    Receiving.EventIsAuthentic(cfg.hashes, out.body.value, SignedHeaders.GoSelected(out.headers), out.keys.value,
      out.clock.value, cfg.signing, cfg.parser);
  }

  // Two requests present one delivery: the same header value in each.
  ghost predicate SameDelivery(first: Outside, second: Outside) {
    var s, t := SignedHeaders.GoSelected(first.headers), SignedHeaders.GoSelected(second.headers);
    s.Some? && t.Some? && s.value.delivery == t.value.delivery
  }

  // The same event header and the same digest of the received bytes.
  ghost predicate SameContent(cfg: Config, first: Outside, second: Outside) {
    var s, t := SignedHeaders.GoSelected(first.headers), SignedHeaders.GoSelected(second.headers);
    && s.Some? && t.Some? && s.value.event == t.value.event
    && first.body.Returns? && second.body.Returns?
    && cfg.hashes.sha(first.body.value.raw) == cfg.hashes.sha(second.body.value.raw)
  }

  // After an acknowledged request, a later one of that delivery is acknowledged again if
  // it brings the same event and bytes, and conflicts if it brings anything else.
  lemma RedeliveryIsDecided(cfg: Config, r: Records, first: Outside, between: seq<Accept>, second: Outside)
    requires Acknowledged(cfg, r, first) && !first.act.Rogue?
    requires Presented(cfg, second) && second.act.Answers? && SameDelivery(first, second)
    ensures
      var later := AcceptedAll(RecordsAfter(cfg, r, first), between);
      && (Acknowledged(cfg, later, second) <==> SameContent(cfg, first, second))
      && (ReceiptIn(cfg, later, second) == Fails(ERR_CONFLICT) <==> !SameContent(cfg, first, second))
  {
    SameIntents(cfg, first, second);
    IntentDecides(cfg, r, first, between, second);
  }

  lemma IntentDecides(cfg: Config, r: Records, first: Outside, between: seq<Accept>, second: Outside)
    requires Acknowledged(cfg, r, first) && !first.act.Rogue? && Presented(cfg, second) && second.act.Answers?
    requires SlotOf(IntentIn(cfg, first)) == SlotOf(IntentIn(cfg, second))
    ensures
      var receipt := ReceiptIn(cfg, AcceptedAll(RecordsAfter(cfg, r, first), between), second);
      var same := IntentIn(cfg, first) == IntentIn(cfg, second);
      && (receipt.Returns? && Matching(receipt.value, IntentIn(cfg, second)) <==> same)
      && (receipt == Fails(ERR_CONFLICT) <==> !same)
  {
    LaterDecides(AcceptedAll(r, first.accepts), AcceptIn(cfg, first), between, second.accepts, AcceptIn(cfg, second));
  }

  // What an acknowledged acceptance filed stays filed, and decides every later one.
  lemma LaterDecides(r: Records, first: Accept, between: seq<Accept>, others: seq<Accept>, again: Accept)
    requires !first.act.Rogue? && SlotOf(first.intent) == SlotOf(again.intent) && again.act.Answers?
    requires Accepted(r, first).1.Returns? && Matching(Accepted(r, first).1.value, first.intent)
    ensures
      var p := Accepted(AcceptedAll(AcceptedAll(Accepted(r, first).0, between), others), again).1;
      && (p.Returns? && Matching(p.value, again.intent) <==> first.intent == again.intent)
      && (p == Fails(ERR_CONFLICT) <==> first.intent != again.intent)
  {
    AnswerMeans(r, first);
    RecordsAreFinal(Accepted(r, first).0, between, SlotOf(first.intent));
    RecordsAreFinal(AcceptedAll(Accepted(r, first).0, between), others, SlotOf(first.intent));
  }

  lemma SameIntents(cfg: Config, first: Outside, second: Outside)
    requires Presented(cfg, first) && Presented(cfg, second) && SameDelivery(first, second)
    ensures SlotOf(IntentIn(cfg, first)) == SlotOf(IntentIn(cfg, second))
    ensures IntentIn(cfg, first) == IntentIn(cfg, second) <==> SameContent(cfg, first, second)
  {
    AcknowledgedIsAuthentic(cfg, first);
    AcknowledgedIsAuthentic(cfg, second);
    PointsInjective(SignedHeaders.GoSelected(first.headers).value.event,
      SignedHeaders.GoSelected(second.headers).value.event);
  }

  // The same of two requests served one after the other, with anybody else's between.
  method Redelivered(cfg: Config, inbox: Inbox, first: Outside, between: seq<Accept>, second: Outside)
    returns (one: Report, two: Report)
    requires first.body.Returns? ==> Receiving.Faithful(first.body.value)
    requires second.body.Returns? ==> Receiving.Faithful(second.body.value)
    modifies inbox
    ensures one.status == 204 && !first.act.Rogue? && Presented(cfg, second) && second.act.Answers? ==>
      SameDelivery(first, second) ==>
        two.status == if SameContent(cfg, first, second) then 204 else 409
  {
    ghost var r := inbox.records;
    var panicked: bool;
    one, panicked := Handle(cfg, inbox, first);
    inbox.Await(between);
    two, panicked := Handle(cfg, inbox, second);
    if one.status == 204 && !first.act.Rogue? && Presented(cfg, second) && second.act.Answers?
      && SameDelivery(first, second)
    {
      RedeliveryIsDecided(cfg, r, first, between, second);
    }
  }

  // One delivery names one event and one body for good: a redelivery gets the first
  // reference, anything else under the same delivery conflicts, whatever came between.
  lemma DeliveryIsAcceptedOnce(r: Records, first: Accept, more: seq<Accept>, again: Accept)
    requires SlotOf(first.intent) in Accepted(r, first).0
      && Accepted(r, first).0[SlotOf(first.intent)].identity == first.intent
    requires SlotOf(again.intent) == SlotOf(first.intent) && again.act.Answers?
    ensures
      var after := Accepted(r, first).0;
      var later := AcceptedAll(after, more);
      Accepted(later, again) ==
        (later, if again.intent == first.intent
          then Returns(Receipt(first.intent, after[SlotOf(first.intent)].ref, "duplicate"))
                else Fails(ERR_CONFLICT))
  {
    RecordsAreFinal(Accepted(r, first).0, more, SlotOf(first.intent));
  }
}
