// Send and retryHint of backend/services/webhook-dispatcher/egress/client.go. Every
// external answer (permit, DNS, dial, TLS, the HTTP transport) is in an Outside value.

module Egress {
  import opened Common
  import opened Names
  import opened Decimal
  import opened Planner

  // ---- retryHint ----

  // http.ParseTime and Format(http.TimeFormat).
  datatype Dates = Dates(parse: ParseDate, format: int -> string)

  // What is used of them: a formatted instant parses back to itself, and its text is
  // a bounded, trimmed, non-numeric one.
  ghost predicate Sound(d: Dates) {
    forall s :: d.parse(s).Some? ==>
      var t := d.format(d.parse(s).value);
      d.parse(t) == d.parse(s) && 0 < |t| <= 128 && !AllDigits(t) && Trimmed(t)
  }

  // unicode.IsSpace.
  predicate GoSpace(c: char) {
    var p := c as int;
    || 9 <= p <= 13 || p in {0x20, 0x85, 0xA0, 0x1680, 0x2028, 0x2029, 0x202F, 0x205F, 0x3000}
    || 0x2000 <= p <= 0x200A
  }

  predicate Trimmed(s: string) { s != "" ==> !GoSpace(s[0]) && !GoSpace(s[|s| - 1]) }

  function TrimSpace(s: string): (t: string)
    ensures |t| <= |s| && Trimmed(t)
    ensures Trimmed(s) ==> t == s
  {
    if s == "" then s
    else if GoSpace(s[0]) then TrimSpace(s[1..])
    else if GoSpace(s[|s| - 1]) then TrimSpace(s[..|s| - 1])
    else s
  }

  function RetryHint(d: Dates, values: seq<string>): string {
    if |values| != 1 || |values[0]| > 128 then ""
    else
      var raw := TrimSpace(values[0]);
      if raw == "" then ""
      else if AllDigits(raw) then
        if |raw| > 12 then "" else
          ValueBound(raw);
          Format(Value(raw))
      else
        var t := d.parse(raw);
        if t.None? then "" else d.format(t.value)
  }

  method ScanRetryHint(d: Dates, values: seq<string>) returns (hint: string)
    ensures hint == RetryHint(d, values)
  {
    if |values| != 1 || |values[0]| > 128 {
      return "";
    }
    var raw := TrimSpace(values[0]);
    if raw == "" {
      return "";
    }
    var digits := true;
    for i := 0 to |raw|
      invariant digits <==> forall k :: 0 <= k < i ==> Digit(raw[k])
    {
      if !Digit(raw[i]) { digits := false; }
    }
    if digits {
      if |raw| > 12 {
        return "";
      }
      ValueBound(raw);
      return Format(Value(raw));
    }
    var t := d.parse(raw);
    if t.None? {
      return "";
    }
    return d.format(t.value);
  }

  // Trimming takes away the white space at both ends and nothing else.
  lemma {:induction false} TrimSpaceKeeps(s: string) returns (i: nat, j: nat)
    ensures i <= j <= |s| && TrimSpace(s) == s[i..j]
    ensures forall k :: 0 <= k < i || j <= k < |s| ==> GoSpace(s[k])
  {
    if s == "" {
      i, j := 0, 0;
    } else if GoSpace(s[0]) {
      i, j := TrimSpaceKeeps(s[1..]);
      assert forall k :: 1 <= k < |s| ==> s[1..][k - 1] == s[k];
      i, j := i + 1, j + 1;
    } else if GoSpace(s[|s| - 1]) {
      i, j := TrimSpaceKeeps(s[..|s| - 1]);
      assert forall k :: 0 <= k < |s| - 1 ==> s[..|s| - 1][k] == s[k];
    } else {
      i, j := 0, |s|;
    }
  }

  // There is a hint exactly for one short value that is up to twelve digits or a date.
  lemma HintIffReadable(d: Dates, values: seq<string>)
    requires Sound(d)
    ensures RetryHint(d, values) != "" <==>
      && |values| == 1 && |values[0]| <= 128
      && var raw := TrimSpace(values[0]);
         if AllDigits(raw) then |raw| <= 12 else raw != "" && d.parse(raw).Some?
  {
    if |values| == 1 && AllDigits(TrimSpace(values[0])) { ValueBound(TrimSpace(values[0])); }
  }

  lemma FormatIsHint(d: Dates, n: nat)
    requires n < Power10(12)
    ensures AllDigits(Format(n)) && |Format(n)| <= 12 && RetryHint(d, [Format(n)]) == Format(n)
  {
    var s := Format(n);
    assert AllDigits(s) && Value(s) == n by { FormatIsCanonical(n); }
    FormatLength(n, 12);
    DigitsAreRead(d, s);
  }

  lemma DigitsAreTrimmed(s: string)
    requires AllDigits(s)
    ensures Trimmed(s)
  {
    assert Digit(s[0]) && Digit(s[|s| - 1]);
  }

  lemma DigitsAreRead(d: Dates, s: string)
    requires AllDigits(s) && |s| <= 12
    ensures Value(s) >= 0 && RetryHint(d, [s]) == Format(Value(s))
  {
    DigitsAreTrimmed(s);
    ValueBound(s);
    assert [s][0] == s;
  }

  // A hint is canonical, and the planner reads in it what the endpoint wrote.
  lemma HintIsCanonical(d: Dates, values: seq<string>)
    requires Sound(d)
    ensures RetryHint(d, [RetryHint(d, values)]) == RetryHint(d, values)
    ensures |RetryHint(d, values)| <= 128
  {
    var hint := RetryHint(d, values);
    if hint != "" && AllDigits(TrimSpace(values[0])) {
      ValueBound(TrimSpace(values[0]));
      PowerMonotone(|TrimSpace(values[0])|, 12);
      FormatIsHint(d, Value(TrimSpace(values[0])));
    }
  }

  lemma HintKeepsMeaning(d: Dates, values: seq<string>, observed: int, cutoff: int)
    requires Sound(d) && observed < cutoff <= observed + WEEK as int
    requires RetryHint(d, values) != ""
    ensures
      var hint := RetryAfter(d.parse, RetryHint(d, values), observed, cutoff);
      && hint.Ok?
      && hint == RetryAfter(d.parse, TrimSpace(values[0]), observed, cutoff)
  {
    var raw := TrimSpace(values[0]);
    HintKeepsText(d, values);
    SameMeaning(d.parse, RetryHint(d, values), raw, observed, cutoff);
  }

  // Two texts the planner reads alike: the same number, or the same date.
  predicate ReadAlike(parse: ParseDate, a: string, b: string) {
    if AllDigits(b) then AllDigits(a) && |a| <= 12 && |b| <= 12 && Value(a) == Value(b)
    else !AllDigits(a) && parse(a).Some? && parse(a) == parse(b)
  }

  lemma HintKeepsText(d: Dates, values: seq<string>)
    requires Sound(d) && RetryHint(d, values) != ""
    ensures ReadAlike(d.parse, RetryHint(d, values), TrimSpace(values[0]))
  {
    var raw := TrimSpace(values[0]);
    if AllDigits(raw) {
      ValueBound(raw);
      PowerMonotone(|raw|, 12);
      FormatIsCanonical(Value(raw));
      FormatLength(Value(raw), 12);
    }
  }

  lemma SameMeaning(parse: ParseDate, a: string, b: string, observed: int, cutoff: int)
    requires observed < cutoff <= observed + WEEK as int && ReadAlike(parse, a, b)
    ensures RetryAfter(parse, a, observed, cutoff).Ok?
    ensures RetryAfter(parse, a, observed, cutoff) == RetryAfter(parse, b, observed, cutoff)
  {
  }

  // ---- Send ----

  datatype Permit = Granted | Cancelled | Denied

  // One call of the transport's dial hook.
  datatype DialTry = DialTry(live: bool, sameTarget: bool)

  datatype Transport =
    | Failed(dials: seq<DialTry>, cancelled: bool)
    | Answered(dials: seq<DialTry>, statusCode: int, retryAfter: seq<string>, encodingOk: bool, bodyTooLarge: bool,
      bodyBroken: bool)

  datatype Outside = Outside(
    cancelled: bool, slotFree: bool, scopeValid: bool, bodyFits: bool,
    destination: Option<string>, headersValid: bool,
    permits: (Permit, Permit, Permit),
    lookupOk: bool, addressesPublic: bool, dialOk: bool, peerMatches: bool, tlsOk: bool, requestOk: bool,
    transport: Transport)

  // The faults Destination can return.
  predicate DestinationFaults(o: Outside) {
    o.destination.Some? ==> o.destination.value in {"DESTINATION_INVALID", "DESTINATION_BLOCKED", "PORT_BLOCKED"}
  }

  datatype SendResult = SendResult(outcome: string, failureCode: string, statusCode: int, retryAfter: string)

  function BlockedBy(code: string): SendResult { SendResult("blocked", code, 0, "") }

  // Everything Send can report.
  ghost predicate Reportable(d: Dates, r: SendResult) {
    match r.outcome
    case "blocked" => r.statusCode == 0 && r.retryAfter == "" && r.failureCode in PRE_RESPONSE_FAULTS
    case "unknown" => r.statusCode == 0 && r.retryAfter == "" && r.failureCode in {"CANCELLED", "HTTP_UNAVAILABLE"}
    case "accepted_by_endpoint" => 200 <= r.statusCode <= 299 && r.failureCode in RESPONSE_FAULTS && Hinted(d, r)
    case "not_accepted" => !(200 <= r.statusCode <= 299) && r.failureCode in RESPONSE_FAULTS && Hinted(d, r)
    case _ => false
  }

  ghost predicate Hinted(d: Dates, r: SendResult) {
    exists values :: r.retryAfter == RetryHint(d, values)
  }

  function PermitFault(p: Permit): string
    requires !p.Granted?
  {
    if p.Cancelled? then "CANCELLED" else "EGRESS_DENIED"
  }

  // The first gate that refuses, in the order of the gates.
  function Refusal(o: Outside): Option<string> {
    if o.cancelled then Some("CANCELLED")
    else if !o.slotFree then Some("EGRESS_BUSY")
    else if !o.scopeValid then Some("SCOPE_INVALID")
    else if !o.bodyFits then Some("REQUEST_TOO_LARGE")
    else if o.destination.Some? then o.destination
    else if !o.headersValid then Some("HEADERS_INVALID")
    else if !o.permits.0.Granted? then Some(PermitFault(o.permits.0))
    else if !o.lookupOk then Some("DNS_UNAVAILABLE")
    else if !o.addressesPublic then Some("ADDRESS_BLOCKED")
    else if !o.permits.1.Granted? then Some(PermitFault(o.permits.1))
    else if !o.dialOk then Some("CONNECT_FAILED")
    else if !o.peerMatches then Some("PEER_MISMATCH")
    else if !o.tlsOk then Some("TLS_FAILED")
    else if !o.permits.2.Granted? then Some(PermitFault(o.permits.2))
    else if !o.requestOk then Some("DESTINATION_INVALID")
    else None
  }

  // The gates in their order: whether one lets the request through, and its code if not.
  ghost function Gate(o: Outside, i: nat): (bool, string) {
    match i
    case 0 => (!o.cancelled, "CANCELLED")
    case 1 => (o.slotFree, "EGRESS_BUSY")
    case 2 => (o.scopeValid, "SCOPE_INVALID")
    case 3 => (o.bodyFits, "REQUEST_TOO_LARGE")
    case 4 => (o.destination.None?, if o.destination.Some? then o.destination.value else "")
    case 5 => (o.headersValid, "HEADERS_INVALID")
    case 6 => PermitGate(o.permits.0)
    case 7 => (o.lookupOk, "DNS_UNAVAILABLE")
    case 8 => (o.addressesPublic, "ADDRESS_BLOCKED")
    case 9 => PermitGate(o.permits.1)
    case 10 => (o.dialOk, "CONNECT_FAILED")
    case 11 => (o.peerMatches, "PEER_MISMATCH")
    case 12 => (o.tlsOk, "TLS_FAILED")
    case 13 => PermitGate(o.permits.2)
    case 14 => (o.requestOk, "DESTINATION_INVALID")
    case _ => (true, "")
  }

  ghost function PermitGate(p: Permit): (bool, string) {
    (p == Granted, if p == Cancelled then "CANCELLED" else "EGRESS_DENIED")
  }

  // A refusal is the first closed gate's, and a request passes when every gate is open.
  lemma RefusalIsTheFirst(o: Outside, i: nat)
    requires i < 15 && forall j :: 0 <= j < i ==> Gate(o, j).0
    ensures !Gate(o, i).0 ==> Refusal(o) == Some(Gate(o, i).1)
    ensures i == 14 && Gate(o, i).0 ==> Refusal(o) == None
  {
    ghost var all := [Gate(o, 0).0, Gate(o, 1).0, Gate(o, 2).0, Gate(o, 3).0, Gate(o, 4).0, Gate(o, 5).0, Gate(o, 6).0,
      Gate(o, 7).0, Gate(o, 8).0, Gate(o, 9).0, Gate(o, 10).0, Gate(o, 11).0, Gate(o, 12).0, Gate(o, 13).0];
  }

  predicate Dialled(dials: seq<DialTry>) {
    exists i :: 0 <= i < |dials| && dials[i].live && dials[i].sameTarget
  }

  // The dial hook gives away the prepared connection at most once.
  method RoundTrip(dials: seq<DialTry>) returns (handOffs: nat)
    ensures handOffs == if exists i :: 0 <= i < |dials| && dials[i].live && dials[i].sameTarget then 1 else 0
  {
    var handedOff := false;
    handOffs := 0;
    for i := 0 to |dials|
      invariant handOffs == if handedOff then 1 else 0
      invariant handedOff <==> exists k :: 0 <= k < i && dials[k].live && dials[k].sameTarget
    {
      if dials[i].live && dials[i].sameTarget {
        if !handedOff { handOffs := handOffs + 1; }
        handedOff := true;
      }
    }
  }

  // At most one POST. Blocked means no connection was given to HTTP; once one was and
  // no answer came, the outcome is unknown; an answer is reported as it was observed.
  method Send(d: Dates, env: Outside) returns (r: SendResult, handOffs: nat)
    requires DestinationFaults(env)
    ensures Reportable(d, r)
    ensures handOffs == if Refusal(env).None? && Dialled(env.transport.dials) then 1 else 0
    ensures Refusal(env).Some? ==> r == BlockedBy(Refusal(env).value)
    ensures Refusal(env).None? && env.transport.Failed? ==>
      && r.outcome == (if handOffs == 1 then "unknown" else "blocked")
      && r.failureCode == (if env.transport.cancelled then "CANCELLED" else "HTTP_UNAVAILABLE")
    ensures r.outcome == "blocked" ==> handOffs == 0
    ensures r.outcome == "unknown" ==> handOffs == 1
    ensures r.outcome in {"accepted_by_endpoint", "not_accepted"} <==> Refusal(env).None? && env.transport.Answered?
    ensures Refusal(env).None? && env.transport.Answered? ==>
      && r.statusCode == env.transport.statusCode && r.retryAfter == RetryHint(d, env.transport.retryAfter)
      && r.outcome == (if 200 <= r.statusCode <= 299 then "accepted_by_endpoint" else "not_accepted")
      && (r.failureCode == "" <==> env.transport.encodingOk && !env.transport.bodyTooLarge && !env.transport.bodyBroken)
      && (r.failureCode == "RESPONSE_ENCODING" <==> !env.transport.encodingOk)
      && (r.failureCode == "RESPONSE_TOO_LARGE" <==> env.transport.encodingOk && env.transport.bodyTooLarge)
  {
    handOffs := 0;
    if env.cancelled {
      return BlockedBy("CANCELLED"), 0;
    }
    if !env.slotFree {
      return BlockedBy("EGRESS_BUSY"), 0;
    }
    if !env.scopeValid {
      return BlockedBy("SCOPE_INVALID"), 0;
    }
    if !env.bodyFits {
      return BlockedBy("REQUEST_TOO_LARGE"), 0;
    }
    if env.destination.Some? {
      return BlockedBy(env.destination.value), 0;
    }
    if !env.headersValid {
      return BlockedBy("HEADERS_INVALID"), 0;
    }
    if !env.permits.0.Granted? {
      return BlockedBy(PermitFault(env.permits.0)), 0;
    }
    if !env.lookupOk {
      return BlockedBy("DNS_UNAVAILABLE"), 0;
    }
    if !env.addressesPublic {
      return BlockedBy("ADDRESS_BLOCKED"), 0;
    }
    if !env.permits.1.Granted? {
      return BlockedBy(PermitFault(env.permits.1)), 0;
    }
    if !env.dialOk {
      return BlockedBy("CONNECT_FAILED"), 0;
    }
    if !env.peerMatches {
      return BlockedBy("PEER_MISMATCH"), 0;
    }
    if !env.tlsOk {
      return BlockedBy("TLS_FAILED"), 0;
    }
    if !env.permits.2.Granted? {
      return BlockedBy(PermitFault(env.permits.2)), 0;
    }
    if !env.requestOk {
      return BlockedBy("DESTINATION_INVALID"), 0;
    }
    handOffs := RoundTrip(env.transport.dials);
    match env.transport
    case Failed(_, cancelled) =>
      r := BlockedBy(if cancelled then "CANCELLED" else "HTTP_UNAVAILABLE");
      if handOffs > 0 { r := r.(outcome := "unknown"); }
    case Answered(_, statusCode, retryAfter, encodingOk, bodyTooLarge, bodyBroken) =>
      var outcome := if 200 <= statusCode < 300 then "accepted_by_endpoint" else "not_accepted";
      var hint := ScanRetryHint(d, retryAfter);
      var code := if !encodingOk then "RESPONSE_ENCODING" else if bodyTooLarge then "RESPONSE_TOO_LARGE"
        else if bodyBroken then "RESPONSE_INCOMPLETE" else "";
      r := SendResult(outcome, code, statusCode, hint);
  }

  // ---- Send and Plan fit ----

  // The observation recorded for an attempt.
  function ObservationOf(r: SendResult, a: Attempt, observedAt: int): Observation {
    Observation(a.key.attemptId, r.outcome, r.failureCode, r.retryAfter, r.statusCode, observedAt)
  }

  // Every result without a response or with a status in 200..599 is planned, never
  // refused as an impossible combination.
  lemma SendResultsArePlanned(p: Policy, d: Dates, a: Attempt, r: SendResult, observedAt: int)
    requires ValidPolicy(p) && Sound(d) && Reportable(d, r)
    requires r.statusCode == 0 || 200 <= r.statusCode <= 599
    requires r.outcome == "not_accepted" ==> r.statusCode != 0
    requires ValidInput(p, a, ObservationOf(BlockedBy("EGRESS_BUSY"), a, observedAt))
    ensures Plan(p, d.parse, a, ObservationOf(r, a, observedAt)).Ok?
  {
    var o := ObservationOf(r, a, observedAt);
    FaultCodesAreShort(r.failureCode);
    if r.outcome in {"accepted_by_endpoint", "not_accepted"} {
      var values :| r.retryAfter == RetryHint(d, values);
      HintIsCanonical(d, values);
      ReportsAreConsistent(d, r, a, observedAt);
      if a.sequence < p.maxAttempts && observedAt < Cutoff(p, a) && o.retryAfter != "" {
        HintKeepsMeaning(d, values, observedAt, Cutoff(p, a));
      }
      HintsArePlanned(p, d.parse, a, o);
    } else {
      ReportsAreConsistent(d, r, a, observedAt);
      HintsArePlanned(p, d.parse, a, o);
    }
  }

  lemma ReportsAreConsistent(d: Dates, r: SendResult, a: Attempt, observedAt: int)
    requires Reportable(d, r) && (r.statusCode == 0 || 200 <= r.statusCode <= 599)
    requires r.outcome == "not_accepted" ==> r.statusCode != 0
    ensures Consistent(ObservationOf(r, a, observedAt))
  {
  }

  // Only an unreadable hint can stop a valid, consistent observation.
  lemma HintsArePlanned(p: Policy, parse: ParseDate, a: Attempt, o: Observation)
    requires ValidPolicy(p) && ValidInput(p, a, o) && Consistent(o)
    requires o.outcome == "not_accepted" && o.retryAfter != "" ==>
      a.sequence < p.maxAttempts && o.observedAt < Cutoff(p, a) ==>
        RetryAfter(parse, o.retryAfter, o.observedAt, Cutoff(p, a)).Ok?
    ensures Plan(p, parse, a, o).Ok?
  {
  }

  lemma FaultCodesAreShort(code: string)
    requires code in PRE_RESPONSE_FAULTS + RESPONSE_FAULTS
    ensures |code| <= 64
  {
  }

  // No automatic resend after a POST that may have reached the endpoint unanswered.
  lemma NoResendAfterUnobservedPost(p: Policy, d: Dates, a: Attempt, r: SendResult, observedAt: int)
    requires ValidPolicy(p) && Reportable(d, r)
    ensures Waits(p, d.parse, a, ObservationOf(r, a, observedAt)) ==>
      r.outcome == "blocked" || (r.outcome == "not_accepted" && RetryableStatus(r.statusCode))
  {
    RetryIsSafe(p, d.parse, a, ObservationOf(r, a, observedAt));
  }

  // From the environment to the schedule: a resend means nothing was handed to HTTP,
  // or the endpoint answered with a retryable status.
  method SendThenPlan(p: Policy, d: Dates, env: Outside, a: Attempt, observedAt: int)
    returns (plan: Result<Decision>, handOffs: nat)
    requires ValidPolicy(p) && Sound(d) && DestinationFaults(env)
    ensures handOffs <= 1
    ensures plan.Ok? && plan.value.state == RETRY_WAIT ==>
      handOffs == 0 || (env.transport.Answered? && RetryableStatus(env.transport.statusCode))
    ensures ValidInput(p, a, ObservationOf(BlockedBy("EGRESS_BUSY"), a, observedAt)) ==>
      (env.transport.Answered? ==> 200 <= env.transport.statusCode <= 599) ==> plan.Ok?
  {
    var r: SendResult;
    r, handOffs := Send(d, env);
    plan := Plan(p, d.parse, a, ObservationOf(r, a, observedAt));
    if plan.Ok? && plan.value.state == RETRY_WAIT { NoResendAfterUnobservedPost(p, d, a, r, observedAt); }
    if ValidInput(p, a, ObservationOf(BlockedBy("EGRESS_BUSY"), a, observedAt))
      && (env.transport.Answered? ==> 200 <= env.transport.statusCode <= 599)
    {
      SendResultsArePlanned(p, d, a, r, observedAt);
    }
  }
}
