// The attempt-result planner of backend/services/webhook-dispatcher/lifecycle/planner.go.
// Instants are nanoseconds since 1970 (a zero time is None where one can occur);
// durations are 64-bit, so every intermediate product is checked to fit.

module Planner {
  import opened Common
  import opened Names
  import opened Decimal

  newtype int64 = x: int | -0x8000_0000_0000_0000 <= x < 0x8000_0000_0000_0000

  const SECOND: int64 := 1_000_000_000
  const MILLISECOND: int64 := 1_000_000
  const DAY: int64 := 86_400 * SECOND
  const WEEK: int64 := 7 * DAY
  // The first instant of the year 10000.
  const YEAR_10000: int := 253402300800 * 1_000_000_000

  datatype Key = Key(
    tenantId: string, workspaceId: string, environmentId: string, endpointId: string,
    eventId: string, deliveryId: string, attemptId: string, epoch: nat)

  datatype Attempt = Attempt(
    key: Key, version: nat, sequence: int,
    createdAt: int, startedAt: int, deadline: int,
    policyVersion: string, jitterSample: nat)

  datatype Observation = Observation(
    attemptId: string, outcome: string, failureCode: string, retryAfter: string,
    statusCode: int, observedAt: int)

  datatype Policy = Policy(
    version: string, maxAttempts: int, maxAge: int64, retryDelays: seq<int64>,
    maxJitterPermille: nat, retryStatusCodes: seq<int>, beforeSendCodes: seq<string>)

  datatype Decision = Decision(state: string, reason: string, nextAttemptAt: Option<int>, statusCode: int)

  const ACCEPTED := "ACCEPTED_BY_ENDPOINT"
  const RETRY_WAIT := "RETRY_WAIT"
  const FAILED := "FAILED_DELIVERY"
  const PAUSED := "PAUSED"
  const UNKNOWN := "UNKNOWN"
  const BLOCKED := "BLOCKED"

  const ERR_INPUT := "WEBHOOK_LIFECYCLE_INPUT"

  // ---- The profile ----

  predicate RetryableStatus(code: int) { code in {408, 425, 429} || 500 <= code <= 599 }

  predicate RetryableFault(code: string) { code in {"EGRESS_BUSY", "DNS_UNAVAILABLE", "CONNECT_FAILED"} }

  ghost predicate ValidPolicy(p: Policy) {
    && Token(p.version) && 1 <= p.maxAttempts <= 64 && SECOND <= p.maxAge <= WEEK
    && |p.retryDelays| == p.maxAttempts - 1 && p.maxJitterPermille <= 1000
    && |p.retryStatusCodes| <= 104 && |p.beforeSendCodes| <= 3
    && (forall i :: 0 <= i < |p.retryDelays| ==> MILLISECOND <= p.retryDelays[i] <= DAY)
    && (forall i :: 0 <= i < |p.retryStatusCodes| ==>
      p.retryStatusCodes[i] in {408, 425, 429} || 500 <= p.retryStatusCodes[i] <= 599)
    && (forall i, j :: 0 <= i < j < |p.retryStatusCodes| ==> p.retryStatusCodes[i] != p.retryStatusCodes[j])
    && (forall i :: 0 <= i < |p.beforeSendCodes| ==>
      p.beforeSendCodes[i] in {"EGRESS_BUSY", "DNS_UNAVAILABLE", "CONNECT_FAILED"})
    && (forall i, j :: 0 <= i < j < |p.beforeSendCodes| ==> p.beforeSendCodes[i] != p.beforeSendCodes[j])
  }

  // New: accepts exactly the valid profiles.
  method New(p: Policy) returns (ok: bool)
    ensures ok <==> ValidPolicy(p)
  {
    if !Token(p.version) || p.maxAttempts < 1 || p.maxAttempts > 64 || p.maxAge < SECOND || p.maxAge > WEEK ||
      |p.retryDelays| != p.maxAttempts - 1 || p.maxJitterPermille > 1000 ||
      |p.retryStatusCodes| > 104 || |p.beforeSendCodes| > 3
    {
      return false;
    }
    for i := 0 to |p.retryDelays|
      invariant forall k :: 0 <= k < i ==> MILLISECOND <= p.retryDelays[k] <= DAY
    {
      if p.retryDelays[i] < MILLISECOND || p.retryDelays[i] > DAY {
        return false;
      }
    }
    var seen: set<int> := {};
    for i := 0 to |p.retryStatusCodes|
      invariant seen == set k | 0 <= k < i :: p.retryStatusCodes[k]
      invariant forall k :: 0 <= k < i ==> RetryableStatus(p.retryStatusCodes[k])
      invariant forall j, k :: 0 <= j < k < i ==> p.retryStatusCodes[j] != p.retryStatusCodes[k]
    {
      var code := p.retryStatusCodes[i];
      if code in seen || !RetryableStatus(code) {
        return false;
      }
      seen := seen + {code};
    }
    var codes: set<string> := {};
    for i := 0 to |p.beforeSendCodes|
      invariant codes == set k | 0 <= k < i :: p.beforeSendCodes[k]
      invariant forall k :: 0 <= k < i ==> RetryableFault(p.beforeSendCodes[k])
      invariant forall j, k :: 0 <= j < k < i ==> p.beforeSendCodes[j] != p.beforeSendCodes[k]
    {
      var code := p.beforeSendCodes[i];
      if code in codes || !RetryableFault(code) {
        return false;
      }
      codes := codes + {code};
    }
    return true;
  }

  // ---- Inputs ----

  predicate ValidKey(k: Key) {
    && Uuid(k.tenantId) && Uuid(k.workspaceId) && Uuid(k.environmentId) && Uuid(k.endpointId) && Uuid(k.attemptId)
    && UndottedToken(k.eventId) && UndottedToken(k.deliveryId) && k.epoch > 0
  }

  predicate ValidTime(t: int) { 0 <= t < YEAR_10000 }

  const MAX_UINT64: nat := 0xFFFF_FFFF_FFFF_FFFF

  predicate ValidInput(p: Policy, a: Attempt, o: Observation) {
    && ValidKey(a.key) && 0 < a.version < MAX_UINT64 && 1 <= a.sequence <= 64
    && a.policyVersion == p.version && a.jitterSample <= 1_000_000
    && ValidTime(a.createdAt) && ValidTime(a.startedAt) && ValidTime(a.deadline) && ValidTime(o.observedAt)
    && a.createdAt <= a.startedAt < a.deadline && a.createdAt < a.deadline && a.startedAt <= o.observedAt
    && o.attemptId == a.key.attemptId && |o.retryAfter| <= 128 && |o.failureCode| <= 64
  }

  const RESPONSE_FAULTS: set<string> := {"", "RESPONSE_ENCODING", "RESPONSE_TOO_LARGE", "RESPONSE_INCOMPLETE"}

  const PRE_RESPONSE_FAULTS: set<string> := {
    "EGRESS_CONFIGURATION", "CANCELLED", "EGRESS_BUSY", "SCOPE_INVALID", "REQUEST_TOO_LARGE",
    "DESTINATION_INVALID", "DESTINATION_BLOCKED", "PORT_BLOCKED", "HEADERS_INVALID", "EGRESS_DENIED",
    "DNS_UNAVAILABLE", "ADDRESS_BLOCKED", "CONNECT_FAILED", "PEER_MISMATCH", "TLS_FAILED",
    "HTTP_UNAVAILABLE", "CONNECTION_NOT_REPLAYABLE"}

  // The outcome, its fault code and its status code fit together.
  predicate Consistent(o: Observation) {
    && o.failureCode in RESPONSE_FAULTS + PRE_RESPONSE_FAULTS
    && match o.outcome
       case "accepted_by_endpoint" => o.failureCode in RESPONSE_FAULTS && 200 <= o.statusCode <= 299
       case "not_accepted" => o.failureCode in RESPONSE_FAULTS && 300 <= o.statusCode <= 599
       case "unknown" => o.failureCode in {"", "HTTP_UNAVAILABLE", "CANCELLED"} && o.statusCode == 0
       case "blocked" => o.failureCode !in RESPONSE_FAULTS && o.statusCode == 0
       case _ => false
  }

  // ---- Retry-After ----

  // http.ParseTime, as a function of its text.
  type ParseDate = string -> Option<int>

  // The hint as an instant, and whether it is at or past the cutoff.
  function RetryAfter(parse: ParseDate, raw: string, observed: int, cutoff: int): Result<(int, bool)>
    requires observed < cutoff <= observed + WEEK as int
  {
    if AllDigits(raw) then
      if |raw| > 12 then Err(ERR_INPUT)
      else
        var seconds := Value(raw);
        if seconds > (cutoff - observed) / SECOND as int then Ok((0, true))
        else
          ValueBound(raw);
          TwelveDigits();
          var t := observed + ((seconds as int64) * SECOND) as int;
          Ok((t, t >= cutoff))
    else
      var t := parse(raw);
      if t.None? then Err(ERR_INPUT) else Ok((t.value, t.value >= cutoff))
  }

  method ScanRetryAfter(parse: ParseDate, raw: string, observed: int, cutoff: int) returns (r: Result<(int, bool)>)
    requires observed < cutoff <= observed + WEEK as int
    ensures r == RetryAfter(parse, raw, observed, cutoff)
  {
    var digits := raw != "";
    for i := 0 to |raw|
      invariant digits <==> raw != "" && forall k :: 0 <= k < i ==> Digit(raw[k])
    {
      if !Digit(raw[i]) { digits := false; }
    }
    if digits {
      if |raw| > 12 {
        return Err(ERR_INPUT);
      }
      ValueBound(raw);
      TwelveDigits();
      var seconds := Value(raw);
      if seconds > (cutoff - observed) / SECOND as int {
        return Ok((0, true));
      }
      var t := observed + ((seconds as int64) * SECOND) as int;
      return Ok((t, t >= cutoff));
    }
    var t := parse(raw);
    if t.None? {
      return Err(ERR_INPUT);
    }
    return Ok((t.value, t.value >= cutoff));
  }

  // For delay-seconds the comparison is the unbounded one: beyond exactly when
  // observed plus that many seconds is at or past the cutoff.
  lemma DelaySecondsAreExact(parse: ParseDate, raw: string, observed: int, cutoff: int)
    requires observed < cutoff <= observed + WEEK as int
    requires AllDigits(raw) && |raw| <= 12
    ensures
      var r := RetryAfter(parse, raw, observed, cutoff);
      var due := observed + Value(raw) * SECOND as int;
      r.Ok? && (r.value.1 <==> due >= cutoff) && (!r.value.1 ==> r.value.0 == due)
  {
    ValueBound(raw);
    var n, span := Value(raw), cutoff - observed;
    if n > span / SECOND as int {
      assert n >= span / 1_000_000_000 + 1;
    }
  }

  // ---- Jitter ----

  const MILLION: int64 := 1_000_000

  function Span(delay: int64, permille: nat): (s: int64)
    requires 0 <= delay <= DAY && permille <= 1000
    ensures 0 <= s <= delay
    ensures s as int == delay as int * permille / 1000
  {
    SpanBound(delay as int, permille);
    delay * (permille as int64) / 1000
  }

  // Divide before multiplying, so nothing overflows.
  function Jitter(span: int64, sample: nat): (j: int64)
    requires 0 <= span <= DAY && sample <= 1_000_000
    ensures 0 <= j <= span
    ensures j as int == span as int * sample / 1_000_000
  {
    SplitProduct(span as int, sample);
    (span / MILLION) * (sample as int64) + (span % MILLION) * (sample as int64) / MILLION
  }

  lemma SpanBound(delay: int, permille: int)
    requires 0 <= delay <= DAY as int && 0 <= permille <= 1000
    ensures 0 <= delay * permille <= delay * 1000
    ensures 0 <= delay * permille / 1000 <= delay
  {
    Monotone(delay, permille, 1000);
  }

  lemma Monotone(a: int, b: int, c: int)
    requires 0 <= a && 0 <= b <= c
    ensures 0 <= a * b <= a * c
  {
  }

  // The split expression is the exact floor of span times sample over a million.
  lemma SplitProduct(span: int, sample: int)
    requires 0 <= span <= DAY as int && 0 <= sample <= 1_000_000
    ensures
      var q, r := span / 1_000_000, span % 1_000_000;
      && 0 <= q * sample <= span && 0 <= r * sample <= 1_000_000 * 1_000_000
      && q * sample + r * sample / 1_000_000 == span * sample / 1_000_000 <= span
  {
    var q, r := span / 1_000_000, span % 1_000_000;
    assert span == q * 1_000_000 + r;
    Monotone(q, sample, 1_000_000);
    Monotone(r, sample, 1_000_000);
    Monotone(span, sample, 1_000_000);
    assert span * sample == (q * sample) * 1_000_000 + r * sample by {
      assert span * sample == (q * 1_000_000) * sample + r * sample;
      assert (q * 1_000_000) * sample == (q * sample) * 1_000_000;
    }
  }

  // ---- The decision ----

  function Cutoff(p: Policy, a: Attempt): int {
    var limit := a.createdAt + p.maxAge as int;
    if a.deadline < limit then a.deadline else limit
  }

  function Delay(p: Policy, a: Attempt): (d: int64)
    requires ValidPolicy(p) && a.jitterSample <= 1_000_000 && 1 <= a.sequence < p.maxAttempts
    ensures p.retryDelays[a.sequence - 1] <= d <= 2 * p.retryDelays[a.sequence - 1]
  {
    var delay := p.retryDelays[a.sequence - 1];
    delay + Jitter(Span(delay, p.maxJitterPermille), a.jitterSample)
  }

  // What no timer or budget can change; None means a retry may be due.
  function Settled(p: Policy, o: Observation): Option<Decision>
    requires Consistent(o)
  {
    if o.outcome == "accepted_by_endpoint" then Some(Decision(ACCEPTED, "endpoint_acknowledged", None, o.statusCode))
    else if o.outcome == "unknown" then Some(Decision(UNKNOWN, "reconciliation_required", None, o.statusCode))
    else if o.outcome == "blocked" then
      if o.failureCode in p.beforeSendCodes then None
      else Some(Decision(BLOCKED, "pre_send_blocked", None, o.statusCode))
    else if o.statusCode < 400 then Some(Decision(PAUSED, "destination_revalidation_required", None, o.statusCode))
    else if o.statusCode in {401, 403} then
      Some(Decision(PAUSED, "authentication_attention_required", None, o.statusCode))
    else if o.statusCode == 410 then Some(Decision(FAILED, "destination_removed", None, o.statusCode))
    else if o.statusCode !in p.retryStatusCodes then
      Some(Decision(FAILED, "non_retryable_response", None, o.statusCode))
    else None
  }

  function Schedule(p: Policy, parse: ParseDate, a: Attempt, o: Observation): Result<Decision>
    requires ValidPolicy(p) && ValidInput(p, a, o)
  {
    var cutoff := Cutoff(p, a);
    if a.sequence >= p.maxAttempts then Ok(Decision(FAILED, "attempt_limit", None, o.statusCode))
    else if o.observedAt >= cutoff then Ok(Decision(FAILED, "delivery_deadline", None, o.statusCode))
    else
      var next := o.observedAt + Delay(p, a) as int;
      var hint :=
        if o.outcome == "not_accepted" && o.retryAfter != "" then RetryAfter(parse, o.retryAfter, o.observedAt, cutoff)
        else Ok((next, false));
      if hint.Err? then Err(hint.error)
      else if hint.value.1 then Ok(Decision(FAILED, "retry_after_exceeds_deadline", None, o.statusCode))
      else
        var due := if hint.value.0 > next then hint.value.0 else next;
        if due >= cutoff then Ok(Decision(FAILED, "delivery_deadline", None, o.statusCode))
        else Ok(Decision(RETRY_WAIT, "retry_scheduled", Some(due), o.statusCode))
  }

  function Plan(p: Policy, parse: ParseDate, a: Attempt, o: Observation): Result<Decision>
    requires ValidPolicy(p)
  {
    if !ValidInput(p, a, o) || !Consistent(o) then Err(ERR_INPUT)
    else
      var d := Settled(p, o);
      if d.Some? then Ok(d.value) else Schedule(p, parse, a, o)
  }

  // ---- The schedule in unbounded arithmetic ----

  // Before the attempt's deadline and before the delivery's maximum age.
  predicate Within(p: Policy, a: Attempt, t: int) { t < a.deadline && t < a.createdAt + p.maxAge as int }

  predicate Retryable(p: Policy, o: Observation) {
    || (o.outcome == "blocked" && o.failureCode in p.beforeSendCodes)
    || (o.outcome == "not_accepted" && o.statusCode in p.retryStatusCodes)
  }

  function HintTime(parse: ParseDate, raw: string, observed: int): Option<int> {
    if !AllDigits(raw) then parse(raw)
    else if |raw| > 12 then None
    else Some(observed + Value(raw) * 1_000_000_000)
  }

  // When the next attempt is due: the later of delay plus jitter and the hint.
  function Due(p: Policy, parse: ParseDate, a: Attempt, o: Observation): Option<int>
    requires 1 <= a.sequence <= |p.retryDelays|
  {
    var delay := p.retryDelays[a.sequence - 1] as int;
    var next := o.observedAt + delay + delay * p.maxJitterPermille / 1000 * a.jitterSample / 1_000_000;
    if o.outcome != "not_accepted" || o.retryAfter == "" then Some(next)
    else
      var hint := HintTime(parse, o.retryAfter, o.observedAt);
      if hint.None? then None else Some(if hint.value > next then hint.value else next)
  }

  // The planner's 64-bit decision is exactly this one: a retry at t is scheduled if and
  // only if the observation is retryable, budget and window are open, and t is the due
  // time and lies before the cutoff.
  lemma ScheduleIsExact(p: Policy, parse: ParseDate, a: Attempt, o: Observation, t: int)
    requires ValidPolicy(p) && ValidInput(p, a, o) && Consistent(o)
    ensures WaitsUntil(Plan(p, parse, a, o), t) <==>
      && Retryable(p, o) && a.sequence < p.maxAttempts && Within(p, a, o.observedAt)
      && Due(p, parse, a, o) == Some(t) && Within(p, a, t)
  {
    SettledUnlessRetryable(p, o);
    TimerIsExact(p, parse, a, o, t);
  }

  predicate WaitsUntil(d: Result<Decision>, t: int) {
    d.Ok? && d.value.state == RETRY_WAIT && d.value.nextAttemptAt == Some(t)
  }

  lemma TimerIsExact(p: Policy, parse: ParseDate, a: Attempt, o: Observation, t: int)
    requires ValidPolicy(p) && ValidInput(p, a, o)
    ensures WaitsUntil(Schedule(p, parse, a, o), t) <==>
      && a.sequence < p.maxAttempts && o.observedAt < Cutoff(p, a)
      && Due(p, parse, a, o) == Some(t) && t < Cutoff(p, a)
  {
    var cutoff := Cutoff(p, a);
    if a.sequence < p.maxAttempts && o.observedAt < cutoff {
      assert cutoff <= o.observedAt + WEEK as int;
      DelayIsExact(p, a);
      if o.outcome == "not_accepted" && o.retryAfter != "" { HintIsExact(parse, o.retryAfter, o.observedAt, cutoff); }
    }
  }

  lemma SettledUnlessRetryable(p: Policy, o: Observation)
    requires ValidPolicy(p) && Consistent(o)
    ensures Settled(p, o).None? <==> Retryable(p, o)
    ensures Settled(p, o).Some? ==> Settled(p, o).value.state != RETRY_WAIT
  {
    if o.statusCode in p.retryStatusCodes {
      var i :| 0 <= i < |p.retryStatusCodes| && p.retryStatusCodes[i] == o.statusCode;
      assert RetryableStatus(o.statusCode);
    }
  }

  lemma DelayIsExact(p: Policy, a: Attempt)
    requires ValidPolicy(p) && a.jitterSample <= 1_000_000 && 1 <= a.sequence < p.maxAttempts
    ensures
      var delay := p.retryDelays[a.sequence - 1] as int;
      Delay(p, a) as int == delay + delay * p.maxJitterPermille / 1000 * a.jitterSample / 1_000_000
  {
  }

  lemma HintIsExact(parse: ParseDate, raw: string, observed: int, cutoff: int)
    requires observed < cutoff <= observed + WEEK as int
    ensures
      var r, due := RetryAfter(parse, raw, observed, cutoff), HintTime(parse, raw, observed);
      && (r.Ok? <==> due.Some?)
      && (due.Some? ==> (r.value.1 <==> due.value >= cutoff) && (!r.value.1 ==> r.value.0 == due.value))
  {
    if AllDigits(raw) && |raw| <= 12 { DelaySecondsAreExact(parse, raw, observed, cutoff); }
  }

  predicate Ends(d: Result<Decision>, state: string) { d.Ok? && d.value.state == state }

  // A delivery is paused exactly on a redirect or an authentication failure,
  lemma PausedIff(p: Policy, parse: ParseDate, a: Attempt, o: Observation)
    requires ValidPolicy(p) && ValidInput(p, a, o) && Consistent(o)
    ensures Ends(Plan(p, parse, a, o), PAUSED) <==>
      o.outcome == "not_accepted" && (300 <= o.statusCode <= 399 || o.statusCode == 401 || o.statusCode == 403)
  {
  }

  // blocked exactly when nothing was sent for a reason that a retry cannot remove,
  lemma BlockedIff(p: Policy, parse: ParseDate, a: Attempt, o: Observation)
    requires ValidPolicy(p) && ValidInput(p, a, o) && Consistent(o)
    ensures Ends(Plan(p, parse, a, o), BLOCKED) <==> o.outcome == "blocked" && o.failureCode !in p.beforeSendCodes
  {
  }

  // and failed exactly on a final answer, or when a retry would be in order and the
  // attempts are used up, the window is over, or the next attempt would fall past it.
  lemma FailedIff(p: Policy, parse: ParseDate, a: Attempt, o: Observation)
    requires ValidPolicy(p) && ValidInput(p, a, o) && Consistent(o)
    ensures Ends(Plan(p, parse, a, o), FAILED) <==>
      || (o.outcome == "not_accepted" && FinalAnswer(p, o.statusCode))
      || (Retryable(p, o) && Exhausted(p, parse, a, o))
  {
    SettledUnlessRetryable(p, o);
    if Retryable(p, o) { FailedTimer(p, parse, a, o); }
  }

  predicate FinalAnswer(p: Policy, code: int) {
    code == 410 || (code >= 400 && code != 401 && code != 403 && code !in p.retryStatusCodes)
  }

  predicate Exhausted(p: Policy, parse: ParseDate, a: Attempt, o: Observation)
    requires ValidPolicy(p) && 1 <= a.sequence
  {
    || a.sequence >= p.maxAttempts || !Within(p, a, o.observedAt)
    || (Due(p, parse, a, o).Some? && !Within(p, a, Due(p, parse, a, o).value))
  }

  lemma FailedTimer(p: Policy, parse: ParseDate, a: Attempt, o: Observation)
    requires ValidPolicy(p) && ValidInput(p, a, o)
    ensures Ends(Schedule(p, parse, a, o), FAILED) <==> Exhausted(p, parse, a, o)
    ensures Schedule(p, parse, a, o).Err? <==>
      && a.sequence < p.maxAttempts && Within(p, a, o.observedAt) && Due(p, parse, a, o).None?
  {
    var cutoff := Cutoff(p, a);
    if a.sequence < p.maxAttempts && o.observedAt < cutoff {
      assert cutoff <= o.observedAt + WEEK as int;
      DelayIsExact(p, a);
      if o.outcome == "not_accepted" && o.retryAfter != "" { HintIsExact(parse, o.retryAfter, o.observedAt, cutoff); }
    }
  }

  // The planner refuses only what does not fit together, and an unreadable hint when a
  // retry would be in order.
  lemma RefusedIff(p: Policy, parse: ParseDate, a: Attempt, o: Observation)
    requires ValidPolicy(p)
    ensures Plan(p, parse, a, o).Err? <==>
      !(ValidInput(p, a, o) && Consistent(o))
      || (Retryable(p, o) && a.sequence < p.maxAttempts && Within(p, a, o.observedAt)
          && Due(p, parse, a, o).None?)
    ensures Plan(p, parse, a, o).Err? ==> Plan(p, parse, a, o).error == "WEBHOOK_LIFECYCLE_INPUT"
  {
    if ValidInput(p, a, o) && Consistent(o) {
      SettledUnlessRetryable(p, o);
      if Retryable(p, o) { FailedTimer(p, parse, a, o); }
    }
  }

  // Whatever is decided concerns this attempt under this policy, observed after it
  // started; its status is the observed one, and a reason names its cause.
  lemma DecisionNamesItsCause(p: Policy, parse: ParseDate, a: Attempt, o: Observation)
    requires ValidPolicy(p)
    ensures Plan(p, parse, a, o).Ok? ==>
      && o.attemptId == a.key.attemptId && a.policyVersion == p.version
      && a.createdAt <= a.startedAt < a.deadline && a.startedAt <= o.observedAt
      && Fitting(o)
      && (SettledBy(p, o, Plan(p, parse, a, o).value) || ScheduledBy(p, parse, a, o, Plan(p, parse, a, o).value))
  {
    if Plan(p, parse, a, o).Ok? {
      if Settled(p, o).Some? { SettledNamesItsCause(p, o); } else { ScheduleNamesItsCause(p, parse, a, o); }
    }
  }

  // An outcome with the only status and fault codes it can have.
  predicate Fitting(o: Observation) {
    || (o.outcome == "accepted_by_endpoint" && 200 <= o.statusCode <= 299 && o.failureCode in RESPONSE_FAULTS)
    || (o.outcome == "not_accepted" && 300 <= o.statusCode <= 599 && o.failureCode in RESPONSE_FAULTS)
    || (o.outcome == "unknown" && o.statusCode == 0 && o.failureCode in {"", "HTTP_UNAVAILABLE", "CANCELLED"})
    || (o.outcome == "blocked" && o.statusCode == 0 && o.failureCode in PRE_RESPONSE_FAULTS)
  }

  predicate SettledBy(p: Policy, o: Observation, d: Decision) {
    && d.nextAttemptAt.None? && d.statusCode == o.statusCode
    && (|| (d.reason == "endpoint_acknowledged" && d.state == ACCEPTED && o.outcome == "accepted_by_endpoint")
        || (d.reason == "reconciliation_required" && d.state == UNKNOWN && o.outcome == "unknown")
        || (d.reason == "pre_send_blocked" && d.state == BLOCKED && o.outcome == "blocked")
        || (d.reason == "destination_revalidation_required" && d.state == PAUSED && 300 <= o.statusCode <= 399)
        || (d.reason == "authentication_attention_required" && d.state == PAUSED && o.statusCode in {401, 403})
        || (d.reason == "destination_removed" && d.state == FAILED && o.statusCode == 410)
        || (d.reason == "non_retryable_response" && d.state == FAILED && o.statusCode !in p.retryStatusCodes
            && 400 <= o.statusCode <= 599 && o.statusCode !in {401, 403, 410}))
  }

  lemma SettledNamesItsCause(p: Policy, o: Observation)
    requires Consistent(o)
    ensures Settled(p, o).Some? ==> SettledBy(p, o, Settled(p, o).value)
  {
  }

  predicate ScheduledBy(p: Policy, parse: ParseDate, a: Attempt, o: Observation, d: Decision)
    requires ValidPolicy(p)
  {
    && d.statusCode == o.statusCode
    && (|| (d.reason == "attempt_limit" && d.state == FAILED && d.nextAttemptAt.None? && a.sequence >= p.maxAttempts)
        || (d.reason == "delivery_deadline" && d.state == FAILED && d.nextAttemptAt.None? && 1 <= a.sequence
            && Exhausted(p, parse, a, o))
        || (d.reason == "retry_after_exceeds_deadline" && d.state == FAILED && d.nextAttemptAt.None?
            && HintTime(parse, o.retryAfter, o.observedAt).Some?
            && !Within(p, a, HintTime(parse, o.retryAfter, o.observedAt).value))
        || (d.reason == "retry_scheduled" && d.state == RETRY_WAIT && d.nextAttemptAt.Some?))
  }

  lemma ScheduleNamesItsCause(p: Policy, parse: ParseDate, a: Attempt, o: Observation)
    requires ValidPolicy(p) && ValidInput(p, a, o)
    ensures Schedule(p, parse, a, o).Ok? ==> ScheduledBy(p, parse, a, o, Schedule(p, parse, a, o).value)
  {
    FailedTimer(p, parse, a, o);
    var cutoff := Cutoff(p, a);
    if a.sequence < p.maxAttempts && o.observedAt < cutoff {
      HintIsExact(parse, o.retryAfter, o.observedAt, cutoff);
    }
  }

  // An automatic resend is scheduled only for what certainly did not reach the
  // endpoint, or for an observed retryable answer, and inside the delivery window.
  lemma RetryIsSafe(p: Policy, parse: ParseDate, a: Attempt, o: Observation)
    requires ValidPolicy(p)
    ensures Waits(p, parse, a, o) ==>
      || (o.outcome == "blocked" && o.statusCode == 0
          && o.failureCode in {"EGRESS_BUSY", "DNS_UNAVAILABLE", "CONNECT_FAILED"})
      || (o.outcome == "not_accepted" && (o.statusCode in {408, 425, 429} || 500 <= o.statusCode <= 599))
    ensures Waits(p, parse, a, o) ==>
      var d := Plan(p, parse, a, o).value;
      && 1 <= a.sequence < p.maxAttempts
      && d.nextAttemptAt.Some?
      && o.observedAt + p.retryDelays[a.sequence - 1] as int <= d.nextAttemptAt.value
      && Within(p, a, d.nextAttemptAt.value)
  {
  }

  predicate Waits(p: Policy, parse: ParseDate, a: Attempt, o: Observation)
    requires ValidPolicy(p)
  {
    Plan(p, parse, a, o).Ok? && Plan(p, parse, a, o).value.state == RETRY_WAIT
  }

  // A hint never shortens the wait, and is obeyed when it is later.
  lemma HintOnlyExtends(p: Policy, parse: ParseDate, a: Attempt, o: Observation)
    requires ValidPolicy(p) && o.outcome == "not_accepted" && AllDigits(o.retryAfter)
    ensures Waits(p, parse, a, o) ==>
      var d := Plan(p, parse, a, o).value;
      d.nextAttemptAt.Some? && d.nextAttemptAt.value >= o.observedAt + Value(o.retryAfter) * SECOND as int
  {
    if Waits(p, parse, a, o) { DelaySecondsAreExact(parse, o.retryAfter, o.observedAt, Cutoff(p, a)); }
  }

  // Expiry and budgets never rewrite an acknowledgement or an uncertain send.
  lemma AcknowledgementOutranksExpiry(p: Policy, parse: ParseDate, a: Attempt, o: Observation)
    requires ValidPolicy(p) && ValidInput(p, a, o) && Consistent(o)
    ensures o.outcome == "accepted_by_endpoint" <==>
      Plan(p, parse, a, o).Ok? && Plan(p, parse, a, o).value.state == ACCEPTED
    ensures o.outcome == "unknown" <==>
      Plan(p, parse, a, o).Ok? && Plan(p, parse, a, o).value.state == UNKNOWN
  {
  }

  // ---- A whole delivery ----

  datatype Round = Round(attempt: Attempt, observation: Observation)

  // Each round is planned; the next starts when due, one sequence number later, on
  // the same delivery.
  ghost predicate Delivery(p: Policy, parse: ParseDate, rounds: seq<Round>)
    requires ValidPolicy(p)
  {
    && (forall i :: 0 <= i < |rounds| ==> Planned(p, parse, rounds[i]))
    && (rounds != [] ==> rounds[0].attempt.sequence == 1)
    && forall i :: 0 < i < |rounds| ==> Follows(p, parse, rounds[i - 1], rounds[i])
  }

  predicate Planned(p: Policy, parse: ParseDate, r: Round)
    requires ValidPolicy(p)
  {
    Plan(p, parse, r.attempt, r.observation).Ok?
  }

  function DecisionOf(p: Policy, parse: ParseDate, r: Round): Decision
    requires ValidPolicy(p) && Planned(p, parse, r)
  {
    Plan(p, parse, r.attempt, r.observation).value
  }

  predicate Follows(p: Policy, parse: ParseDate, r: Round, s: Round)
    requires ValidPolicy(p)
  {
    && Planned(p, parse, r) && DecisionOf(p, parse, r).state == RETRY_WAIT
    && s.attempt.sequence == r.attempt.sequence + 1
    && s.attempt.createdAt == r.attempt.createdAt && s.attempt.deadline == r.attempt.deadline
    && DecisionOf(p, parse, r).nextAttemptAt.Some?
    && s.attempt.startedAt >= DecisionOf(p, parse, r).nextAttemptAt.value
  }

  lemma {:induction false} SequenceCounts(p: Policy, parse: ParseDate, rounds: seq<Round>, i: nat)
    requires ValidPolicy(p) && Delivery(p, parse, rounds) && i < |rounds|
    ensures rounds[i].attempt.sequence == i + 1
    ensures rounds[i].attempt.createdAt == rounds[0].attempt.createdAt
      && rounds[i].attempt.deadline == rounds[0].attempt.deadline
  {
    if i > 0 {
      SequenceCounts(p, parse, rounds, i - 1);
      assert Follows(p, parse, rounds[i - 1], rounds[i]);
    }
  }

  // Attempts are bounded, every round but the last waits, the attempts left strictly
  // fall, and a delivery that used its last attempt has ended.
  lemma DeliveryIsBounded(p: Policy, parse: ParseDate, rounds: seq<Round>)
    requires ValidPolicy(p) && Delivery(p, parse, rounds)
    ensures |rounds| <= p.maxAttempts <= 64
    ensures |rounds| == p.maxAttempts ==> DecisionOf(p, parse, rounds[|rounds| - 1]).state != RETRY_WAIT
  {
    if rounds != [] {
      var n := |rounds|;
      var last := rounds[n - 1];
      SequenceCounts(p, parse, rounds, n - 1);
      assert Planned(p, parse, last);
      if n > 1 {
        var r := rounds[n - 2];
        SequenceCounts(p, parse, rounds, n - 2);
        assert Follows(p, parse, r, last);
        RetryIsSafe(p, parse, r.attempt, r.observation);
      }
      if DecisionOf(p, parse, last).state == RETRY_WAIT { RetryIsSafe(p, parse, last.attempt, last.observation); }
    }
  }

  // Scheduled times strictly increase and all lie in the one window.
  lemma {:induction false} ScheduleIncreases(p: Policy, parse: ParseDate, rounds: seq<Round>, i: nat, j: nat)
    requires ValidPolicy(p) && Delivery(p, parse, rounds)
    ensures i < j < |rounds| && DecisionOf(p, parse, rounds[j]).state == RETRY_WAIT ==>
      var first, second := DecisionOf(p, parse, rounds[i]).nextAttemptAt, DecisionOf(p, parse, rounds[j]).nextAttemptAt;
      first.Some? && second.Some? && first.value < second.value && Within(p, rounds[0].attempt, second.value)
    decreases j
  {
    if i < j < |rounds| && DecisionOf(p, parse, rounds[j]).state == RETRY_WAIT {
      var r, s := rounds[j - 1], rounds[j];
      assert Follows(p, parse, r, s) && Planned(p, parse, s);
      RetryIsSafe(p, parse, s.attempt, s.observation);
      SequenceCounts(p, parse, rounds, j);
      ScheduleIncreases(p, parse, rounds, i, j - 1);
    }
  }
}
