// The F03 acknowledgement boundary of backend/services/ingress/handler.go: bind every
// parsed element, append every slice, and only then answer 200.

module Ingress {
  import opened Common
  import opened PlacementBinding
  import opened EventFlow
  import PD = PlacementDirectory
  import Names

  datatype Options = Options(route: string, maxBodyBytes: nat, maxSlices: nat)

  // What the ports answer during one request. others[i] is everything else that
  // happens to the broker and its consumers before append i.
  datatype Outside = Outside(
    methodOk: bool, mediaOk: bool, slotFree: bool,
    body: Result<Bytes>, verifierOk: bool, proofOk: bool,
    candidates: Option<seq<Candidate>>,
    resolved: seq<Result<PD.Binding>>,
    bodySizes: seq<nat>,
    cancelled: seq<bool>, faults: seq<Fault>, others: seq<seq<Step>>,
    ackCancelled: bool)

  // One answer for every candidate.
  predicate Answers(o: Outside) {
    o.candidates.Some? ==>
      |o.resolved| == |o.bodySizes| == |o.cancelled| == |o.faults| == |o.others| == |o.candidates.value|
  }

  predicate SliceUsable(s: Slice, size: nat) {
    Names.Opaque(s.cellId) && s.placementEpoch >= 1 && s.record.topic != "" && size > 0
  }

  // Every answer usable, within the expansion budget.
  ghost predicate AllUsable(o: Options, answers: seq<Result<Slice>>, sizes: seq<nat>) {
    && |answers| == |sizes|
    && (forall i :: 0 <= i < |answers| ==>
      && answers[i].Ok? && Names.Opaque(answers[i].value.cellId) && answers[i].value.placementEpoch >= 1
      && answers[i].value.record.topic != "" && sizes[i] > 0)
    && (forall i :: 0 <= i <= |sizes| ==> Total(sizes[..i]) <= o.maxBodyBytes * 4)
  }

  ghost predicate SomeUnusable(answers: seq<Result<Slice>>, sizes: seq<nat>) {
    |answers| == |sizes|
    && exists i :: 0 <= i < |answers| && !(answers[i].Ok? && SliceUsable(answers[i].value, sizes[i]))
  }

  ghost predicate OverBudget(o: Options, sizes: seq<nat>) {
    exists i :: 0 <= i <= |sizes| && Total(sizes[..i]) > o.maxBodyBytes * 4
  }

  function Total(sizes: seq<nat>): nat {
    if sizes == [] then 0 else Total(sizes[..|sizes| - 1]) + Last(sizes)
  }

  // What the binder says of each candidate.
  function Answered(o: Options, b: Binder, out: Outside): (r: seq<Result<Slice>>)
    requires out.candidates.Some? && Answers(out)
    ensures |r| == |out.candidates.value|
  {
    var candidates := out.candidates.value;
    seq(|candidates|, i requires 0 <= i < |candidates| => Bind(b, o.route, candidates[i], out.resolved[i]))
  }

  ghost predicate AllBound(o: Options, b: Binder, out: Outside)
    requires out.candidates.Some? && Answers(out)
  {
    AllUsable(o, Answered(o, b, out), out.bodySizes)
  }

  method BindAll(o: Options, answers: seq<Result<Slice>>, sizes: seq<nat>) returns (slices: Result<seq<Slice>>)
    requires |answers| == |sizes|
    ensures slices.Ok? <==> AllUsable(o, answers, sizes)
    ensures slices.Err? ==>
      || (slices.error == "placement_or_quarantine_unavailable" && SomeUnusable(answers, sizes))
      || (slices.error == "slice_expansion_limit" && OverBudget(o, sizes))
    ensures slices.Ok? ==>
      |slices.value| == |answers| && forall i :: 0 <= i < |answers| ==> answers[i] == Ok(slices.value[i])
  {
    var bound: seq<Slice> := [];
    var totalBytes: nat := 0;
    for i := 0 to |answers|
      invariant |bound| == i && totalBytes == Total(sizes[..i])
      invariant forall k :: 0 <= k <= i ==> Total(sizes[..k]) <= o.maxBodyBytes * 4
      invariant forall k :: 0 <= k < i ==> answers[k] == Ok(bound[k]) && SliceUsable(bound[k], sizes[k])
    {
      if answers[i].Err? || !SliceUsable(answers[i].value, sizes[i]) {
        return Err("placement_or_quarantine_unavailable");
      }
      assert sizes[..i + 1][..i] == sizes[..i];
      totalBytes := totalBytes + sizes[i];
      if totalBytes > o.maxBodyBytes * 4 {
        return Err("slice_expansion_limit");
      }
      bound := bound + [answers[i].value];
    }
    return Ok(bound);
  }

  // One confirmed append, after whatever else happened meanwhile.
  method AppendOne(plane: Plane, r: Record, others: seq<Step>, cancelled: bool, fault: Fault) returns (ok: bool)
    requires Inv(plane.Fields())
    modifies plane
    ensures Inv(plane.Fields()) && Grows(old(plane.Fields()), plane.Fields())
    ensures ok <==> !cancelled && fault == NoFault
    ensures ok ==> Logged(plane.spread, plane.Fields(), r)
  {
    ghost var before := plane.Fields();
    plane.Await(others);
    RunHolds(plane.spread, before, others);
    ghost var awaited := plane.Fields();
    if cancelled {
      return false;
    }
    var ack := plane.Append(r, fault);
    AppendHolds(plane.spread, awaited, r, fault);
    GrowsTransitive(before, awaited, plane.Fields());
    ok := ack.Some? && ack.value.id == r.id && ack.value.topic == r.topic && ack.value.partition >= 0
      && ack.value.offset >= 0;
  }

  lemma GrowsTransitive(f: Flow, g: Flow, h: Flow)
    requires Grows(f, g) && Grows(g, h)
    ensures Grows(f, h)
  {
    forall p ensures LogAt(f, p) <= LogAt(h, p) { assert LogAt(f, p) <= LogAt(g, p) <= LogAt(h, p); }
  }

  ghost predicate AllLogged(spread: Spread, f: Flow, slices: seq<Slice>) {
    forall i :: 0 <= i < |slices| ==> Logged(spread, f, slices[i].record)
  }

  lemma AllLoggedGrows(spread: Spread, f: Flow, g: Flow, slices: seq<Slice>)
    requires Grows(f, g) && AllLogged(spread, f, slices)
    ensures AllLogged(spread, g, slices)
  {
    forall i | 0 <= i < |slices| ensures Logged(spread, g, slices[i].record) {
      LoggedGrows(spread, f, g, slices[i].record);
    }
  }

  // Every append is acknowledged within the deadline.
  predicate Undisturbed(out: Outside) {
    && |out.cancelled| == |out.faults|
    && forall i :: 0 <= i < |out.faults| ==> !out.cancelled[i] && out.faults[i] == NoFault
  }

  method AppendAll(plane: Plane, slices: seq<Slice>, out: Outside) returns (ok: bool)
    requires Inv(plane.Fields())
    requires |slices| == |out.cancelled| == |out.faults| == |out.others|
    modifies plane
    ensures Inv(plane.Fields()) && Grows(old(plane.Fields()), plane.Fields())
    ensures ok <==> Undisturbed(out)
    ensures ok ==> AllLogged(plane.spread, plane.Fields(), slices)
  {
    ghost var start := plane.Fields();
    for i := 0 to |slices|
      invariant Inv(plane.Fields()) && Grows(start, plane.Fields())
      invariant AllLogged(plane.spread, plane.Fields(), slices[..i])
      invariant forall k :: 0 <= k < i ==> !out.cancelled[k] && out.faults[k] == NoFault
    {
      ghost var before := plane.Fields();
      ok := AppendOne(plane, slices[i].record, out.others[i], out.cancelled[i], out.faults[i]);
      GrowsTransitive(start, before, plane.Fields());
      if !ok {
        return;
      }
      AllLoggedGrows(plane.spread, before, plane.Fields(), slices[..i]);
      assert slices[..i + 1] == slices[..i] + [slices[i]];
    }
    assert slices[..|slices|] == slices;
    return true;
  }

  // The due record of candidate i is in the log of its own cell's topic.
  ghost predicate Delivered(o: Options, b: Binder, spread: Spread, f: Flow, out: Outside, i: nat) {
    && out.candidates.Some? && i < |out.candidates.value| && i < |out.resolved| && out.resolved[i].Ok?
    && o.route in b.routes
    && exists r :: Due(r, b.routes[o.route], out.candidates.value[i], out.resolved[i].value) && Logged(spread, f, r)
  }

  // Each answer but 200 names its cause.
  ghost predicate Refusal(o: Options, b: Binder, out: Outside, status: int)
    requires Answers(out)
  {
    match status
    case 400 => out.body.Err? && out.body.error != "body_too_large"
    case 401 => out.body.Ok? && |out.body.value| > 0 && out.verifierOk && !out.proofOk
    case 405 => !out.methodOk
    case 413 => out.body == Err("body_too_large")
    case 415 => out.methodOk && !out.mediaOk
    case 422 =>
      || (out.body.Ok? && |out.body.value| == 0)
      || out.candidates.None? || |out.candidates.value| == 0 || |out.candidates.value| > o.maxSlices
      || OverBudget(o, out.bodySizes)
    case 503 =>
      || !out.slotFree || !out.verifierOk || !Undisturbed(out) || out.ackCancelled
      || (out.candidates.Some? && SomeUnusable(Answered(o, b, out), out.bodySizes))
    case _ => false
  }

  // 200 means that the record of every parsed element is in the journal where its cell
  // reads. Nothing is appended unless everything was bound, and no outcome takes a record
  // away.
  method ServeHTTP(o: Options, b: Binder, plane: Plane, out: Outside) returns (status: int)
    requires Inv(plane.Fields()) && Answers(out)
    modifies plane
    ensures Inv(plane.Fields()) && Grows(old(plane.Fields()), plane.Fields())
    ensures status == 200 <==>
      && out.methodOk && out.mediaOk && out.slotFree
      && out.body.Ok? && |out.body.value| > 0 && out.verifierOk && out.proofOk
      && out.candidates.Some? && 0 < |out.candidates.value| <= o.maxSlices
      && AllBound(o, b, out) && Undisturbed(out) && !out.ackCancelled
    ensures status == 200 ==>
      && out.candidates.Some? && o.route in b.routes
      && forall i :: 0 <= i < |out.candidates.value| ==> Delivered(o, b, plane.spread, plane.Fields(), out, i)
    ensures status != 200 ==> Refusal(o, b, out, status)
    ensures out.candidates.None? || !out.proofOk || !AllBound(o, b, out) ==>
      status != 200 && plane.Fields() == old(plane.Fields())
  {
    if !out.methodOk {
      return 405;
    }
    if !out.mediaOk {
      return 415;
    }
    if !out.slotFree {
      return 503;
    }
    if out.body.Err? {
      return if out.body.error == "body_too_large" then 413 else 400;
    }
    if |out.body.value| == 0 {
      return 422;
    }
    if !out.verifierOk {
      return 503;
    }
    if !out.proofOk {
      return 401;
    }
    if out.candidates.None? || |out.candidates.value| == 0 || |out.candidates.value| > o.maxSlices {
      return 422;
    }
    var slices := BindAll(o, Answered(o, b, out), out.bodySizes);
    if slices.Err? {
      return if slices.error == "slice_expansion_limit" then 422 else 503;
    }
    var ok := AppendAll(plane, slices.value, out);
    if !ok || out.ackCancelled {
      return 503;
    }
    AllDelivered(o, b, plane.spread, plane.Fields(), out, slices.value);
    return 200;
  }

  lemma AllDelivered(o: Options, b: Binder, spread: Spread, f: Flow, out: Outside, slices: seq<Slice>)
    requires out.candidates.Some? && Answers(out) && |slices| == |out.candidates.value| > 0
    requires forall i :: 0 <= i < |slices| ==> Answered(o, b, out)[i] == Ok(slices[i])
    requires AllLogged(spread, f, slices)
    ensures o.route in b.routes
    ensures forall i :: 0 <= i < |slices| ==> Delivered(o, b, spread, f, out, i)
  {
    assert Answered(o, b, out)[0] == Bind(b, o.route, out.candidates.value[0], out.resolved[0]);
    forall i | 0 <= i < |slices| ensures Delivered(o, b, spread, f, out, i) {
      assert Answered(o, b, out)[i] == Bind(b, o.route, out.candidates.value[i], out.resolved[i]);
      BoundToItsCell(b, o.route, out.candidates.value[i], out.resolved[i]);
      assert Logged(spread, f, slices[i].record);
    }
  }

  // From any state the invariant allows: an event in the journal stays there, and once
  // the log is drained it has been applied exactly once.
  lemma JournalledIsAppliedOnce(spread: Spread, f: Flow, more: seq<Step>, id: EventId)
    requires Inv(f) && InJournal(f, id) && Drained(Run(spread, f, more))
    ensures multiset(Run(spread, f, more).applied)[id] == 1
  {
    var g := Run(spread, f, more);
    RunHolds(spread, f, more);
    JournalGrows(f, g, id);
    DrainedMeans(g, id);
  }

  // A request and whatever follows it: when 200 was answered and the log has been
  // drained, the event of every parsed element has been applied exactly once.
  method ServeAndDrain(o: Options, b: Binder, plane: Plane, out: Outside, more: seq<Step>) returns (status: int)
    requires Inv(plane.Fields()) && Answers(out)
    modifies plane
    ensures Inv(plane.Fields())
    ensures status == 200 && Drained(plane.Fields()) ==>
      && out.candidates.Some? && o.route in b.routes
      && forall i :: 0 <= i < |out.candidates.value| ==>
        multiset(plane.Fields().applied)[IdentityIn(b.routes[o.route], out.candidates.value[i])] == 1
  {
    status := ServeHTTP(o, b, plane, out);
    ghost var f := plane.Fields();
    plane.Await(more);
    RunHolds(plane.spread, f, more);
    if status == 200 && Drained(plane.Fields()) {
      forall i | 0 <= i < |out.candidates.value|
        ensures multiset(plane.Fields().applied)[IdentityIn(b.routes[o.route], out.candidates.value[i])] == 1
      {
        DeliveredIsApplied(o, b, plane.spread, f, out, i, more);
      }
    }
  }

  lemma DeliveredIsApplied(o: Options, b: Binder, spread: Spread, f: Flow, out: Outside, i: nat, more: seq<Step>)
    requires Inv(f) && Delivered(o, b, spread, f, out, i) && Drained(Run(spread, f, more))
    ensures multiset(Run(spread, f, more).applied)[IdentityIn(b.routes[o.route], out.candidates.value[i])] == 1
  {
    var r :| Due(r, b.routes[o.route], out.candidates.value[i], out.resolved[i].value) && Logged(spread, f, r);
    LoggedIsJournalled(spread, f, r);
    JournalledIsAppliedOnce(spread, f, more, r.id);
  }
}
