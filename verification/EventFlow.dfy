// Placement binding, the broker log and its consumers:
// backend/services/ingress/placement.go and backend/internal/events/durability.go.

module PlacementBinding {
  import opened Common
  import opened PlacementEntries
  import PD = PlacementDirectory
  import PP = PlacementProtocol
  import Names

  // Parsed from the signed body; jsonOk stands for the UTF-8 and JSON checks.
  datatype Candidate = Candidate(assetId: string, eventRef: string, body: Bytes, jsonOk: bool)

  datatype Route = Route(provider: string, appRef: string, environmentId: string, lane: string)

  // digestIdentity: SHA-256 over the JSON list of the parts.
  datatype EventId = EventId(environmentId: string, provider: string, appRef: string, assetId: string, eventRef: string)
  datatype PartitionKey = PartitionKey(environmentId: string, provider: string, appRef: string, assetId: string)

  // The bound envelope: tenant scope and place from the directory, payload from the
  // provider.
  datatype Envelope = Envelope(
    provider: string, appRef: string, assetId: string, eventRef: string,
    tenantId: string, workspaceId: string, environmentId: string,
    region: string, cellId: string, placementEpoch: int,
    snapshotVersion: int, snapshotDigest: PD.Digest, payload: Bytes)

  datatype Record = Record(id: EventId, topic: string, key: PartitionKey, body: Envelope)
  datatype Slice = Slice(record: Record, cellId: string, placementEpoch: int, authority: (int, PD.Digest))

  datatype Binder = Binder(routes: map<string, Route>, maxPayloadBytes: nat)

  function IdentityIn(route: Route, c: Candidate): EventId {
    EventId(route.environmentId, route.provider, route.appRef, c.assetId, c.eventRef)
  }

  function TopicOf(lane: string, region: string, cellId: string): string {
    lane + "." + region + "." + cellId + ".provider.received.v1"
  }

  function EnvelopeOf(route: Route, c: Candidate, b: PD.Binding): Envelope {
    Envelope(route.provider, route.appRef, c.assetId, c.eventRef, b.entry.tenantId, b.entry.workspaceId,
      b.entry.environmentId, b.entry.region, b.entry.cellId, b.entry.epoch, b.version, b.digest, c.body)
  }

  // The directory's answer must be an active placement of exactly this asset.
  predicate Authoritative(route: Route, c: Candidate, b: PD.Binding) {
    && b.entry.provider == route.provider && b.entry.appRef == route.appRef && b.entry.assetId == c.assetId
    && b.entry.environmentId == route.environmentId && b.entry.state == "active"
    && b.entry.epoch >= 1 && b.version >= 1 && b.digest.Sha256?
  }

  function Bind(binder: Binder, routeId: string, c: Candidate, resolved: Result<PD.Binding>): Result<Slice> {
    if routeId !in binder.routes || !Names.Opaque(c.assetId) || !Names.Opaque(c.eventRef)
      || |c.body| == 0 || |c.body| > binder.maxPayloadBytes || !c.jsonOk then Err("placement_candidate_rejected")
    else if resolved.Err? then Err(resolved.error)
    else
      var route, b := binder.routes[routeId], resolved.value;
      if !Authoritative(route, c, b) then Err("placement_binding_rejected")
      else Ok(Slice(
        Record(IdentityIn(route, c), TopicOf(route.lane, b.entry.region, b.entry.cellId),
               PartitionKey(route.environmentId, route.provider, route.appRef, c.assetId), EnvelopeOf(route, c, b)),
        b.entry.cellId, b.entry.epoch, (b.version, b.digest)))
  }

  // The record that an event is due: on the topic of the cell where its asset is placed,
  // keyed by the asset, with the provider's payload in the tenant's scope.
  ghost predicate Due(r: Record, route: Route, c: Candidate, b: PD.Binding) {
    var e := b.entry;
    && r.id == EventId(route.environmentId, route.provider, route.appRef, c.assetId, c.eventRef)
    && r.topic == route.lane + "." + e.region + "." + e.cellId + ".provider.received.v1"
    && r.key == PartitionKey(route.environmentId, route.provider, route.appRef, c.assetId)
    && r.body.tenantId == e.tenantId && r.body.workspaceId == e.workspaceId
    && r.body.environmentId == route.environmentId
    && r.body.provider == e.provider && r.body.appRef == e.appRef
    && r.body.assetId == e.assetId && r.body.eventRef == c.eventRef
    && r.body.region == e.region && r.body.cellId == e.cellId && r.body.placementEpoch == e.epoch
    && r.body.snapshotVersion == b.version && r.body.snapshotDigest == b.digest && r.body.payload == c.body
  }

  // A bound slice is the event's due record for an active placement of exactly its asset.
  lemma BoundToItsCell(binder: Binder, routeId: string, c: Candidate, resolved: Result<PD.Binding>)
    requires Bind(binder, routeId, c, resolved).Ok?
    ensures routeId in binder.routes && resolved.Ok?
    ensures
      var s, route, b := Bind(binder, routeId, c, resolved).value, binder.routes[routeId], resolved.value;
      && Due(s.record, route, c, b)
      && s.cellId == b.entry.cellId && s.placementEpoch == b.entry.epoch && s.authority == (b.version, b.digest)
      && b.entry.provider == route.provider && b.entry.appRef == route.appRef && b.entry.assetId == c.assetId
      && b.entry.environmentId == route.environmentId && b.entry.state == "active" && b.entry.epoch >= 1
      && 0 < |c.body| <= binder.maxPayloadBytes && c.jsonOk
  {
  }

  // The event identity survives a placement refresh or relocation between retries,
  // and two bound candidates share it only when they are the same event.
  lemma BindingIsStable(binder: Binder, routeId: string, c: Candidate, d: Candidate, r1: Result<PD.Binding>,
      r2: Result<PD.Binding>)
    requires Bind(binder, routeId, c, r1).Ok? && Bind(binder, routeId, d, r2).Ok?
    ensures
      var s, t := Bind(binder, routeId, c, r1).value.record, Bind(binder, routeId, d, r2).value.record;
      && (s.id == t.id <==> c.assetId == d.assetId && c.eventRef == d.eventRef)
      && (s.key == t.key <==> c.assetId == d.assetId)
  {
  }

  // Whatever a directory of the placement protocol answers is authoritative, so an
  // admissible candidate is bound exactly when the directory resolves its asset and
  // serves the route's environment.
  lemma ResolvedAssetsBind(binder: Binder, routeId: string, c: Candidate, t: PD.Trust,
      history: seq<PD.Checkpoint>, n: PP.Node, reading: int)
    requires routeId in binder.routes && Names.Opaque(c.assetId) && Names.Opaque(c.eventRef)
    requires 0 < |c.body| <= binder.maxPayloadBytes && c.jsonOk
    requires history != [] && PP.NodeHolds(t, history, n)
    ensures
      var route := binder.routes[routeId];
      var answer := PD.ResolveAt(n.options, n.st, reading, Identity(route.provider, route.appRef, c.assetId)).1;
      && (Bind(binder, routeId, c, answer).Ok? <==> answer.Ok? && route.environmentId == n.options.environmentId)
      && (Bind(binder, routeId, c, answer).Ok? ==>
          && n.st.active.Some?
          && exists e ::
            && e in n.st.active.value.document.entries && e.state == "active"
            && IdentityOf(e) == Identity(route.provider, route.appRef, c.assetId)
            && Bind(binder, routeId, c, answer).value.record.topic ==
              route.lane + "." + e.region + "." + e.cellId + ".provider.received.v1")
  {
    var route := binder.routes[routeId];
    var id := Identity(route.provider, route.appRef, c.assetId);
    if PD.ResolveAt(n.options, n.st, reading, id).1.Ok? { IndexHolds(n.st.active.value.document.entries, id); }
  }
}

module EventFlow {
  import opened Common
  import opened PlacementBinding

  // The broker assigns a partition by topic and key.
  datatype Partition = Partition(topic: string, number: nat)
  type Spread = PartitionKey -> nat

  // positions is where each consumer reads next; it is lost in a crash. applied is
  // the projection's durable effects, each with its deduplication marker.
  datatype Flow = Flow(
    logs: map<Partition, seq<Record>>,
    marked: set<Record>,
    positions: map<Partition, nat>,
    committed: map<Partition, nat>,
    applied: seq<EventId>)

  const Empty: Flow := Flow(map[], {}, map[], map[], [])

  datatype Step =
    | Append(record: Record, fault: Fault)
    | PublishPending(record: Record, fault: Fault, marks: bool)
    | Consume(partition: Partition, apply: Fault, commit: Fault)
    | Crash(partition: Partition)

  function PartitionOf(spread: Spread, r: Record): Partition { Partition(r.topic, spread(r.key)) }

  function LogAt(f: Flow, p: Partition): seq<Record> { if p in f.logs then f.logs[p] else [] }

  function At(m: map<Partition, nat>, p: Partition): nat { if p in m then m[p] else 0 }

  function Appended(spread: Spread, f: Flow, r: Record, fault: Fault): Flow {
    var p := PartitionOf(spread, r);
    if fault == LostWrite then f else f.(logs := f.logs[p := LogAt(f, p) + [r]])
  }

  // Publish, then mark only after the acknowledgement.
  function Published(spread: Spread, f: Flow, r: Record, fault: Fault, marks: bool): Flow {
    var f1 := Appended(spread, f, r, fault);
    if fault == NoFault && marks then f1.(marked := f1.marked + {r}) else f1
  }

  function Applied(f: Flow, id: EventId): seq<EventId> {
    if id in f.applied then f.applied else f.applied + [id]
  }

  // Effect first, offset after it; the position moves on only past an acknowledged
  // effect, and any error leaves the offset where it was.
  function Consumed(f: Flow, p: Partition, apply: Fault, commit: Fault): Flow {
    var at := At(f.positions, p);
    if at >= |LogAt(f, p)| || apply == LostWrite then f
    else
      var f1 := f.(applied := Applied(f, LogAt(f, p)[at].id));
      if apply == LostAcknowledgement then f1
      else
        var f2 := f1.(positions := f1.positions[p := at + 1]);
        if commit == LostWrite then f2 else f2.(committed := f2.committed[p := at + 1])
  }

  function Crashed(f: Flow, p: Partition): Flow {
    f.(positions := f.positions[p := At(f.committed, p)])
  }

  function Next(spread: Spread, f: Flow, s: Step): Flow {
    match s
    case Append(r, fault) => Appended(spread, f, r, fault)
    case PublishPending(r, fault, marks) => Published(spread, f, r, fault, marks)
    case Consume(p, apply, commit) => Consumed(f, p, apply, commit)
    case Crash(p) => Crashed(f, p)
  }

  function Run(spread: Spread, f: Flow, steps: seq<Step>): Flow
    decreases |steps|
  {
    if steps == [] then f else Run(spread, Next(spread, f, steps[0]), steps[1..])
  }

  // ---- The invariant ----

  ghost predicate InJournal(f: Flow, id: EventId) {
    exists p, i :: p in f.logs && 0 <= i < |f.logs[p]| && f.logs[p][i].id == id
  }

  // The record itself, on the partition of its own topic and key.
  ghost predicate Logged(spread: Spread, f: Flow, r: Record) {
    r in LogAt(f, Partition(r.topic, spread(r.key)))
  }

  lemma LoggedGrows(spread: Spread, f: Flow, g: Flow, r: Record)
    requires Grows(f, g) && Logged(spread, f, r)
    ensures Logged(spread, g, r)
  {
    var p := Partition(r.topic, spread(r.key));
    var i :| 0 <= i < |LogAt(f, p)| && LogAt(f, p)[i] == r;
    assert LogAt(f, p) <= LogAt(g, p);
    assert LogAt(g, p)[i] == r;
  }

  lemma LoggedIsJournalled(spread: Spread, f: Flow, r: Record)
    requires Logged(spread, f, r)
    ensures InJournal(f, r.id)
  {
    var p := Partition(r.topic, spread(r.key));
    var i :| 0 <= i < |LogAt(f, p)| && LogAt(f, p)[i] == r;
    assert f.logs[p][i].id == r.id;
  }

  ghost predicate AppliedUpTo(f: Flow, p: Partition, n: nat) {
    n <= |LogAt(f, p)| && forall i :: 0 <= i < n ==> LogAt(f, p)[i].id in f.applied
  }

  ghost predicate Once(ids: seq<EventId>) {
    forall i, j :: 0 <= i < j < |ids| ==> ids[i] != ids[j]
  }

  ghost predicate Inv(f: Flow) {
    && (forall p :: AppliedUpTo(f, p, At(f.positions, p)))
    && (forall p :: At(f.committed, p) <= At(f.positions, p))
    && Once(f.applied)
    && (forall id :: id in f.applied ==> InJournal(f, id))
    && (forall r :: r in f.marked ==> InJournal(f, r.id))
  }

  ghost predicate Grows(f: Flow, g: Flow) {
    && (forall p :: LogAt(f, p) <= LogAt(g, p))
    && f.applied <= g.applied
    && f.marked <= g.marked
  }

  lemma JournalGrows(f: Flow, g: Flow, id: EventId)
    requires Grows(f, g) && InJournal(f, id)
    ensures InJournal(g, id)
  {
    var p, i :| p in f.logs && 0 <= i < |f.logs[p]| && f.logs[p][i].id == id;
    assert LogAt(f, p) <= LogAt(g, p);
    assert p in g.logs && g.logs[p][i] == f.logs[p][i];
  }

  lemma AppendHolds(spread: Spread, f: Flow, r: Record, fault: Fault)
    requires Inv(f)
    ensures Inv(Appended(spread, f, r, fault)) && Grows(f, Appended(spread, f, r, fault))
    ensures fault != LostWrite ==> Logged(spread, Appended(spread, f, r, fault), r)
  {
    var g := Appended(spread, f, r, fault);
    var p := PartitionOf(spread, r);
    assert Grows(f, g);
    forall id | InJournal(f, id) ensures InJournal(g, id) { JournalGrows(f, g, id); }
    if fault != LostWrite {
      assert g.logs[p][|LogAt(f, p)|] == r;
      LoggedIsJournalled(spread, g, r);
    }
    forall q ensures AppliedUpTo(g, q, At(g.positions, q)) { assert AppliedUpTo(f, q, At(f.positions, q)); }
  }

  lemma ConsumeHolds(f: Flow, p: Partition, apply: Fault, commit: Fault)
    requires Inv(f)
    ensures Inv(Consumed(f, p, apply, commit)) && Grows(f, Consumed(f, p, apply, commit))
  {
    var g := Consumed(f, p, apply, commit);
    var at := At(f.positions, p);
    if g != f {
      var id := LogAt(f, p)[at].id;
      assert f.logs[p][at].id == id && InJournal(f, id);
      forall j | j in g.applied ensures InJournal(g, j) {
        assert j in f.applied || j == id;
        JournalGrows(f, g, j);
      }
      assert id in g.applied by { if id !in f.applied { assert g.applied[|f.applied|] == id; } }
      forall q ensures AppliedUpTo(g, q, At(g.positions, q)) {
        assert AppliedUpTo(f, q, At(f.positions, q));
        forall i | 0 <= i < At(g.positions, q) ensures LogAt(g, q)[i].id in g.applied {
          if i < At(f.positions, q) { assert LogAt(f, q)[i].id in f.applied; }
        }
      }
      forall q ensures At(g.committed, q) <= At(g.positions, q) { assert At(f.committed, q) <= At(f.positions, q); }
      forall r | r in g.marked ensures InJournal(g, r.id) { JournalGrows(f, g, r.id); }
    }
  }

  lemma StepHolds(spread: Spread, f: Flow, s: Step)
    requires Inv(f)
    ensures Inv(Next(spread, f, s)) && Grows(f, Next(spread, f, s))
  {
    match s
    case Append(r, fault) => AppendHolds(spread, f, r, fault);
    case PublishPending(r, fault, marks) => AppendHolds(spread, f, r, fault); PublishHolds(spread, f, r, fault, marks);
    case Consume(p, apply, commit) => ConsumeHolds(f, p, apply, commit);
    case Crash(p) => CrashHolds(f, p);
  }

  lemma PublishHolds(spread: Spread, f: Flow, r: Record, fault: Fault, marks: bool)
    requires Inv(f)
    ensures Inv(Published(spread, f, r, fault, marks)) && Grows(f, Published(spread, f, r, fault, marks))
  {
    AppendHolds(spread, f, r, fault);
    var f1, g := Appended(spread, f, r, fault), Published(spread, f, r, fault, marks);
    assert Grows(f1, g);
    forall id | InJournal(f1, id) ensures InJournal(g, id) { JournalGrows(f1, g, id); }
    forall q ensures AppliedUpTo(g, q, At(g.positions, q)) { assert AppliedUpTo(f1, q, At(f1.positions, q)); }
  }

  lemma CrashHolds(f: Flow, p: Partition)
    requires Inv(f)
    ensures Inv(Crashed(f, p)) && Grows(f, Crashed(f, p))
  {
    var g := Crashed(f, p);
    forall q ensures AppliedUpTo(g, q, At(g.positions, q)) { assert AppliedUpTo(f, q, At(f.positions, q)); }
    forall id | InJournal(f, id) ensures InJournal(g, id) { JournalGrows(f, g, id); }
    forall q ensures At(g.committed, q) <= At(g.positions, q) { assert At(f.committed, q) <= At(f.positions, q); }
  }

  lemma {:induction false} RunHolds(spread: Spread, f: Flow, steps: seq<Step>)
    requires Inv(f)
    ensures Inv(Run(spread, f, steps)) && Grows(f, Run(spread, f, steps))
    decreases |steps|
  {
    if steps != [] {
      StepHolds(spread, f, steps[0]);
      RunHolds(spread, Next(spread, f, steps[0]), steps[1..]);
    }
  }

  // ---- Theorems over every run ----

  // A committed offset means that its effect is applied, and stays applied.
  lemma CommittedIsApplied(spread: Spread, steps: seq<Step>, more: seq<Step>, p: Partition, i: nat)
    requires i < At(Run(spread, Empty, steps).committed, p)
    ensures
      var f := Run(spread, Empty, steps);
      i < |LogAt(f, p)| && LogAt(f, p)[i].id in Run(spread, f, more).applied
  {
    var f := Run(spread, Empty, steps);
    RunHolds(spread, Empty, steps);
    RunHolds(spread, f, more);
    assert AppliedUpTo(f, p, At(f.positions, p));
    assert LogAt(f, p)[i].id in f.applied;
    var k :| 0 <= k < |f.applied| && f.applied[k] == LogAt(f, p)[i].id;
    assert Run(spread, f, more).applied[k] == f.applied[k];
  }

  ghost predicate Drained(f: Flow) {
    forall p :: At(f.committed, p) == |LogAt(f, p)|
  }

  // Once the log is drained the effects are exactly the journal's events, each once,
  // whatever was retried, appended twice, relocated to another topic or crashed.
  lemma DrainedIsExactlyOnce(spread: Spread, steps: seq<Step>, id: EventId)
    requires Drained(Run(spread, Empty, steps))
    ensures
      var f := Run(spread, Empty, steps);
      multiset(f.applied)[id] == if InJournal(f, id) then 1 else 0
  {
    RunHolds(spread, Empty, steps);
    DrainedMeans(Run(spread, Empty, steps), id);
  }

  lemma DrainedMeans(f: Flow, id: EventId)
    requires Inv(f) && Drained(f)
    ensures multiset(f.applied)[id] == if InJournal(f, id) then 1 else 0
  {
    if InJournal(f, id) {
      var p, i :| p in f.logs && 0 <= i < |f.logs[p]| && f.logs[p][i].id == id;
      assert At(f.committed, p) == |LogAt(f, p)| && AppliedUpTo(f, p, At(f.positions, p));
      assert LogAt(f, p)[i].id in f.applied;
    }
    OnceCounts(f.applied, id);
  }

  lemma {:induction false} OnceCounts(ids: seq<EventId>, id: EventId)
    requires Once(ids)
    ensures multiset(ids)[id] == if id in ids then 1 else 0
  {
    if ids != [] {
      var front, last := ids[..|ids| - 1], ids[|ids| - 1];
      OnceCounts(front, id);
      assert ids == front + [last];
      if last == id {
        assert forall i :: 0 <= i < |front| ==> front[i] == ids[i] && front[i] != id;
        assert id !in multiset(front);
      }
    }
  }

  // ---- The same steps as code ----

  datatype Acknowledgement = Acknowledgement(id: EventId, topic: string, partition: int, offset: int)

  class Plane {
    const spread: Spread
    var logs: map<Partition, seq<Record>>
    var marked: set<Record>
    var positions: map<Partition, nat>
    var committed: map<Partition, nat>
    var applied: seq<EventId>

    ghost function Fields(): Flow reads this { Flow(logs, marked, positions, committed, applied) }

    constructor (spread: Spread)
      ensures this.spread == spread && Fields() == Empty
    {
      this.spread := spread;
      logs, marked, positions, committed, applied := map[], {}, map[], map[], [];
    }

    // The journal port: durable unless LostWrite, acknowledged only without a fault.
    method Append(r: Record, fault: Fault) returns (ack: Option<Acknowledgement>)
      modifies `logs
      ensures Fields() == Appended(spread, old(Fields()), r, fault)
      ensures ack.Some? <==> fault == NoFault
      ensures ack.Some? ==>
        ack.value.id == r.id && ack.value.topic == r.topic && ack.value.partition >= 0 && ack.value.offset >= 0
    {
      if fault == LostWrite {
        return None;
      }
      var p := Partition(r.topic, spread(r.key));
      var log := if p in logs then logs[p] else [];
      logs := logs[p := log + [r]];
      ack := if fault == NoFault then Some(Acknowledgement(r.id, r.topic, p.number, |log|)) else None;
    }

    method PublishPending(r: Record, fault: Fault, marks: bool) returns (ok: bool)
      modifies `logs, `marked
      ensures Fields() == Published(spread, old(Fields()), r, fault, marks)
      ensures ok <==> fault == NoFault && marks
      ensures marked == if ok then old(marked) + {r} else old(marked)
    {
      var ack := Append(r, fault);
      if ack.None? || ack.value.id != r.id || ack.value.topic != r.topic || ack.value.partition < 0
        || ack.value.offset < 0
      {
        return false;
      }
      if !marks {
        return false;
      }
      marked := marked + {r};
      return true;
    }

    method ConsumeNext(p: Partition, apply: Fault, commit: Fault) returns (ok: bool)
      modifies `positions, `committed, `applied
      ensures Fields() == Consumed(old(Fields()), p, apply, commit)
      ensures ok <==> At(old(positions), p) < |LogAt(old(Fields()), p)| && apply == NoFault && commit == NoFault
      ensures ok ==> At(committed, p) == At(old(positions), p) + 1
      ensures apply != NoFault ==> positions == old(positions) && committed == old(committed)
      ensures commit == LostWrite ==> committed == old(committed)
    {
      var log := if p in logs then logs[p] else [];
      var at := At(positions, p);
      if at >= |log| {
        return false;
      }
      var r := log[at];
      if apply == LostWrite {
        return false;
      }
      if r.id !in applied { applied := applied + [r.id]; }
      if apply == LostAcknowledgement {
        return false;
      }
      positions := positions[p := at + 1];
      if commit == LostWrite {
        return false;
      }
      committed := committed[p := at + 1];
      ok := commit == NoFault;
    }

    method Restart(p: Partition)
      modifies `positions
      ensures Fields() == Crashed(old(Fields()), p)
    {
      positions := positions[p := At(committed, p)];
    }

    // Anything else that happens to the plane.
    method Await(steps: seq<Step>)
      modifies this
      ensures Fields() == Run(spread, old(Fields()), steps)
    {
      for i := 0 to |steps|
        invariant Run(spread, old(Fields()), steps) == Run(spread, Fields(), steps[i..])
      {
        assert steps[i..][0] == steps[i] && steps[i..][1..] == steps[i + 1..];
        match steps[i]
        case Append(r, fault) => var _ := Append(r, fault);
        case PublishPending(r, fault, marks) => var _ := PublishPending(r, fault, marks);
        case Consume(p, apply, commit) => var _ := ConsumeNext(p, apply, commit);
        case Crash(p) => Restart(p);
      }
    }
  }
}
