// What every interleaving of change calls keeps. The store moves only in the
// serializable transaction, so the reachable stores are Commits(initial, calls).

module StatusProtocol {
  import opened Common
  import opened StatusService

  // Initially no receipts, and work already started only on finished predecessors.
  ghost predicate Initial(s: Store) {
    s.receipts == map[] && s.log == [] && PrerequisitesHold(s)
  }

  // A package that is In progress, Review or Done has all predecessors Done.
  ghost predicate PrerequisitesHold(s: Store) {
    forall ref :: ref in s.packages && s.packages[ref].status in {InProgress, Review, Done} ==>
      AllDone(s, ref.scope, s.packages[ref].predecessors)
  }

  function LogOf(log: seq<Entry>, ref: Ref): seq<Entry> {
    if log == [] then []
    else LogOf(log[..|log| - 1], ref) + if Last(log).ref == ref then [Last(log)] else []
  }

  // Where a status is entered from: forward one stage at a time, back from Review, out of
  // Blocked only to the start or into work, and into Blocked from anything unfinished.
  function EnteredFrom(to: Status): set<Status> {
    match to
    case NotStarted => {Blocked}
    case InProgress => {NotStarted, Blocked, Review}
    case Blocked => {NotStarted, InProgress, Review}
    case Review => {InProgress}
    case Done => {Review}
  }

  // A status history: such steps from one status to another.
  predicate Path(from: Status, steps: seq<Entry>, to: Status) {
    if steps == [] then from == to
    else
      var last := Last(steps);
      last.receipt.status == to && last.from in EnteredFrom(to) && Path(from, steps[..|steps| - 1], last.from)
  }

  ghost predicate AllDone(s: Store, scope: Scope, ids: seq<string>) {
    forall i :: 0 <= i < |ids| ==> Ref(scope, ids[i]) in s.packages && s.packages[Ref(scope, ids[i])].status == Done
  }

  // A change that this store admits: the version it names, a step of the table, and for
  // started or finished work every predecessor Done.
  ghost predicate Admits(s: Store, c: Call) {
    var ref := Ref(c.scope, c.change.id);
    && ref in s.packages && s.packages[ref].version == c.change.expectedVersion
    && s.packages[ref].status in EnteredFrom(c.change.status)
    && (c.change.status in {InProgress, Review, Done} ==> AllDone(s, c.scope, s.packages[ref].predecessors))
  }

  ghost predicate Numbered(version: int, steps: seq<Entry>) {
    forall i :: 0 <= i < |steps| ==> steps[i].receipt.version == version + i + 1
  }

  // A package against what it was before any call.
  ghost predicate Accounted(before: WorkPackage, after: WorkPackage, steps: seq<Entry>) {
    && after.predecessors == before.predecessors
    && after.version == before.version + |steps|
    && Path(before.status, steps, after.status)
    && Numbered(before.version, steps)
  }

  // One log entry per receipt.
  ghost predicate LogMatches(s: Store) {
    && (forall i :: 0 <= i < |s.log| ==> s.log[i].key in s.receipts && s.receipts[s.log[i].key] == s.log[i].receipt)
    && (forall i, j :: 0 <= i < j < |s.log| ==> s.log[i].key != s.log[j].key)
    && |s.receipts| == |s.log|
  }

  ghost predicate Inv(s0: Store, s: Store) {
    && s.packages.Keys == s0.packages.Keys
    && (forall ref :: ref in s0.packages ==> Accounted(s0.packages[ref], s.packages[ref], LogOf(s.log, ref)))
    && LogMatches(s)
    && PrerequisitesHold(s)
  }

  lemma InitialHolds(s: Store)
    requires Initial(s)
    ensures Inv(s, s)
  {
  }

  predicate Persists(s: Store, c: Call) { |Apply(s, c).log| > |s.log| }

  // A persisting call is exactly an accepted change.
  lemma PersistMeans(s: Store, c: Call)
    ensures Persists(s, c) || Apply(s, c) == s
    ensures Persists(s, c) ==>
      && ValidCall(c) && KeyOf(c) !in s.receipts && Admits(s, c)
      && Apply(s, c) == Persist(s, c,
        Receipt(c.change.id, c.change.status, c.change.expectedVersion + 1, c.eventId, IntentOf(c.change)))
  {
  }

  lemma LogOfAppend(log: seq<Entry>, e: Entry, ref: Ref)
    ensures LogOf(log + [e], ref) == if e.ref == ref then LogOf(log, ref) + [e] else LogOf(log, ref)
  {
    assert (log + [e])[..|log|] == log;
  }

  lemma AccountedStep(before: WorkPackage, p: WorkPackage, steps: seq<Entry>, e: Entry)
    requires Accounted(before, p, steps)
    requires e.from == p.status && p.status in EnteredFrom(e.receipt.status) && e.receipt.version == p.version + 1
    ensures Accounted(before, p.(status := e.receipt.status, version := e.receipt.version), steps + [e])
  {
    assert (steps + [e])[..|steps|] == steps;
  }

  // Nothing that was Done stops being Done, so prerequisites stay met.
  lemma PrerequisitesStep(s: Store, c: Call)
    requires PrerequisitesHold(s)
    ensures PrerequisitesHold(Apply(s, c))
  {
    PersistMeans(s, c);
    if Persists(s, c) {
      var s' := Apply(s, c);
      forall ref | ref in s'.packages && s'.packages[ref].status in {InProgress, Review, Done}
        ensures AllDone(s', ref.scope, s'.packages[ref].predecessors)
      {
        assert AllDone(s, ref.scope, s.packages[ref].predecessors);
      }
    }
  }

  lemma LogMatchesPersist(s: Store, c: Call, r: Receipt)
    requires LogMatches(s) && RefOf(c) in s.packages && KeyOf(c) !in s.receipts
    ensures LogMatches(Persist(s, c, r))
  {
    var s' := Persist(s, c, r);
    assert forall i :: 0 <= i < |s.log| ==> s'.log[i] == s.log[i] && s.log[i].key != KeyOf(c);
  }

  lemma AllAccountedStep(s0: Store, s: Store, c: Call)
    requires s.packages.Keys == s0.packages.Keys && Persists(s, c)
    requires forall ref :: ref in s0.packages ==> Accounted(s0.packages[ref], s.packages[ref], LogOf(s.log, ref))
    ensures
      var s' := Apply(s, c);
      && s'.packages.Keys == s0.packages.Keys
      && forall ref :: ref in s0.packages ==> Accounted(s0.packages[ref], s'.packages[ref], LogOf(s'.log, ref))
  {
    PersistMeans(s, c);
    var s' := Apply(s, c);
    var e := Last(s'.log);
    assert s'.log == s.log + [e];
    forall ref | ref in s0.packages ensures Accounted(s0.packages[ref], s'.packages[ref], LogOf(s'.log, ref)) {
      LogOfAppend(s.log, e, ref);
      if ref == RefOf(c) {
        AccountedStep(s0.packages[ref], s.packages[ref], LogOf(s.log, ref), e);
        assert s'.packages[ref] == s.packages[ref].(status := e.receipt.status, version := e.receipt.version);
      } else {
        assert s'.packages[ref] == s.packages[ref];
      }
    }
  }

  lemma StepHolds(s0: Store, s: Store, c: Call)
    requires Inv(s0, s)
    ensures Inv(s0, Apply(s, c))
  {
    PersistMeans(s, c);
    if Persists(s, c) {
      PrerequisitesStep(s, c);
      AllAccountedStep(s0, s, c);
      LogMatchesPersist(s, c, Last(Apply(s, c).log).receipt);
    }
  }

  lemma {:induction false} CommitsHold(s0: Store, s: Store, calls: seq<Call>)
    requires Inv(s0, s)
    ensures Inv(s0, Commits(s, calls))
    decreases |calls|
  {
    if calls != [] {
      StepHolds(s0, s, calls[0]);
      CommitsHold(s0, Apply(s, calls[0]), calls[1..]);
    }
  }

  // In every reachable store a package's version is its initial version plus the
  // receipts persisted for it, its history is a path in the transition table, and
  // started or finished work has finished predecessors.
  lemma ReachableStoresAreAccounted(s: Store, calls: seq<Call>, ref: Ref)
    requires Initial(s) && ref in s.packages
    ensures
      var t := Commits(s, calls);
      && ref in t.packages
      && t.packages[ref].version == s.packages[ref].version + |LogOf(t.log, ref)|
      && Path(s.packages[ref].status, LogOf(t.log, ref), t.packages[ref].status)
      && t.packages[ref].predecessors == s.packages[ref].predecessors
      && (t.packages[ref].status in {InProgress, Review, Done} ==>
          forall i :: 0 <= i < |t.packages[ref].predecessors| ==>
            var before := Ref(ref.scope, t.packages[ref].predecessors[i]);
            before in t.packages && t.packages[before].status == Done)
  {
    InitialHolds(s);
    CommitsHold(s, s, calls);
  }

  predicate SameKey(c: Call, d: Call) {
    c.scope == d.scope && c.actorId == d.actorId && c.change.idempotencyKey == d.change.idempotencyKey
  }

  lemma {:induction false} KeysAreOfCalls(s: Store, calls: seq<Call>, c: Call)
    requires KeyOf(c) in Commits(s, calls).receipts
    ensures KeyOf(c) in s.receipts || exists i :: 0 <= i < |calls| && SameKey(calls[i], c)
    decreases |calls|
  {
    if calls != [] {
      PersistMeans(s, calls[0]);
      KeysAreOfCalls(Apply(s, calls[0]), calls[1..], c);
      if i :| 0 <= i < |calls| - 1 && SameKey(calls[1..][i], c) { assert SameKey(calls[i + 1], c); }
    }
  }

  // A call whose actor has not used its key in its scope is decided by the packages
  // alone, in every reachable store: it is done exactly when the store admits it, it then
  // changes this one package, and a refusal names the first thing that is wrong.
  lemma FreshCallIsDecided(s: Store, calls: seq<Call>, c: Call)
    requires s.receipts == map[] && forall i :: 0 <= i < |calls| ==> !SameKey(calls[i], c)
    ensures
      var t := Commits(s, calls);
      var (after, r) := Transact(t, c);
      && (r.Ok? <==> Admits(t, c))
      && (r.Ok? ==> Changed(t, c, after, r.value))
      && (r.Err? ==> after == t && Refused(t, c, r.error))
  {
    if KeyOf(c) in Commits(s, calls).receipts { KeysAreOfCalls(s, calls, c); }
  }

  ghost predicate Changed(s: Store, c: Call, after: Store, r: Receipt)
    requires Ref(c.scope, c.change.id) in s.packages
  {
    var key, ref := KeyHash(c.scope, c.actorId, c.change.idempotencyKey), Ref(c.scope, c.change.id);
    var intent := Intent(c.change.id, c.change.status, c.change.expectedVersion, c.change.reasonCode,
      c.change.evidenceRef);
    var p := s.packages[ref];
    && r == Receipt(c.change.id, c.change.status, p.version + 1, c.eventId, intent)
    && after.packages == s.packages[ref := WorkPackage(c.change.status, p.version + 1, p.predecessors)]
    && after.receipts == s.receipts[key := r]
    && after.log == s.log + [Entry(key, ref, p.status, r)]
  }

  ghost predicate Refused(s: Store, c: Call, code: string) {
    var ref := Ref(c.scope, c.change.id);
    if ref !in s.packages then code == "NOT_FOUND"
    else if s.packages[ref].version != c.change.expectedVersion then code == "VERSION_CONFLICT"
    else if s.packages[ref].status !in EnteredFrom(c.change.status) then code == "INVALID_TRANSITION"
    else code == "PREDECESSORS_BLOCKED" && !AllDone(s, c.scope, s.packages[ref].predecessors)
  }

  // Done is never left.
  lemma {:induction false} DoneIsFinal(s: Store, calls: seq<Call>, ref: Ref)
    requires ref in s.packages && s.packages[ref].status == Done
    ensures ref in Commits(s, calls).packages && Commits(s, calls).packages[ref] == s.packages[ref]
    decreases |calls|
  {
    if calls != [] {
      PersistMeans(s, calls[0]);
      DoneIsFinal(Apply(s, calls[0]), calls[1..], ref);
    }
  }

  // One change per key, however many calls raced past the outer lookup; from then on
  // the same intent gets that receipt and another intent conflicts without effect.
  lemma OneChangePerKey(s: Store, calls: seq<Call>, i: nat, j: nat)
    requires Initial(s) && i < |Commits(s, calls).log| && j < |Commits(s, calls).log|
    ensures
      var log := Commits(s, calls).log;
      log[i].key == log[j].key ==> i == j
  {
    InitialHolds(s);
    CommitsHold(s, s, calls);
  }

  lemma ReplayReturnsTheReceipt(s: Store, c: Call, more: seq<Call>, again: Call)
    requires ValidCall(c) && Transact(s, c).1.Ok?
    requires SameKey(again, c)
    ensures
      var later := Commits(Apply(s, c), more);
      Transact(later, again) ==
        (later, if again.change == c.change then Transact(s, c).1 else Err("IDEMPOTENCY_CONFLICT"))
  {
    CommitsKeepReceipts(Apply(s, c), more, KeyOf(c));
  }
}
