// StatusService of backend/services/core/src/status-service.ts over its repository
// port. SHA-256 over canonical fields is the tuple of those fields.

module StatusService {
  import opened Common
  import Names

  datatype Status = NotStarted | InProgress | Blocked | Review | Done

  function Transitions(s: Status): set<Status> {
    match s
    case NotStarted => {InProgress, Blocked}
    case InProgress => {Review, Blocked}
    case Blocked => {InProgress, NotStarted}
    case Review => {Done, InProgress, Blocked}
    case Done => {}
  }

  predicate NeedsPredecessors(s: Status) { s in {InProgress, Review, Done} }

  datatype Scope = Scope(tenantId: string, workspaceId: string, environmentId: string)
  datatype Change = Change(
    id: string, status: Status, expectedVersion: int,
    idempotencyKey: string, reasonCode: string, evidenceRef: Option<string>)
  datatype EvidenceGate = EvidenceGate(
    implementation: bool, automatedAcceptance: bool, securityReview: bool,
    documentation: bool, rolloutRollback: bool, externalApprovals: bool)

  datatype KeyHash = KeyHash(scope: Scope, actorId: string, idempotencyKey: string)
  datatype Intent = Intent(id: string, status: Status, expectedVersion: int, reasonCode: string,
    evidenceRef: Option<string>)
  datatype Receipt = Receipt(id: string, status: Status, version: int, eventId: nat, intent: Intent)

  // Row-level scoping: packages and receipts are looked up within a scope.
  datatype Ref = Ref(scope: Scope, id: string)
  datatype WorkPackage = WorkPackage(status: Status, version: int, predecessors: seq<string>)
  datatype Entry = Entry(key: KeyHash, ref: Ref, from: Status, receipt: Receipt)
  datatype Store = Store(packages: map<Ref, WorkPackage>, receipts: map<KeyHash, Receipt>, log: seq<Entry>)

  // One authorized call, as it reaches the transaction.
  datatype Call = Call(scope: Scope, actorId: string, change: Change, eventId: nat)

  function KeyOf(c: Call): KeyHash { KeyHash(c.scope, c.actorId, c.change.idempotencyKey) }

  function IntentOf(c: Change): Intent {
    Intent(c.id, c.status, c.expectedVersion, c.reasonCode, c.evidenceRef)
  }

  function RefOf(c: Call): Ref { Ref(c.scope, c.change.id) }

  // ---- Input rules ----

  predicate UuidAnyCase(s: string) {
    && |s| == 36
    && forall i :: 0 <= i < 36 ==>
      if i in {8, 13, 18, 23} then s[i] == '-' else Names.LowerHex(s[i]) || 'A' <= s[i] <= 'F'
  }

  predicate PackageId(s: string) {
    && 6 <= |s| <= 8 && s[|s| - 4] == '-'
    && (forall i :: 0 <= i < |s| - 4 ==> 'A' <= s[i] <= 'Z')
    && forall i :: |s| - 3 <= i < |s| ==> Names.Digit(s[i])
  }

  predicate IdempotencyKey(s: string) {
    16 <= |s| <= 128 && forall i :: 0 <= i < |s| ==> Names.AlphaNum(s[i]) || s[i] in {'_', '.', ':', '-'}
  }

  predicate ReasonCode(s: string) {
    && 1 <= |s| <= 128 && Names.Lower(s[0])
    && forall i :: 0 <= i < |s| ==> Names.Lower(s[i]) || Names.Digit(s[i]) || s[i] == '_'
  }

  predicate ValidCall(c: Call) {
    && UuidAnyCase(c.scope.tenantId) && UuidAnyCase(c.scope.workspaceId)
    && UuidAnyCase(c.scope.environmentId) && UuidAnyCase(c.actorId)
    && PackageId(c.change.id)
    && 1 <= c.change.expectedVersion <= MAX_SAFE_INTEGER
    && IdempotencyKey(c.change.idempotencyKey) && ReasonCode(c.change.reasonCode)
    && (c.change.evidenceRef.Some? ==> |c.change.evidenceRef.value| <= 2048)
  }

  // ---- The serializable transaction ----

  predicate PredecessorsVerified(s: Store, scope: Scope, ids: seq<string>) {
    forall i :: 0 <= i < |ids| ==> Ref(scope, ids[i]) in s.packages && s.packages[Ref(scope, ids[i])].status == Done
  }

  function Persist(s: Store, c: Call, r: Receipt): Store
    requires RefOf(c) in s.packages
  {
    var p := s.packages[RefOf(c)];
    Store(s.packages[RefOf(c) := p.(status := r.status, version := r.version)],
          s.receipts[KeyOf(c) := r],
          s.log + [Entry(KeyOf(c), RefOf(c), p.status, r)])
  }

  function Transact(s: Store, c: Call): (Store, Result<Receipt>) {
    var key, ref, intent := KeyOf(c), RefOf(c), IntentOf(c.change);
    if key in s.receipts then
      (s, if s.receipts[key].intent == intent then Ok(s.receipts[key]) else Err("IDEMPOTENCY_CONFLICT"))
    else if ref !in s.packages then (s, Err("NOT_FOUND"))
    else
      var p := s.packages[ref];
      if p.version != c.change.expectedVersion then (s, Err("VERSION_CONFLICT"))
      else if c.change.status !in Transitions(p.status) then (s, Err("INVALID_TRANSITION"))
      else if NeedsPredecessors(c.change.status) && !PredecessorsVerified(s, c.scope, p.predecessors) then
        (s, Err("PREDECESSORS_BLOCKED"))
      else
        var r := Receipt(c.change.id, c.change.status, p.version + 1, c.eventId, intent);
        (Persist(s, c, r), Ok(r))
  }

  // What other callers' transactions do meanwhile; malformed calls never get there.
  function Apply(s: Store, c: Call): Store {
    if ValidCall(c) then Transact(s, c).0 else s
  }

  function Commits(s: Store, calls: seq<Call>): Store
    decreases |calls|
  {
    if calls == [] then s else Commits(Apply(s, calls[0]), calls[1..])
  }

  lemma {:induction false} CommitsKeepReceipts(s: Store, calls: seq<Call>, key: KeyHash)
    requires key in s.receipts
    ensures key in Commits(s, calls).receipts && Commits(s, calls).receipts[key] == s.receipts[key]
    decreases |calls|
  {
    if calls != [] { CommitsKeepReceipts(Apply(s, calls[0]), calls[1..], key); }
  }

  predicate Complete(g: EvidenceGate) {
    && g.implementation && g.automatedAcceptance && g.securityReview
    && g.documentation && g.rolloutRollback && g.externalApprovals
  }

  // The white space and line terminators that trim() removes.
  predicate TrimmedAway(c: char) {
    var p := c as int;
    || 9 <= p <= 13 || p in {0x20, 0xA0, 0x1680, 0x2028, 0x2029, 0x202F, 0x205F, 0x3000, 0xFEFF}
    || 0x2000 <= p <= 0x200A
  }

  predicate Blank(s: string) { forall i :: 0 <= i < |s| ==> TrimmedAway(s[i]) }

  // A reference that is more than white space, and all six gates of it.
  predicate Referenced(c: Change) {
    c.evidenceRef.Some? && exists i :: 0 <= i < |c.evidenceRef.value| && !TrimmedAway(c.evidenceRef.value[i])
  }

  predicate EvidenceGiven(c: Change, gate: Option<EvidenceGate>) {
    Referenced(c) && gate == Some(EvidenceGate(true, true, true, true, true, true))
  }

  // The rejection of the repository's own promise.
  const ERR_UNAVAILABLE := "UNAVAILABLE"

  predicate Supported(c: Change, gate: Option<EvidenceGate>) {
    c.status == Done ==> EvidenceGiven(c, gate)
  }

  class Service {
    var packages: map<Ref, WorkPackage>
    var receipts: map<KeyHash, Receipt>
    var log: seq<Entry>

    ghost function Fields(): Store reads this { Store(packages, receipts, log) }

    constructor (packages: map<Ref, WorkPackage>)
      ensures Fields() == Store(packages, map[], [])
    {
      this.packages, receipts, log := packages, map[], [];
    }

    method PredecessorsDone(scope: Scope, ids: seq<string>) returns (ok: bool)
      ensures ok <==> PredecessorsVerified(Fields(), scope, ids)
    {
      for i := 0 to |ids|
        invariant forall k :: 0 <= k < i ==>
          Ref(scope, ids[k]) in packages && packages[Ref(scope, ids[k])].status == Done
      {
        var ref := Ref(scope, ids[i]);
        if ref !in packages || packages[ref].status != Done {
          return false;
        }
      }
      return true;
    }

    method Transaction(c: Call) returns (r: Result<Receipt>)
      modifies this
      ensures (Fields(), r) == Transact(old(Fields()), c)
    {
      var key, ref, intent := KeyOf(c), RefOf(c), IntentOf(c.change);
      if key in receipts {
        if receipts[key].intent != intent {
          return Err("IDEMPOTENCY_CONFLICT");
        }
        return Ok(receipts[key]);
      }
      if ref !in packages {
        return Err("NOT_FOUND");
      }
      var current := packages[ref];
      if current.version != c.change.expectedVersion {
        return Err("VERSION_CONFLICT");
      }
      if c.change.status !in Transitions(current.status) {
        return Err("INVALID_TRANSITION");
      }
      if NeedsPredecessors(c.change.status) {
        var verified := PredecessorsDone(c.scope, current.predecessors);
        if !verified {
          return Err("PREDECESSORS_BLOCKED");
        }
      }
      var receipt := Receipt(c.change.id, c.change.status, current.version + 1, c.eventId, intent);
      packages := packages[ref := current.(status := receipt.status, version := receipt.version)];
      receipts := receipts[key := receipt];
      log := log + [Entry(key, ref, current.status, receipt)];
      return Ok(receipt);
    }

    // An await: the transactions of other calls commit here.
    method Await(others: seq<Call>)
      modifies this
      ensures Fields() == Commits(old(Fields()), others)
    {
      for i := 0 to |others|
        invariant Commits(old(Fields()), others) == Commits(Fields(), others[i..])
      {
        assert others[i..][0] == others[i] && others[i..][1..] == others[i + 1..];
        if ValidCall(others[i]) {
          var _ := Transaction(others[i]);
        }
      }
    }

    // change(): optimistic receipt lookup, evidence outside the transaction, then the
    // transaction. before and during are whatever other calls commit at its awaits;
    // gate is what the verifier answers, None when it throws; fault is what becomes of
    // the transaction, which may be rejected or commit without an answer.
    method ChangeStatus(c: Call, granted: bool, before: seq<Call>, gate: Option<EvidenceGate>, during: seq<Call>,
        fault: Fault)
      returns (r: Result<Receipt>)
      modifies this
      // A returned receipt is durable, and it is the receipt of this very intent.
      ensures r.Ok? ==> KeyOf(c) in receipts && receipts[KeyOf(c)] == r.value && r.value.intent == IntentOf(c.change)
      // It is the call's own change on top of what the others did, or nothing at all.
      ensures ValidCall(c) && granted ==>
        || Fields() == Commits(old(Fields()), before)
        || Fields() == Commits(old(Fields()), before + during)
        || Fields() == Apply(Commits(old(Fields()), before + during), c)
      // A call that misses the outer lookup and has its evidence is decided by the
      // transaction alone, on the store as it is then.
      ensures ValidCall(c) && granted && KeyOf(c) !in Commits(old(Fields()), before).receipts ==>
        Supported(c.change, gate) ==>
        var store := Commits(old(Fields()), before + during);
        && Fields() == (if fault == LostWrite then store else Transact(store, c).0)
        && r == (if fault == NoFault then Transact(store, c).1 else Err(ERR_UNAVAILABLE))
      // A replay needs no evidence; another intent under the key conflicts.
      ensures ValidCall(c) && granted && KeyOf(c) in old(receipts) ==>
        r == if old(receipts)[KeyOf(c)].intent == IntentOf(c.change) then Ok(old(receipts)[KeyOf(c)])
          else Err("IDEMPOTENCY_CONFLICT")
      ensures ValidCall(c) && granted && KeyOf(c) in old(receipts) ==> Fields() == Commits(old(Fields()), before)
      // Done is new only with complete evidence.
      ensures ValidCall(c) && granted && KeyOf(c) !in Commits(old(Fields()), before).receipts ==>
        !Supported(c.change, gate) ==>
        && Fields() == Commits(old(Fields()), before)
        && r == Err(if !Referenced(c.change) then "EVIDENCE_REQUIRED"
          else if gate.None? then "EVIDENCE_UNAVAILABLE" else "ACCEPTANCE_INCOMPLETE")
      ensures !ValidCall(c) || !granted ==>
        r == Err(if ValidCall(c) then "DENIED" else "INVALID_INPUT") && Fields() == old(Fields())
    {
      if !ValidCall(c) {
        return Err("INVALID_INPUT");
      }
      if !granted {
        return Err("DENIED");
      }
      Await(before);
      if KeyOf(c) in old(receipts) { CommitsKeepReceipts(old(Fields()), before, KeyOf(c)); }
      if KeyOf(c) in receipts {
        if receipts[KeyOf(c)].intent != IntentOf(c.change) {
          return Err("IDEMPOTENCY_CONFLICT");
        }
        return Ok(receipts[KeyOf(c)]);
      }
      if c.change.status == Done {
        if c.change.evidenceRef.None? || Blank(c.change.evidenceRef.value) {
          return Err("EVIDENCE_REQUIRED");
        }
        if gate.None? {
          return Err("EVIDENCE_UNAVAILABLE");
        }
        if !Complete(gate.value) {
          return Err("ACCEPTANCE_INCOMPLETE");
        }
      }
      Await(during);
      CommitsConcat(old(Fields()), before, during);
      if fault == LostWrite {
        return Err(ERR_UNAVAILABLE);
      }
      r := Transaction(c);
      if fault == LostAcknowledgement {
        return Err(ERR_UNAVAILABLE);
      }
    }
  }

  lemma {:induction false} CommitsConcat(s: Store, a: seq<Call>, b: seq<Call>)
    ensures Commits(s, a + b) == Commits(Commits(s, a), b)
    decreases |a|
  {
    if a == [] {
      assert a + b == b;
    } else {
      CommitsConcat(Apply(s, a[0]), a[1..], b);
      assert (a + b)[1..] == a[1..] + b;
    }
  }
}
