// Record of backend/services/webhook-dispatcher/lifecycle/recorder.go over its ledger
// port, with other recorders committing in between.

module Recorder {
  import opened Common
  import opened Planner

  // SHA-256 over the canonical JSON of both.
  datatype ObservationHash = ObservationHash(key: Key, observation: Observation)

  datatype Receipt = Receipt(key: Key, version: nat, hash: ObservationHash, decision: Decision)

  datatype Snapshot = Snapshot(attempt: Attempt, recorded: Option<Receipt>)

  type Records = map<Key, Snapshot>

  // Attempts are filed under their own key.
  predicate Filed(r: Records) {
    forall k :: k in r ==> r[k].attempt.key == k
  }

  const ERR_CONFLICT := "WEBHOOK_RECEIPT_CONFLICT"
  const ERR_UNAVAILABLE := "WEBHOOK_RECEIPT_UNAVAILABLE"
  const ERR_DENIED := "WEBHOOK_RECEIPT_DENIED"

  function Desired(p: Policy, parse: ParseDate, a: Attempt, o: Observation): Result<Receipt>
    requires ValidPolicy(p)
  {
    var d := Plan(p, parse, a, o);
    if d.Err? then Err(d.error) else Ok(Receipt(a.key, a.version + 1, ObservationHash(a.key, o), d.value))
  }

  // ---- The ledger port: conditional, write-once, and able to lose either the write
  // or its acknowledgement ----

  datatype Proposal = Proposal(attempt: Attempt, receipt: Receipt, fault: Fault)

  predicate Open(r: Records, a: Attempt) {
    a.key in r && r[a.key].attempt == a && r[a.key].recorded.None?
  }

  function Commit(r: Records, q: Proposal): (Records, Result<Receipt>) {
    if !Open(r, q.attempt) then (r, Err(if q.fault == NoFault then ERR_CONFLICT else ERR_UNAVAILABLE))
    else if q.fault == LostWrite then (r, Err(ERR_UNAVAILABLE))
    else
      (r[q.attempt.key := Snapshot(q.attempt, Some(q.receipt))],
       if q.fault == NoFault then Ok(q.receipt) else Err(ERR_UNAVAILABLE))
  }

  function Commits(r: Records, qs: seq<Proposal>): Records
    decreases |qs|
  {
    if qs == [] then r else Commits(Commit(r, qs[0]).0, qs[1..])
  }

  // What a recorder proposes: the plan of an observation of that attempt.
  ghost predicate Genuine(p: Policy, parse: ParseDate, q: Proposal)
    requires ValidPolicy(p)
  {
    q.receipt.hash.key == q.attempt.key && Desired(p, parse, q.attempt, q.receipt.hash.observation) == Ok(q.receipt)
  }

  ghost predicate AllGenuine(p: Policy, parse: ParseDate, qs: seq<Proposal>)
    requires ValidPolicy(p)
  {
    forall i :: 0 <= i < |qs| ==> Genuine(p, parse, qs[i])
  }

  // Every recorded receipt is the plan of the observation it hashes.
  ghost predicate Explained(p: Policy, parse: ParseDate, r: Records)
    requires ValidPolicy(p)
  {
    && Filed(r)
    && forall k :: k in r && r[k].recorded.Some? ==>
      Desired(p, parse, r[k].attempt, r[k].recorded.value.hash.observation) == Ok(r[k].recorded.value)
  }

  // A receipt is written at most once and never changes; attempts never change.
  lemma {:induction false} WriteOnce(r: Records, qs: seq<Proposal>, k: Key)
    requires k in r
    ensures k in Commits(r, qs) && Commits(r, qs)[k].attempt == r[k].attempt
    ensures r[k].recorded.Some? ==> Commits(r, qs)[k].recorded == r[k].recorded
    decreases |qs|
  {
    if qs != [] { WriteOnce(Commit(r, qs[0]).0, qs[1..], k); }
  }

  lemma {:induction false} CommitsExplained(p: Policy, parse: ParseDate, r: Records, qs: seq<Proposal>)
    requires ValidPolicy(p) && Explained(p, parse, r) && AllGenuine(p, parse, qs)
    ensures Explained(p, parse, Commits(r, qs))
    decreases |qs|
  {
    if qs != [] {
      assert Genuine(p, parse, qs[0]);
      CommitsExplained(p, parse, Commit(r, qs[0]).0, qs[1..]);
    }
  }

  // Nothing filed or recorded is lost or replaced.
  ghost predicate Kept(a: Records, b: Records) {
    forall k :: k in a ==>
      k in b && b[k].attempt == a[k].attempt && (a[k].recorded.Some? ==> b[k].recorded == a[k].recorded)
  }

  lemma CommitsKeep(r: Records, qs: seq<Proposal>)
    ensures Kept(r, Commits(r, qs))
  {
    forall k | k in r
      ensures k in Commits(r, qs) && Commits(r, qs)[k].attempt == r[k].attempt
      ensures r[k].recorded.Some? ==> Commits(r, qs)[k].recorded == r[k].recorded
    {
      WriteOnce(r, qs, k);
    }
  }

  // A recorder's own commit.
  lemma CommitKeeps(p: Policy, parse: ParseDate, r: Records, q: Proposal)
    requires ValidPolicy(p) && Explained(p, parse, r)
    ensures Genuine(p, parse, q) ==> Explained(p, parse, Commit(r, q).0)
    ensures Kept(r, Commit(r, q).0)
    ensures Commit(r, q).1.Ok? ==>
      var k, after := q.attempt.key, Commit(r, q).0;
      k in after && after[k].recorded == Some(q.receipt) && Commit(r, q).1.value == q.receipt
  {
  }

  class Ledger {
    var records: Records

    constructor (records: Records)
      ensures this.records == records
    {
      this.records := records;
    }

    method Read(key: Key, fails: bool) returns (s: Option<Snapshot>)
      ensures s == if fails || key !in records then None else Some(records[key])
    {
      s := if fails || key !in records then None else Some(records[key]);
    }

    method CommitReceipt(q: Proposal) returns (r: Result<Receipt>)
      modifies this
      ensures (records, r) == Commit(old(records), q)
    {
      if q.attempt.key !in records || records[q.attempt.key].attempt != q.attempt
        || records[q.attempt.key].recorded.Some?
      {
        return Err(if q.fault == NoFault then ERR_CONFLICT else ERR_UNAVAILABLE);
      }
      if q.fault == LostWrite {
        return Err(ERR_UNAVAILABLE);
      }
      records := records[q.attempt.key := Snapshot(q.attempt, Some(q.receipt))];
      return if q.fault == NoFault then Ok(q.receipt) else Err(ERR_UNAVAILABLE);
    }

    // Other recorders commit here.
    method Await(others: seq<Proposal>)
      modifies this
      ensures records == Commits(old(records), others)
    {
      for i := 0 to |others|
        invariant Commits(old(records), others) == Commits(records, others[i..])
      {
        assert others[i..][0] == others[i] && others[i..][1..] == others[i + 1..];
        var _ := CommitReceipt(others[i]);
      }
    }
  }

  // ---- Record ----

  // What other recorders commit around the read, and what the ports do to this call;
  // rogue is what an adapter that breaks its contract returns from a commit.
  datatype Outside = Outside(
    granted: bool, before: seq<Proposal>, readFails: bool, during: seq<Proposal>, fault: Fault, rogue: Option<Receipt>)

  function RecordAll(p: Policy, parse: ParseDate, r: Records, key: Key, o: Observation, x: Outside)
    : (Records, Result<Receipt>)
    requires ValidPolicy(p)
  {
    if !ValidKey(key) then (r, Err(ERR_INPUT))
    else if !x.granted then (r, Err(ERR_DENIED))
    else
      var seen := Commits(r, x.before);
      if x.readFails || key !in seen || seen[key].attempt.key != key then (seen, Err(ERR_UNAVAILABLE))
      else
        var desired := Desired(p, parse, seen[key].attempt, o);
        if desired.Err? then (seen, desired)
        else if seen[key].recorded.Some? then
          (seen, if seen[key].recorded.value == desired.value then desired else Err(ERR_CONFLICT))
        else
          var own := Proposal(seen[key].attempt, desired.value, x.fault);
          var (after, committed) := Commit(Commits(seen, x.during), own);
          (after, if committed.Err? then committed
                  else if x.rogue.Some? && x.rogue.value != desired.value then Err(ERR_UNAVAILABLE) else desired)
  }

  method Record(ledger: Ledger, p: Policy, parse: ParseDate, key: Key, o: Observation, x: Outside)
    returns (r: Result<Receipt>)
    requires ValidPolicy(p)
    modifies ledger
    ensures (ledger.records, r) == RecordAll(p, parse, old(ledger.records), key, o, x)
  {
    if !ValidKey(key) {
      return Err(ERR_INPUT);
    }
    if !x.granted {
      return Err(ERR_DENIED);
    }
    ledger.Await(x.before);
    var snapshot := ledger.Read(key, x.readFails);
    if snapshot.None? || snapshot.value.attempt.key != key {
      return Err(ERR_UNAVAILABLE);
    }
    var desired := Desired(p, parse, snapshot.value.attempt, o);
    if desired.Err? {
      return desired;
    }
    if snapshot.value.recorded.Some? {
      if snapshot.value.recorded.value != desired.value {
        return Err(ERR_CONFLICT);
      }
      return desired;
    }
    ledger.Await(x.during);
    var committed := ledger.CommitReceipt(Proposal(snapshot.value.attempt, desired.value, x.fault));
    if committed.Err? {
      return committed;
    }
    if x.rogue.Some? && x.rogue.value != desired.value {
      return Err(ERR_UNAVAILABLE);
    }
    return desired;
  }

  // The ledger moves only by commits: the others' and at most this recorder's own.
  lemma RecordCommits(p: Policy, parse: ParseDate, r: Records, key: Key, o: Observation, x: Outside)
    returns (own: Option<Proposal>)
    requires ValidPolicy(p)
    ensures
      var after := RecordAll(p, parse, r, key, o, x).0;
      || after == r || after == Commits(r, x.before)
      || (own.Some? && Genuine(p, parse, own.value)
        && after == Commit(Commits(Commits(r, x.before), x.during), own.value).0)
  {
    own := None;
    var seen := Commits(r, x.before);
    if key in seen && seen[key].attempt.key == key {
      var desired := Desired(p, parse, seen[key].attempt, o);
      if desired.Ok? { own := Some(Proposal(seen[key].attempt, desired.value, x.fault)); }
    }
  }

  // Whatever happens around it, nothing recorded is lost or replaced, and every receipt
  // stays the plan of the observation it hashes.
  lemma RecordKeeps(p: Policy, parse: ParseDate, r: Records, key: Key, o: Observation, x: Outside)
    requires ValidPolicy(p) && Explained(p, parse, r) && AllGenuine(p, parse, x.before)
      && AllGenuine(p, parse, x.during)
    ensures Explained(p, parse, RecordAll(p, parse, r, key, o, x).0)
    ensures Kept(r, RecordAll(p, parse, r, key, o, x).0)
  {
    var own := RecordCommits(p, parse, r, key, o, x);
    var seen := Commits(r, x.before);
    CommitsExplained(p, parse, r, x.before);
    CommitsKeep(r, x.before);
    CommitsExplained(p, parse, seen, x.during);
    CommitsKeep(seen, x.during);
    if own.Some? { CommitKeeps(p, parse, Commits(seen, x.during), own.value); }
  }

  // A returned receipt is the recorded one: the plan of this observation of the filed
  // attempt, one version on.
  lemma SuccessIsRecorded(p: Policy, parse: ParseDate, r: Records, key: Key, o: Observation, x: Outside)
    requires ValidPolicy(p)
    ensures
      var (after, res) := RecordAll(p, parse, r, key, o, x);
      res.Ok? ==>
        && key in after && after[key].recorded == Some(res.value)
        && res.value.key == key && res.value.hash == ObservationHash(key, o)
        && res.value.version == after[key].attempt.version + 1
        && Plan(p, parse, after[key].attempt, o) == Ok(res.value.decision)
  {
  }

  // Exactly when a call succeeds: the caller may, the attempt is read and its observation
  // planned, and the receipt is on file already or this call's own commit of it is
  // acknowledged while the attempt is as it was read.
  lemma RecordSucceedsIff(p: Policy, parse: ParseDate, r: Records, key: Key, o: Observation, x: Outside)
    requires ValidPolicy(p)
    ensures
      var seen := Commits(r, x.before);
      RecordAll(p, parse, r, key, o, x).1.Ok? <==>
        && ValidKey(key) && x.granted && !x.readFails && key in seen && seen[key].attempt.key == key
        && var due := Desired(p, parse, seen[key].attempt, o);
           && due.Ok?
           && (seen[key].recorded == Some(due.value)
               || (seen[key].recorded.None? && x.fault == NoFault
                   && (x.rogue.None? || x.rogue == Some(due.value))
                   && key in Commits(seen, x.during) && Commits(seen, x.during)[key].recorded.None?))
  {
    var seen := Commits(r, x.before);
    if key in seen { WriteOnce(seen, x.during, key); }
  }

  // A failure names its cause, and without permission nothing moves.
  lemma FailureNamesItsCause(p: Policy, parse: ParseDate, r: Records, key: Key, o: Observation, x: Outside)
    requires ValidPolicy(p)
    ensures
      var (after, res) := RecordAll(p, parse, r, key, o, x);
      var seen := Commits(r, x.before);
      res.Err? ==>
        || (res.error == "WEBHOOK_LIFECYCLE_INPUT"
            && (!ValidKey(key) || (key in seen && Plan(p, parse, seen[key].attempt, o).Err?)))
        || (res.error == "WEBHOOK_RECEIPT_DENIED" && !x.granted && after == r)
        || (res.error == "WEBHOOK_RECEIPT_CONFLICT" && key in seen
            && (seen[key].recorded.Some? || !Open(Commits(seen, x.during), seen[key].attempt)))
        || (res.error == "WEBHOOK_RECEIPT_UNAVAILABLE"
            && (x.readFails || key !in seen || seen[key].attempt.key != key || x.fault != NoFault || x.rogue.Some?))
    ensures !ValidKey(key) || !x.granted ==>
      RecordAll(p, parse, r, key, o, x).0 == r && RecordAll(p, parse, r, key, o, x).1.Err?
  {
    var seen := Commits(r, x.before);
    if key in seen { UnplannedIsRefused(p, parse, seen[key].attempt, o); }
  }

  lemma UnplannedIsRefused(p: Policy, parse: ParseDate, a: Attempt, o: Observation)
    requires ValidPolicy(p)
    ensures Desired(p, parse, a, o).Err? ==> Plan(p, parse, a, o).Err?
    ensures Desired(p, parse, a, o).Err? ==> Desired(p, parse, a, o).error == "WEBHOOK_LIFECYCLE_INPUT"
  {
    RefusedIff(p, parse, a, o);
  }

  // A retry of the recorded observation recovers its receipt; another observation
  // conflicts, or is refused by the planner, and has no effect.
  lemma RetryRecovers(p: Policy, parse: ParseDate, r: Records, key: Key, o: Observation, x: Outside)
    requires ValidPolicy(p) && Explained(p, parse, r)
    requires key in r && r[key].recorded.Some?
    ensures
      var (after, res) := RecordAll(p, parse, r, key, o, x);
      var receipt := r[key].recorded.value;
      ValidKey(key) && x.granted && !x.readFails ==>
        && (receipt.hash == ObservationHash(key, o) ==> res == Ok(receipt))
        && (receipt.hash != ObservationHash(key, o) ==>
              res == if Plan(p, parse, r[key].attempt, o).Ok? then Err(ERR_CONFLICT)
                else Desired(p, parse, r[key].attempt, o))
        && after == Commits(r, x.before)
  {
    WriteOnce(r, x.before, key);
  }

  // An attempt still open when its own undisturbed commit arrives gets its receipt.
  lemma OpenAttemptIsRecorded(p: Policy, parse: ParseDate, r: Records, key: Key, o: Observation, x: Outside)
    requires ValidPolicy(p) && ValidKey(key) && x.granted && !x.readFails && x.fault == NoFault && x.rogue.None?
    requires key in Commits(r, x.before)
    ensures
      var a := Commits(r, x.before)[key].attempt;
      a.key == key && Desired(p, parse, a, o).Ok? && Open(Commits(Commits(r, x.before), x.during), a) ==>
        RecordAll(p, parse, r, key, o, x).1 == Desired(p, parse, a, o)
  {
    var seen := Commits(r, x.before);
    if seen[key].recorded.Some? { WriteOnce(seen, x.during, key); }
  }

  // Two calls of Record for one key that both succeed return the same receipt, whatever
  // their observations, whatever the ports did, and whatever was committed in between.
  lemma SuccessesAgree(p: Policy, parse: ParseDate, r: Records, key: Key, o1: Observation, x1: Outside,
      between: seq<Proposal>, o2: Observation, x2: Outside)
    requires ValidPolicy(p)
    ensures
      var (after, first) := RecordAll(p, parse, r, key, o1, x1);
      var (last, second) := RecordAll(p, parse, Commits(after, between), key, o2, x2);
      first.Ok? && second.Ok? ==> first == second && ObservationHash(key, o1) == ObservationHash(key, o2)
  {
    var (after, first) := RecordAll(p, parse, r, key, o1, x1);
    var middle := Commits(after, between);
    var (last, second) := RecordAll(p, parse, middle, key, o2, x2);
    SuccessIsRecorded(p, parse, r, key, o1, x1);
    SuccessIsRecorded(p, parse, middle, key, o2, x2);
    if first.Ok? {
      WriteOnce(after, between, key);
      CallKeeps(p, parse, middle, key, o2, x2, key);
    }
  }

  // No call replaces a receipt, with no assumption on what the others propose.
  lemma CallKeeps(p: Policy, parse: ParseDate, r: Records, key: Key, o: Observation, x: Outside, k: Key)
    requires ValidPolicy(p) && k in r && r[k].recorded.Some?
    ensures
      var after := RecordAll(p, parse, r, key, o, x).0;
      k in after && after[k].recorded == r[k].recorded
  {
    var own := RecordCommits(p, parse, r, key, o, x);
    WriteOnce(r, x.before, k);
    WriteOnce(Commits(r, x.before), x.during, k);
  }

  // After an acknowledgement was lost, the same observation finds its own receipt.
  lemma LostAcknowledgementIsRecovered(p: Policy, parse: ParseDate, r: Records, a: Attempt, o: Observation,
      more: seq<Proposal>)
    requires ValidPolicy(p) && Open(r, a)
    ensures Desired(p, parse, a, o).Ok? ==>
      var receipt := Desired(p, parse, a, o).value;
      var after := Commits(Commit(r, Proposal(a, receipt, LostAcknowledgement)).0, more);
      && Commit(r, Proposal(a, receipt, LostAcknowledgement)).1.Err?
      && a.key in after && after[a.key] == Snapshot(a, Some(receipt))
      && Desired(p, parse, after[a.key].attempt, o) == Ok(receipt)
  {
    if Desired(p, parse, a, o).Ok? {
      WriteOnce(Commit(r, Proposal(a, Desired(p, parse, a, o).value, LostAcknowledgement)).0, more, a.key);
    }
  }
}
