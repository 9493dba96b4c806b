// The dependency check and the state machine together: over an accepted graph no
// reachable store is stuck, up to the largest version a request can name.

module StatusProgress {
  import opened Common
  import opened StatusService
  import opened StatusProtocol
  import opened DependencyGraph

  // The store's packages of a scope are the graph's, with its predecessors.
  ghost predicate Matches(g: Graph, s: Store, scope: Scope) {
    forall id :: (id in g <==> Ref(scope, id) in s.packages)
      && (id in g ==> s.packages[Ref(scope, id)].predecessors == g[id])
  }

  ghost predicate Finished(g: Graph, s: Store, scope: Scope) {
    forall id :: id in g ==> Ref(scope, id) in s.packages && s.packages[Ref(scope, id)].status == Done
  }

  // Accepted changes that lie between a status and Done.
  function Distance(s: Status): nat {
    match s
    case NotStarted => 3
    case Blocked => 3
    case InProgress => 2
    case Review => 1
    case Done => 0
  }

  function Toward(s: Status): Status {
    match s
    case NotStarted => InProgress
    case Blocked => InProgress
    case InProgress => Review
    case Review => Done
    case Done => Done
  }

  // Every version on the way can still be named as an expected version.
  predicate Nameable(p: WorkPackage) {
    p.status == Done || p.version + Distance(p.status) - 1 <= MAX_SAFE_INTEGER
  }

  ghost predicate AllPersist(s: Store, calls: seq<Call>)
    decreases |calls|
  {
    calls == [] || (Persists(s, calls[0]) && AllPersist(Apply(s, calls[0]), calls[1..]))
  }

  lemma PersistFirst(s: Store, c: Call, rest: seq<Call>)
    requires Persists(s, c) && AllPersist(Apply(s, c), rest)
    ensures AllPersist(s, [c] + rest) && Commits(s, [c] + rest) == Commits(Apply(s, c), rest)
  {
    var calls := [c] + rest;
    assert calls[0] == c && calls[1..] == rest;
  }

  // Some sequence of accepted changes brings every package to Done.
  ghost predicate Finishable(g: Graph, s: Store, scope: Scope) {
    exists calls :: AllPersist(s, calls) && Finished(g, Commits(s, calls), scope)
  }

  // Distinct, well-formed idempotency keys the actor has not used.
  ghost predicate Unused(s: Store, scope: Scope, actorId: string, keys: seq<string>) {
    && (forall i :: 0 <= i < |keys| ==> IdempotencyKey(keys[i]) && KeyHash(scope, actorId, keys[i]) !in s.receipts)
    && forall i, j :: 0 <= i < j < |keys| ==> keys[i] != keys[j]
  }

  ghost predicate ValidNames(g: Graph, scope: Scope, actorId: string) {
    && UuidAnyCase(scope.tenantId) && UuidAnyCase(scope.workspaceId)
    && UuidAnyCase(scope.environmentId) && UuidAnyCase(actorId)
    && forall id :: id in g ==> PackageId(id)
  }

  function StepCall(scope: Scope, actorId: string, id: string, p: WorkPackage, key: string): Call {
    Call(scope, actorId, Change(id, Toward(p.status), p.version, key, "advance", Some("evidence")), 0)
  }

  // One call moves a package with finished predecessors one step toward Done.
  lemma OneStep(s: Store, scope: Scope, actorId: string, id: string, keys: seq<string>)
    requires UuidAnyCase(scope.tenantId) && UuidAnyCase(scope.workspaceId)
    requires UuidAnyCase(scope.environmentId) && UuidAnyCase(actorId) && PackageId(id)
    requires Ref(scope, id) in s.packages && keys != [] && Unused(s, scope, actorId, keys)
    requires
      var p := s.packages[Ref(scope, id)];
      p.status != Done && p.version >= 1 && Nameable(p) && PredecessorsVerified(s, scope, p.predecessors)
    ensures
      var p := s.packages[Ref(scope, id)];
      var c := StepCall(scope, actorId, id, p, keys[0]);
      && Persists(s, c)
      && Apply(s, c).packages == s.packages[Ref(scope, id) := p.(status := Toward(p.status), version := p.version + 1)]
      && Unused(Apply(s, c), scope, actorId, keys[1..])
  {
    var p := s.packages[Ref(scope, id)];
    var c := StepCall(scope, actorId, id, p, keys[0]);
    assert ValidCall(c);
    assert Toward(p.status) in Transitions(p.status);
    assert Transact(s, c).1.Ok?;
    assert Apply(s, c).receipts.Keys == s.receipts.Keys + {KeyOf(c)};
    forall i | 0 <= i < |keys[1..]| ensures KeyHash(scope, actorId, keys[1..][i]) !in Apply(s, c).receipts {
      assert keys[1..][i] == keys[i + 1];
    }
  }

  ghost predicate Ready(g: Graph, s: Store, scope: Scope) {
    && Matches(g, s, scope)
    && forall id :: id in g ==> s.packages[Ref(scope, id)].version >= 1 && Nameable(s.packages[Ref(scope, id)])
  }

  lemma ReadyStep(g: Graph, order: seq<string>, i: nat, s: Store, t: Store, scope: Scope)
    requires Topological(g, order) && i < |order| && Ready(g, s, scope)
    requires forall k :: 0 <= k < i ==> s.packages[Ref(scope, order[k])].status == Done
    requires
      var ref := Ref(scope, order[i]);
      var p := s.packages[ref];
      p.status != Done && t.packages == s.packages[ref := p.(status := Toward(p.status), version := p.version + 1)]
    ensures Ready(g, t, scope)
    ensures forall k :: 0 <= k < i ==> t.packages[Ref(scope, order[k])].status == Done
  {
  }

  // Changes that finish order[i] and everything after it.
  function Remaining(order: seq<string>, i: nat, s: Store, scope: Scope): nat
    requires i <= |order| && forall k :: i <= k < |order| ==> Ref(scope, order[k]) in s.packages
  {
    if i == |order| then 0 else Distance(s.packages[Ref(scope, order[i])].status) + 3 * (|order| - i - 1)
  }

  // Following a topological order finishes everything.
  lemma {:induction false} FinishFrom(g: Graph, order: seq<string>, i: nat, s: Store, scope: Scope, actorId: string,
      keys: seq<string>)
    returns (calls: seq<Call>)
    requires Topological(g, order) && (forall k :: k in g ==> k in order) && i <= |order|
    requires Ready(g, s, scope) && ValidNames(g, scope, actorId)
    requires forall k :: 0 <= k < i ==> s.packages[Ref(scope, order[k])].status == Done
    requires Unused(s, scope, actorId, keys) && |keys| >= Remaining(order, i, s, scope)
    ensures AllPersist(s, calls) && Finished(g, Commits(s, calls), scope)
    decreases |order| - i, |keys|
  {
    if i == |order| {
      calls := [];
      forall id | id in g ensures s.packages[Ref(scope, id)].status == Done {
        var k :| 0 <= k < |order| && order[k] == id;
      }
    } else {
      var p := s.packages[Ref(scope, order[i])];
      if p.status == Done {
        calls := FinishFrom(g, order, i + 1, s, scope, actorId, keys);
      } else {
        PredecessorsAreDone(g, order, i, s, scope);
        OneStep(s, scope, actorId, order[i], keys);
        var c := StepCall(scope, actorId, order[i], p, keys[0]);
        ReadyStep(g, order, i, s, Apply(s, c), scope);
        var rest := FinishFrom(g, order, i, Apply(s, c), scope, actorId, keys[1..]);
        calls := [c] + rest;
        PersistFirst(s, c, rest);
      }
    }
  }

  lemma PredecessorsAreDone(g: Graph, order: seq<string>, i: nat, s: Store, scope: Scope)
    requires Topological(g, order) && i < |order| && Matches(g, s, scope)
    requires forall k :: 0 <= k < i ==> s.packages[Ref(scope, order[k])].status == Done
    ensures PredecessorsVerified(s, scope, s.packages[Ref(scope, order[i])].predecessors)
    ensures order[i] !in s.packages[Ref(scope, order[i])].predecessors
  {
    var ids := s.packages[Ref(scope, order[i])].predecessors;
    forall j | 0 <= j < |ids|
      ensures ids[j] != order[i] && Ref(scope, ids[j]) in s.packages && s.packages[Ref(scope, ids[j])].status == Done
    {
      assert ids[j] in g[order[i]];
      var k :| 0 <= k < i && order[..i][k] == ids[j];
      assert order[k] == ids[j];
    }
  }

  // Each accepted change closes at most one step of the distance and names a version.
  lemma {:induction false} DoneNeedsNames(s: Store, calls: seq<Call>, ref: Ref)
    requires ref in s.packages && ref in Commits(s, calls).packages
    requires Commits(s, calls).packages[ref].status == Done
    ensures Nameable(s.packages[ref])
    decreases |calls|
  {
    if calls != [] {
      PersistMeans(s, calls[0]);
      DoneNeedsNames(Apply(s, calls[0]), calls[1..], ref);
    }
  }

  // Over a graph the dependency check accepted, a store can be brought to all Done by
  // accepted changes exactly when every package's remaining versions are nameable.
  lemma FinishableIff(g: Graph, order: seq<string>, s: Store, scope: Scope, actorId: string, keys: seq<string>)
    requires Topological(g, order) && (forall k :: k in g ==> k in order)
    requires Matches(g, s, scope) && ValidNames(g, scope, actorId)
    requires forall id :: id in g ==> s.packages[Ref(scope, id)].version >= 1
    requires |keys| >= 3 * |order| && Unused(s, scope, actorId, keys)
    ensures Finishable(g, s, scope) <==> forall id :: id in g ==> Nameable(s.packages[Ref(scope, id)])
  {
    if forall id :: id in g ==> Nameable(s.packages[Ref(scope, id)]) {
      var calls := FinishFrom(g, order, 0, s, scope, actorId, keys);
      assert Finishable(g, s, scope);
    }
    if Finishable(g, s, scope) {
      var calls :| AllPersist(s, calls) && Finished(g, Commits(s, calls), scope);
      forall id | id in g ensures Nameable(s.packages[Ref(scope, id)]) {
        DoneNeedsNames(s, calls, Ref(scope, id));
      }
    }
  }

  // Every reachable store of an accepted graph, not only an initial one.
  lemma NeverStuck(g: Graph, order: seq<string>, s0: Store, calls: seq<Call>, scope: Scope, actorId: string,
      keys: seq<string>)
    requires Topological(g, order) && (forall k :: k in g ==> k in order)
    requires Initial(s0) && Matches(g, s0, scope) && ValidNames(g, scope, actorId)
    requires forall ref :: ref in s0.packages ==> s0.packages[ref].version >= 1
    requires |keys| >= 3 * |order| && Unused(Commits(s0, calls), scope, actorId, keys)
    ensures
      var s := Commits(s0, calls);
      && Matches(g, s, scope)
      && (Finishable(g, s, scope) <==> forall id :: id in g ==> Nameable(s.packages[Ref(scope, id)]))
  {
    InitialHolds(s0);
    CommitsHold(s0, s0, calls);
    FinishableIff(g, order, Commits(s0, calls), scope, actorId, keys);
  }

  // The bound is real: a package at the last nameable version that is not in Review
  // can never be Done again.
  lemma LastVersionIsStuck(s: Store, calls: seq<Call>, ref: Ref)
    requires ref in s.packages && ref in Commits(s, calls).packages
    requires s.packages[ref].status == InProgress && s.packages[ref].version == MAX_SAFE_INTEGER
    ensures Commits(s, calls).packages[ref].status != Done
  {
    if Commits(s, calls).packages[ref].status == Done { DoneNeedsNames(s, calls, ref); }
  }
}
