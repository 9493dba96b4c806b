// Any number of directories over one checkpoint store, interleaved at lock-section
// granularity. Every choice (whose turn, clock readings, faults) is in the Step, so
// a run is a fold over a sequence of steps.

module PlacementProtocol {
  import opened Common
  import opened PlacementEntries
  import opened PlacementDirectory
  import Names

  // Where a directory's one install slot is.
  datatype Phase =
    | Idle
    | Admitted(c: Candidate)
    | Loaded(c: Candidate, previous: Checkpoint)
    | Vetted(c: Candidate, previous: Checkpoint)
    | Writing(c: Candidate, previous: Checkpoint)
    | Unconfirmed
    | Activating(c: Candidate)

  // installed is a history variable: the version of the latest successful install.
  datatype Node = Node(options: Options, st: State, phase: Phase, installed: int)

  datatype System = System(history: seq<Checkpoint>, nodes: map<nat, Node>)

  datatype Step =
    | InstallBegin(request: Request, reading: int)
    | InstallAbort
    | InstallLoad
    | InstallVet
    | InstallCompare
    | InstallWrite(fault: Fault)
    | InstallDrop
    | InstallActivate(reading: int, cancelled: bool)
    | Resolve(reading: int, id: Identity)
    | Status(reading: int)
    | RevokeKey(keyId: string)

  datatype Action = Action(node: nat, step: Step)

  // One step of one directory; a step that does not fit its phase changes nothing.
  ghost function StepNode(t: Trust, n: Node, store: Checkpoint, step: Step): Node {
    match (step, n.phase)
    case (InstallBegin(r, reading), Idle) =>
      var (st, res) := Begin(n.options, t, n.st, r, reading);
      n.(st := st, phase := if res.Ok? then Admitted(res.value) else Idle)
    // A context or store error before anything is decided.
    case (InstallAbort, Admitted(_)) => n.(phase := Idle)
    case (InstallLoad, Admitted(c)) => n.(phase := Loaded(c, store))
    case (InstallVet, Loaded(c, previous)) =>
      var (st, res) := Vet(n.options, n.st, c, previous);
      n.(st := st, phase := if res.Ok? then Vetted(c, previous) else Idle)
    case (InstallCompare, Vetted(c, previous)) =>
      var (st, res) := Compare(n.st, c, previous);
      n.(st := st, phase := if res.Err? then Idle else if res.value then Writing(c, previous) else Activating(c))
    case (InstallWrite(fault), Writing(c, previous)) =>
      n.(phase := if fault == NoFault && Matches(store, previous) then Activating(c) else Unconfirmed)
    case (InstallDrop, Unconfirmed) => n.(st := n.st.(active := None), phase := Idle)
    case (InstallActivate(reading, cancelled), Activating(c)) =>
      var (st, res) := Activate(n.st, c, reading, cancelled);
      n.(st := st, phase := Idle, installed := if res.Ok? then c.snapshot.version else n.installed)
    case (Resolve(reading, id), _) => n.(st := ResolveAt(n.options, n.st, reading, id).0)
    case (Status(reading), _) => n.(st := StatusAt(n.options, n.st, reading).0)
    case (RevokeKey(k), _) => n.(st := Revoke(n.options, n.st, k).0)
    case _ => n
  }

  predicate Matches(store: Checkpoint, previous: Checkpoint) {
    store.version == previous.version && store.digest == previous.digest
  }

  function Store(s: System): Checkpoint
    requires s.history != []
  {
    Last(s.history)
  }

  // The store appends exactly when a compare-and-swap matches and is not lost.
  function StepStore(n: Node, history: seq<Checkpoint>, step: Step): seq<Checkpoint>
    requires history != []
  {
    if n.phase.Writing? && step.InstallWrite? && step.fault != LostWrite
      && Matches(Last(history), n.phase.previous)
    then
      history + [NextCheckpoint(n.phase.c)]
    else history
  }

  ghost function Next(t: Trust, s: System, a: Action): System
    requires s.history != []
  {
    if a.node !in s.nodes then s
    else
      var n := s.nodes[a.node];
      System(StepStore(n, s.history, a.step), s.nodes[a.node := StepNode(t, n, Store(s), a.step)])
  }

  ghost function Run(t: Trust, s: System, run: seq<Action>): (r: System)
    requires s.history != []
    ensures r.history != []
    decreases |run|
  {
    if run == [] then s else Run(t, Next(t, s, run[0]), run[1..])
  }

  // Every directory starts unloaded over one provisioned checkpoint.
  ghost predicate Initial(s: System) {
    && |s.history| == 1 && s.history[0].version >= 0
    && forall i :: i in s.nodes ==>
      s.nodes[i].st == Fresh && s.nodes[i].phase == Idle && s.nodes[i].installed == 0
  }

  // ---- The inductive invariant ----

  // Every written checkpoint lists an asset once; the provisioned one is not looked at
  // until an install builds on it.
  ghost predicate Linked(history: seq<Checkpoint>) {
    && (forall i, j :: 0 <= i < j < |history| ==>
      history[i].version < history[j].version && EpochsAdvance(history[i].entries, Index(history[j].entries)))
    && forall j :: 0 < j < |history| ==> Distinct(history[j].entries)
  }

  ghost predicate Recorded(history: seq<Checkpoint>, version: int, digest: Digest) {
    exists i :: 0 <= i < |history| && history[i].version == version && history[i].digest == digest
  }

  // A candidate is what its bytes decode to.
  ghost predicate Faithful(o: Options, t: Trust, c: Candidate) {
    && Genuine(o, t, c.raw, c.snapshot)
    && c.entries == Index(c.snapshot.entries) && c.key == o.keys[c.snapshot.keyId]
  }

  ghost predicate Servable(o: Options, t: Trust, history: seq<Checkpoint>, a: Active) {
    && a.digest.Sha256? && Genuine(o, t, a.digest.raw, a.document)
    && a.entries == Index(a.document.entries)
    && Recorded(history, a.document.version, a.digest)
  }

  ghost predicate PhaseHolds(t: Trust, history: seq<Checkpoint>, n: Node) {
    match n.phase
    case Idle => true
    case Unconfirmed => true
    case Admitted(c) => Faithful(n.options, t, c)
    case Loaded(c, previous) => Faithful(n.options, t, c) && previous in history && n.installed <= previous.version
    case Vetted(c, previous) =>
      && Faithful(n.options, t, c) && previous in history && n.installed <= previous.version <= c.snapshot.version
      && (previous.version == c.snapshot.version ==> previous.digest == Sha256(c.raw))
    case Writing(c, previous) =>
      && Faithful(n.options, t, c) && previous in history && n.installed <= previous.version < c.snapshot.version
      && EpochsAdvance(previous.entries, c.entries)
    case Activating(c) =>
      && Faithful(n.options, t, c) && n.installed <= c.snapshot.version
      && Recorded(history, c.snapshot.version, Sha256(c.raw))
  }

  ghost predicate NodeHolds(t: Trust, history: seq<Checkpoint>, n: Node)
    requires history != []
  {
    && PhaseHolds(t, history, n)
    && n.installed <= Last(history).version
    && StateHolds(n.options, t, history, n.st, n.installed)
  }

  ghost predicate StateHolds(o: Options, t: Trust, history: seq<Checkpoint>, st: State, installed: int) {
    st.active.Some? ==>
      && Servable(o, t, history, st.active.value)
      && st.active.value.document.version == installed
      && st.active.value.document.keyId !in st.revoked
  }

  ghost predicate Inv(t: Trust, s: System) {
    && s.history != [] && Linked(s.history)
    && forall i :: i in s.nodes ==> NodeHolds(t, s.history, s.nodes[i])
  }

  lemma InitialHolds(t: Trust, s: System)
    requires Initial(s)
    ensures Inv(t, s)
  {
  }

  // Appending what a compare-and-swap writes keeps the whole history linked.
  lemma StoreStepLinked(t: Trust, history: seq<Checkpoint>, n: Node, step: Step)
    requires history != [] && Linked(history) && NodeHolds(t, history, n)
    ensures Linked(StepStore(n, history, step))
  {
    var after := StepStore(n, history, step);
    if after != history {
      var c, previous := n.phase.c, n.phase.previous;
      var k :| 0 <= k < |history| && history[k] == previous;
      // Versions identify checkpoints, so the store still holds what was loaded.
      assert k == |history| - 1;
      forall i, j | 0 <= i < j < |after|
        ensures after[i].version < after[j].version && EpochsAdvance(after[i].entries, Index(after[j].entries))
      {
        if j == |history| && i < k {
          EpochsAdvanceTransitive(history[i].entries, previous.entries, c.snapshot.entries);
        }
      }
    }
  }

  lemma RecordedGrows(history: seq<Checkpoint>, more: seq<Checkpoint>, version: int, digest: Digest)
    requires history <= more && Recorded(history, version, digest)
    ensures Recorded(more, version, digest)
  {
    var i :| 0 <= i < |history| && history[i].version == version && history[i].digest == digest;
    assert more[i] == history[i];
  }

  // A directory that does not move is unaffected by the store growing.
  lemma OthersHold(t: Trust, history: seq<Checkpoint>, more: seq<Checkpoint>, n: Node)
    requires history != [] && history <= more && Linked(more) && NodeHolds(t, history, n)
    ensures NodeHolds(t, more, n)
  {
    assert Last(history) == more[|history| - 1];
    if n.phase.Activating? { RecordedGrows(history, more, n.phase.c.snapshot.version, Sha256(n.phase.c.raw)); }
    if n.st.active.Some? {
      RecordedGrows(history, more, n.st.active.value.document.version, n.st.active.value.digest);
    }
  }

  // Sections outside Activate keep the cached snapshot or drop it, and a revocation
  // drops the snapshot of its own key.
  lemma SectionsKeepState(t: Trust, history: seq<Checkpoint>, n: Node, step: Step)
    requires StateHolds(n.options, t, history, n.st, n.installed)
    requires step.Resolve? || step.Status? || step.RevokeKey? || step.InstallBegin?
    requires step.InstallBegin? ==> n.phase == Idle
    ensures forall store :: StateHolds(n.options, t, history, StepNode(t, n, store, step).st, n.installed)
    ensures forall store :: StepNode(t, n, store, step).installed == n.installed
    ensures forall store :: step.InstallBegin? || StepNode(t, n, store, step).phase == n.phase
  {
  }

  lemma BeginIsFaithful(o: Options, t: Trust, st: State, r: Request, reading: int)
    ensures Begin(o, t, st, r, reading).1.Ok? ==> Faithful(o, t, Begin(o, t, st, r, reading).1.value)
  {
    BeginMeans(o, t, st, r, reading);
  }

  // The checks between Load and the write, over the history as it is by then.
  lemma ChecksHold(t: Trust, history: seq<Checkpoint>, n: Node, step: Step)
    requires history != [] && Linked(history) && NodeHolds(t, history, n) && (step.InstallVet? || step.InstallCompare?)
    ensures NodeHolds(t, history, StepNode(t, n, Last(history), step))
  {
    if n.phase.Loaded? || n.phase.Vetted? {
      var c, previous := n.phase.c, n.phase.previous;
      ChecksMean(n.options, n.st, c, previous);
      if n.phase.Vetted? && previous.version == c.snapshot.version {
        var i :| 0 <= i < |history| && history[i] == previous;
        assert Recorded(history, c.snapshot.version, Sha256(c.raw));
      }
    }
  }

  lemma WriteHolds(t: Trust, history: seq<Checkpoint>, n: Node, fault: Fault)
    requires history != [] && Linked(history) && NodeHolds(t, history, n)
    ensures NodeHolds(t, StepStore(n, history, InstallWrite(fault)), StepNode(t, n, Last(history), InstallWrite(fault)))
  {
    var more := StepStore(n, history, InstallWrite(fault));
    StoreStepLinked(t, history, n, InstallWrite(fault));
    OthersHold(t, history, more, n);
    if more != history {
      assert more[|history|] == NextCheckpoint(n.phase.c);
      assert Recorded(more, n.phase.c.snapshot.version, Sha256(n.phase.c.raw));
    }
  }

  lemma NodeStepHolds(t: Trust, history: seq<Checkpoint>, n: Node, step: Step)
    requires history != [] && Linked(history) && NodeHolds(t, history, n)
    ensures NodeHolds(t, StepStore(n, history, step), StepNode(t, n, Last(history), step))
  {
    match step
    case InstallBegin(r, reading) =>
      if n.phase.Idle? {
        SectionsKeepState(t, history, n, step);
        BeginIsFaithful(n.options, t, n.st, r, reading);
      }
    case InstallAbort =>
    case InstallLoad => assert Last(history) in history;
    case InstallVet => ChecksHold(t, history, n, step);
    case InstallCompare => ChecksHold(t, history, n, step);
    case InstallWrite(fault) => WriteHolds(t, history, n, fault);
    case InstallDrop =>
    case InstallActivate(reading, cancelled) => ActivationHolds(t, history, n, reading, cancelled);
    case Resolve(_, _) => SectionsKeepState(t, history, n, step);
    case Status(_) => SectionsKeepState(t, history, n, step);
    case RevokeKey(_) => SectionsKeepState(t, history, n, step);
  }

  lemma ActivationHolds(t: Trust, history: seq<Checkpoint>, n: Node, reading: int, cancelled: bool)
    requires history != [] && Linked(history) && NodeHolds(t, history, n)
    ensures NodeHolds(t, history, StepNode(t, n, Last(history), InstallActivate(reading, cancelled)))
  {
    if n.phase.Activating? {
      var c := n.phase.c;
      var i :| 0 <= i < |history| && history[i].version == c.snapshot.version && history[i].digest == Sha256(c.raw);
      assert history[i].version <= Last(history).version;
      var active := Activate(n.st, c, reading, cancelled).0.active;
      assert active.Some? ==> active.value == Active(c.snapshot, Sha256(c.raw), c.entries);
    }
  }

  lemma StepHolds(t: Trust, s: System, a: Action)
    requires Inv(t, s)
    ensures Inv(t, Next(t, s, a))
    ensures s.history <= Next(t, s, a).history
  {
    if a.node in s.nodes {
      StoreStepLinked(t, s.history, s.nodes[a.node], a.step);
      NodeStepHolds(t, s.history, s.nodes[a.node], a.step);
      forall i | i in s.nodes && i != a.node ensures NodeHolds(t, Next(t, s, a).history, s.nodes[i]) {
        OthersHold(t, s.history, Next(t, s, a).history, s.nodes[i]);
      }
    }
  }

  lemma {:induction false} RunHolds(t: Trust, s: System, run: seq<Action>)
    requires Inv(t, s)
    ensures Inv(t, Run(t, s, run))
    ensures s.history <= Run(t, s, run).history
    decreases |run|
  {
    if run != [] {
      StepHolds(t, s, run[0]);
      RunHolds(t, Next(t, s, run[0]), run[1..]);
    }
  }

  // Install is a run of the steps of its own directory: the method and the state
  // machine do the same thing to the fields and to the store.
  function CommitSteps(fault: Fault, second: int, cancelled: bool): seq<Step> {
    [InstallWrite(fault)] + ([InstallDrop] + [InstallActivate(second, cancelled)])
  }

  function InstallSteps(r: Request, first: int, loadFails: bool, fault: Fault, second: int, cancelled: bool)
    : seq<Step>
  {
    [InstallBegin(r, first)] + ([if loadFails then InstallAbort else InstallLoad]
      + ([InstallVet] + ([InstallCompare] + CommitSteps(fault, second, cancelled))))
  }

  ghost function OwnRun(t: Trust, history: seq<Checkpoint>, n: Node, steps: seq<Step>): (r: (seq<Checkpoint>, Node))
    requires history != []
    decreases |steps|
  {
    if steps == [] then (history, n)
    else OwnRun(t, StepStore(n, history, steps[0]), StepNode(t, n, Last(history), steps[0]), steps[1..])
  }

  lemma OwnStep(t: Trust, history: seq<Checkpoint>, n: Node, step: Step, rest: seq<Step>)
    requires history != []
    ensures OwnRun(t, history, n, [step] + rest) ==
      OwnRun(t, StepStore(n, history, step), StepNode(t, n, Last(history), step), rest)
  {
    assert ([step] + rest)[1..] == rest;
  }

  predicate Continues(step: Step) {
    !step.InstallBegin? && !step.Resolve? && !step.Status? && !step.RevokeKey?
  }

  // What is left of an install that has ended changes nothing.
  lemma {:induction false} EndedStaysEnded(t: Trust, history: seq<Checkpoint>, n: Node, steps: seq<Step>)
    requires history != [] && n.phase == Idle && forall i :: 0 <= i < |steps| ==> Continues(steps[i])
    ensures OwnRun(t, history, n, steps) == (history, n)
    decreases |steps|
  {
    if steps != [] {
      assert Continues(steps[0]);
      EndedStaysEnded(t, history, n, steps[1..]);
    }
  }

  lemma CommitIsARun(t: Trust, history: seq<Checkpoint>, n: Node, write: bool, c: Candidate, fault: Fault,
      second: int, cancelled: bool)
    requires history != [] && n.phase == if write then Writing(c, Last(history)) else Activating(c)
    ensures
      var all := CommitAndActivate(n.st, history, c, write, fault, second, cancelled);
      OwnRun(t, history, n, CommitSteps(fault, second, cancelled)) ==
        (all.history,
         n.(st := all.st, phase := Idle, installed := if all.result.Ok? then c.snapshot.version else n.installed))
  {
    var last := [InstallActivate(second, cancelled)];
    OwnStep(t, history, n, InstallWrite(fault), [InstallDrop] + last);
    var h1, n1 := StepStore(n, history, InstallWrite(fault)), StepNode(t, n, Last(history), InstallWrite(fault));
    OwnStep(t, h1, n1, InstallDrop, last);
    var n2 := StepNode(t, n1, Last(h1), InstallDrop);
    if write && fault != NoFault {
      EndedStaysEnded(t, h1, n2, last);
    } else {
      assert n2 == n.(phase := Activating(c));
      LastStep(t, h1, n2, InstallActivate(second, cancelled));
    }
  }

  lemma LastStep(t: Trust, history: seq<Checkpoint>, n: Node, step: Step)
    requires history != []
    ensures OwnRun(t, history, n, [step]) == (StepStore(n, history, step), StepNode(t, n, Last(history), step))
  {
    assert [step] == [step] + [];
    OwnStep(t, history, n, step, []);
  }

  lemma InstallIsARun(o: Options, t: Trust, st: State, history: seq<Checkpoint>, installed: int, r: Request,
      first: int, loadFails: bool, fault: Fault, second: int, cancelled: bool)
    requires history != []
    ensures
      var c := Begin(o, t, st, r, first).1;
      var all := InstallAll(o, t, st, history, r, first, loadFails, fault, second, cancelled);
      OwnRun(t, history, Node(o, st, Idle, installed), InstallSteps(r, first, loadFails, fault, second, cancelled)) ==
        (all.history, Node(o, all.st, Idle, if c.Ok? && all.result.Ok? then c.value.snapshot.version else installed))
  {
    var load := if loadFails then InstallAbort else InstallLoad;
    var afterLoad := [InstallVet] + ([InstallCompare] + CommitSteps(fault, second, cancelled));
    var n0 := Node(o, st, Idle, installed);
    var n1 := StepNode(t, n0, Last(history), InstallBegin(r, first));
    var n2 := StepNode(t, n1, Last(history), load);
    OwnStep(t, history, n0, InstallBegin(r, first), [load] + afterLoad);
    OwnStep(t, history, n1, load, afterLoad);
    LoadedNode(t, n0, Last(history), r, first, loadFails);
    if n2.phase == Idle {
      EndedStaysEnded(t, history, n2, afterLoad);
    } else {
      LoadedIsARun(t, history, n2, fault, second, cancelled);
    }
  }

  lemma LoadedNode(t: Trust, n: Node, store: Checkpoint, r: Request, first: int, loadFails: bool)
    requires n.phase == Idle
    ensures
      var (st, c) := Begin(n.options, t, n.st, r, first);
      var load := if loadFails then InstallAbort else InstallLoad;
      StepNode(t, StepNode(t, n, store, InstallBegin(r, first)), store, load) ==
        n.(st := st, phase := if c.Err? || loadFails then Idle else Loaded(c.value, store))
  {
  }

  lemma LoadedIsARun(t: Trust, history: seq<Checkpoint>, n: Node, fault: Fault, second: int, cancelled: bool)
    requires history != [] && n.phase.Loaded? && n.phase.previous == Last(history)
    ensures
      var all := InstallLoaded(n.options, n.st, history, n.phase.c, fault, second, cancelled);
      OwnRun(t, history, n, [InstallVet] + ([InstallCompare] + CommitSteps(fault, second, cancelled))) ==
        (all.history,
         n.(st := all.st, phase := Idle,
            installed := if all.result.Ok? then n.phase.c.snapshot.version else n.installed))
  {
    var commit := CommitSteps(fault, second, cancelled);
    var n1 := StepNode(t, n, Last(history), InstallVet);
    var n2 := StepNode(t, n1, Last(history), InstallCompare);
    OwnStep(t, history, n, InstallVet, [InstallCompare] + commit);
    OwnStep(t, history, n1, InstallCompare, commit);
    ComparedNode(t, n, Last(history));
    if n2.phase == Idle {
      EndedStaysEnded(t, history, n2, commit);
    } else {
      CommitIsARun(t, history, n2, n2.phase.Writing?, n.phase.c, fault, second, cancelled);
    }
  }

  lemma ComparedNode(t: Trust, n: Node, store: Checkpoint)
    requires n.phase.Loaded? && n.phase.previous == store
    ensures
      var c := n.phase.c;
      var (st1, vetted) := Vet(n.options, n.st, c, store);
      var (st2, write) := Compare(st1, c, store);
      StepNode(t, StepNode(t, n, store, InstallVet), store, InstallCompare) ==
        if vetted.Err? then n.(st := st1, phase := Idle)
        else n.(st := st2, phase :=
          if write.Err? then Idle else if write.value then Writing(c, store) else Activating(c))
  {
  }

  // ---- Theorems over every run ----

  // Over the whole history: versions strictly increase, no asset disappears, epochs
  // never fall, and any two checkpoints that give an asset one epoch give it one entry.
  // Only a provisioned record that repeats an asset can disagree with itself.
  lemma HistoryIsMonotone(t: Trust, s: System, run: seq<Action>, i: nat, j: nat, e: Entry)
    requires Initial(s) && i <= j < |Run(t, s, run).history|
    requires e in Run(t, s, run).history[i].entries
    ensures
      var h := Run(t, s, run).history;
      && (i < j ==> h[i].version < h[j].version)
      && (exists f :: f in h[j].entries && IdentityOf(f) == IdentityOf(e))
    ensures
      var h := Run(t, s, run).history;
      j > 0 || Distinct(h[0].entries) ==>
        forall f :: f in h[j].entries && IdentityOf(f) == IdentityOf(e) ==>
          f.epoch >= e.epoch && (f.epoch == e.epoch ==> f == e)
  {
    InitialHolds(t, s);
    RunHolds(t, s, run);
    var h := Run(t, s, run).history;
    if i < j {
      assert EpochsAdvance(h[i].entries, Index(h[j].entries)) && Distinct(h[j].entries);
      KeptEntry(h[i].entries, h[j].entries, e);
    } else if Distinct(h[j].entries) {
      EpochsAdvanceReflexive(h[j].entries);
      KeptEntry(h[j].entries, h[j].entries, e);
    }
  }

  // What the epoch rule says of every later entry of an asset.
  lemma KeptEntry(a: seq<Entry>, b: seq<Entry>, e: Entry)
    requires EpochsAdvance(a, Index(b)) && Distinct(b) && e in a
    ensures exists f :: f in b && IdentityOf(f) == IdentityOf(e)
    ensures forall f :: f in b && IdentityOf(f) == IdentityOf(e) ==>
      f.epoch >= e.epoch && (f.epoch == e.epoch ==> f == e)
  {
    var k :| 0 <= k < |a| && a[k] == e;
    assert KeepsEpoch(a[k], Index(b));
    IndexHolds(b, IdentityOf(e));
    IndexOfDistinct(b);
  }

  ghost function Answer(s: System, d: nat, reading: int, id: Identity): Result<Binding>
    requires d in s.nodes
  {
    ResolveAt(s.nodes[d].options, s.nodes[d].st, reading, id).1
  }

  // A place this directory may route to.
  ghost predicate Placed(o: Options, e: Entry) {
    && e.state == "active" && e.environmentId == o.environmentId && e.region in o.regions
    && Names.TopicPart(e.cellId) && Names.Token(e.tenantId) && Names.Token(e.workspaceId)
    && 1 <= e.epoch <= MAX_SAFE_INTEGER
  }

  // What a binding came from: a durable checkpoint of bytes that this directory's own key
  // signed for it, and that decode to a snapshot in force with exactly this entry.
  lemma BindingIsDurable(t: Trust, s: System, d: nat, reading: int, id: Identity)
    requires Inv(t, s) && d in s.nodes && Answer(s, d, reading, id).Ok?
    ensures
      var b, o := Answer(s, d, reading, id).value, s.nodes[d].options;
      && b.digest.Sha256? && Recorded(s.history, b.version, b.digest)
      && t.decode(b.digest.raw).Some?
      && var doc := t.decode(b.digest.raw).value;
         && doc.version == b.version && doc.expiresAt == b.expiresAt
         && SignedBy(o, t, doc.keyId, b.digest.raw) && doc.keyId !in s.nodes[d].st.revoked
         && o.keys[doc.keyId].notBefore <= reading < o.keys[doc.keyId].notAfter
         && doc.directoryId == o.directoryId && doc.issuer == o.issuer && doc.audience == o.audience
         && doc.environmentId == o.environmentId
         && b.entry in doc.entries && IdentityOf(b.entry) == id && Placed(o, b.entry)
         && b.entry == Index(doc.entries)[id]
         && doc.issuedAt <= reading < doc.expiresAt <= doc.issuedAt + o.maxLifetime
         && (s.nodes[d].st.lastClock != 0 ==> s.nodes[d].st.lastClock <= reading)
  {
    IndexHolds(s.nodes[d].st.active.value.document.entries, id);
  }

  // And the other way round: an active entry of the snapshot in force is answered.
  lemma AnswerIsExact(t: Trust, s: System, d: nat, reading: int, id: Identity)
    requires Inv(t, s) && d in s.nodes
    ensures
      var n := s.nodes[d];
      Answer(s, d, reading, id).Ok? <==>
        && Forward(n.st.lastClock, reading) && n.st.active.Some?
        && var doc := n.st.active.value.document;
           && doc.keyId in n.options.keys
           && n.options.keys[doc.keyId].notBefore <= reading < n.options.keys[doc.keyId].notAfter
           && doc.issuedAt <= reading < doc.expiresAt
           && exists e :: e in doc.entries && IdentityOf(e) == id && e.state == "active"
  {
    var n := s.nodes[d];
    assert NodeHolds(t, s.history, n);
    if n.st.active.Some? {
      var es := n.st.active.value.document.entries;
      IndexHolds(es, id);
      IndexOfDistinct(es);
    }
  }

  // Two directories answering from the same snapshot version give the same answer,
  // even if the answers are given at different moments of a run.
  lemma SameVersionSameBinding(t: Trust, s: System, run: seq<Action>, d: nat, e: nat, r1: int, r2: int, id: Identity)
    requires Inv(t, s)
    requires d in s.nodes && e in Run(t, s, run).nodes
    requires Answer(s, d, r1, id).Ok? && Answer(Run(t, s, run), e, r2, id).Ok?
    requires Answer(s, d, r1, id).value.version == Answer(Run(t, s, run), e, r2, id).value.version
    ensures Answer(s, d, r1, id) == Answer(Run(t, s, run), e, r2, id)
  {
    var last := Run(t, s, run);
    RunHolds(t, s, run);
    BindingIsDurable(t, s, d, r1, id);
    BindingIsDurable(t, last, e, r2, id);
    var b := Answer(s, d, r1, id).value;
    RecordedGrows(s.history, last.history, b.version, b.digest);
  }

  lemma InstallNeverLowers(t: Trust, history: seq<Checkpoint>, n: Node, store: Checkpoint, step: Step)
    requires PhaseHolds(t, history, n)
    ensures StepNode(t, n, store, step).installed >= n.installed
  {
  }

  // A successful install never lowers a directory's version, and the defence against
  // a checkpoint behind the live snapshot never fires while the port keeps its contract.
  lemma InstalledNeverFalls(t: Trust, s: System, a: Action)
    requires Inv(t, s) && a.node in s.nodes
    ensures Next(t, s, a).nodes[a.node].installed >= s.nodes[a.node].installed
    ensures s.nodes[a.node].phase.Loaded? ==> !Regressed(s.nodes[a.node].st, s.nodes[a.node].phase.previous)
  {
    var n := s.nodes[a.node];
    assert NodeHolds(t, s.history, n);
    InstallNeverLowers(t, s.history, n, Store(s), a.step);
    if n.phase.Loaded? { LoadedIsNotBehind(t, s.history, n); }
  }

  lemma LoadedIsNotBehind(t: Trust, history: seq<Checkpoint>, n: Node)
    requires history != [] && Linked(history) && NodeHolds(t, history, n) && n.phase.Loaded?
    ensures !Regressed(n.st, n.phase.previous)
  {
    if n.st.active.Some? {
      var previous, live := n.phase.previous, n.st.active.value;
      var i :| 0 <= i < |history| && history[i] == previous;
      var j :| 0 <= j < |history| && history[j].version == live.document.version && history[j].digest == live.digest;
      assert live.document.version <= previous.version;
    }
  }

  lemma {:induction false} InstalledNeverFallsOverRuns(t: Trust, s: System, run: seq<Action>, d: nat)
    requires Inv(t, s) && d in s.nodes
    ensures d in Run(t, s, run).nodes && Run(t, s, run).nodes[d].installed >= s.nodes[d].installed
    decreases |run|
  {
    if run != [] {
      StepHolds(t, s, run[0]);
      if run[0].node in s.nodes { InstalledNeverFalls(t, s, run[0]); }
      InstalledNeverFallsOverRuns(t, Next(t, s, run[0]), run[1..], d);
    }
  }

  // Revocations and observed time only grow.
  lemma {:induction false} RunKeepsFacts(t: Trust, s: System, run: seq<Action>, d: nat)
    requires s.history != [] && d in s.nodes
    ensures d in Run(t, s, run).nodes
    ensures
      var before, after := s.nodes[d].st, Run(t, s, run).nodes[d].st;
      && before.revoked <= after.revoked
      && (before.lastClock != 0 ==> after.lastClock >= before.lastClock && after.lastClock != 0)
    ensures Run(t, s, run).nodes[d].options == s.nodes[d].options
    decreases |run|
  {
    if run != [] {
      StepKeepsFacts(t, s, run[0], d);
      RunKeepsFacts(t, Next(t, s, run[0]), run[1..], d);
    }
  }

  lemma StepKeepsFacts(t: Trust, s: System, a: Action, d: nat)
    requires s.history != [] && d in s.nodes
    ensures
      var before, after := s.nodes[d].st, Next(t, s, a).nodes[d].st;
      && before.revoked <= after.revoked
      && (before.lastClock != 0 ==> after.lastClock >= before.lastClock && after.lastClock != 0)
    ensures Next(t, s, a).nodes[d].options == s.nodes[d].options
  {
  }

  // After RevokeKey(k) on a directory, nothing it ever answers comes from a snapshot
  // signed under k, whatever install was in flight at that moment.
  lemma RevocationIsFinal(t: Trust, s: System, d: nat, k: string, run: seq<Action>, reading: int, id: Identity)
    requires Inv(t, s) && d in s.nodes && k in s.nodes[d].options.keys
    requires d in Run(t, Next(t, s, Action(d, RevokeKey(k))), run).nodes
    requires Answer(Run(t, Next(t, s, Action(d, RevokeKey(k))), run), d, reading, id).Ok?
    ensures
      var b := Answer(Run(t, Next(t, s, Action(d, RevokeKey(k))), run), d, reading, id).value;
      b.digest.Sha256? && t.decode(b.digest.raw).Some? && t.decode(b.digest.raw).value.keyId != k
  {
    var s1 := Next(t, s, Action(d, RevokeKey(k)));
    KeyIsRevoked(t, s, d, k);
    StepHolds(t, s, Action(d, RevokeKey(k)));
    RunHolds(t, s1, run);
    RunKeepsFacts(t, s1, run, d);
    BindingIsDurable(t, Run(t, s1, run), d, reading, id);
  }

  // It touches nothing but the key and the snapshot signed under it.
  lemma KeyIsRevoked(t: Trust, s: System, d: nat, k: string)
    requires s.history != [] && d in s.nodes && k in s.nodes[d].options.keys
    ensures
      var s1 := Next(t, s, Action(d, RevokeKey(k)));
      && d in s1.nodes && k in s1.nodes[d].st.revoked
      && s1 == s.(nodes := s.nodes[d := s.nodes[d].(st := s1.nodes[d].st)])
      && var before, after := s.nodes[d].st, s1.nodes[d].st;
         && after.revoked == before.revoked + {k} && after.lastClock == before.lastClock
         && (before.active.Some? && before.active.value.document.keyId != k ==> after.active == before.active)
         && (before.active.Some? && before.active.value.document.keyId == k ==> after.active == None)
  {
  }

  // Once a directory has seen a time at or past a snapshot's expiry, no later answer
  // comes from it and no later activation of it succeeds.
  lemma ExpiryIsFinal(t: Trust, s: System, d: nat, doc: Snapshot, run: seq<Action>, reading: int, id: Identity,
      c: Candidate, cancelled: bool)
    requires Inv(t, s) && d in s.nodes && s.nodes[d].st.lastClock != 0 && s.nodes[d].st.lastClock >= doc.expiresAt
    requires c.snapshot == doc
    ensures d in Run(t, s, run).nodes
    ensures Answer(Run(t, s, run), d, reading, id).Ok? ==>
      var b := Answer(Run(t, s, run), d, reading, id).value;
      b.digest.Sha256? && t.decode(b.digest.raw) != Some(doc)
    ensures Activate(Run(t, s, run).nodes[d].st, c, reading, cancelled).1.Err?
    ensures Activate(Run(t, s, run).nodes[d].st, c, reading, cancelled).0.active == None
  {
    RunHolds(t, s, run);
    RunKeepsFacts(t, s, run, d);
    if Answer(Run(t, s, run), d, reading, id).Ok? {
      BindingIsDurable(t, Run(t, s, run), d, reading, id);
    }
  }
}
