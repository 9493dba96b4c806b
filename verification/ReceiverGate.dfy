// Admission and draining of backend/services/webhook-dispatcher/receiverhttp/handler.go:
// a counter, an irreversible flag and a channel that may be closed once.

module ReceiverGate {
  import opened Common

  const ERR_CONFIG := "RECEIVER_CONFIGURATION"

  // The fields under the mutex. closes counts close(drained); a second one panics.
  datatype Gate = Gate(active: int, draining: bool, closes: nat)

  const Open: Gate := Gate(0, false, 0)

  function Admit(max: int, g: Gate): (Gate, bool) {
    if g.draining || g.active >= max then (g, false) else (g.(active := g.active + 1), true)
  }

  function Release(g: Gate): Gate {
    Gate(g.active - 1, g.draining, if g.draining && g.active == 1 then g.closes + 1 else g.closes)
  }

  function Drain(g: Gate): Gate {
    if g.draining then g else Gate(g.active, true, if g.active == 0 then g.closes + 1 else g.closes)
  }

  // The gate beside the requests it has admitted and that have not finished.
  datatype System = System(gate: Gate, live: set<nat>)

  datatype Step = Arrive(request: nat) | Finish(request: nat) | StartDrain

  function Next(max: int, s: System, step: Step): System {
    match step
    case Arrive(r) =>
      if r in s.live then s
      else var (gate, ok) := Admit(max, s.gate); System(gate, if ok then s.live + {r} else s.live)
    case Finish(r) => if r in s.live then System(Release(s.gate), s.live - {r}) else s
    case StartDrain => s.(gate := Drain(s.gate))
  }

  function Run(max: int, s: System, steps: seq<Step>): System
    decreases |steps|
  {
    if steps == [] then s else Run(max, Next(max, s, steps[0]), steps[1..])
  }

  // The counter counts the admitted unfinished requests, within the bound, and the
  // channel has been closed exactly when draining has nothing left to wait for.
  ghost predicate Inv(max: int, s: System) {
    && s.gate.active == |s.live| <= max
    && s.gate.closes == if s.gate.draining && s.live == {} then 1 else 0
  }

  lemma StepHolds(max: int, s: System, step: Step)
    requires Inv(max, s)
    ensures Inv(max, Next(max, s, step))
  {
    match step
    case Arrive(r) =>
    case Finish(r) =>
      if r in s.live {
        assert |s.live - {r}| == |s.live| - 1;
        assert s.live - {r} == {} <==> |s.live| == 1;
      }
    case StartDrain =>
  }

  lemma {:induction false} RunHolds(max: int, s: System, steps: seq<Step>)
    requires Inv(max, s)
    ensures Inv(max, Run(max, s, steps))
    decreases |steps|
  {
    if steps != [] {
      StepHolds(max, s, steps[0]);
      RunHolds(max, Next(max, s, steps[0]), steps[1..]);
    }
  }

  // From a fresh handler, over every interleaving.
  lemma CounterIsExact(max: int, steps: seq<Step>)
    requires max >= 1
    ensures
      var s := Run(max, System(Open, {}), steps);
      && s.gate.active == |s.live| <= max
      && s.gate.closes <= 1
      && (s.gate.closes == 1 <==> s.gate.draining && s.live == {})
  {
    RunHolds(max, System(Open, {}), steps);
  }

  // Once draining, nothing is admitted again: what is live is exactly what was live
  // and has not finished.
  lemma {:induction false} DrainingOnlyFinishes(max: int, s: System, steps: seq<Step>)
    requires s.gate.draining
    ensures Run(max, s, steps).gate.draining
    ensures Run(max, s, steps).live == set r | r in s.live && Finish(r) !in steps
    decreases |steps|
  {
    if steps != [] {
      var next := Next(max, s, steps[0]);
      DrainingOnlyFinishes(max, next, steps[1..]);
      assert forall r :: Finish(r) in steps <==> Finish(r) == steps[0] || Finish(r) in steps[1..];
    }
  }

  // So the channel is closed exactly when every request that was live has finished,
  // and it stays closed with nothing live.
  lemma DrainEndsWithTheLastRequest(max: int, s: System, steps: seq<Step>)
    requires Inv(max, s) && s.gate.draining
    ensures Run(max, s, steps).gate.closes == 1 <==> forall r :: r in s.live ==> Finish(r) in steps
    ensures s.gate.closes == 1 ==> Run(max, s, steps).gate.closes == 1 && Run(max, s, steps).live == {}
  {
    RunHolds(max, s, steps);
    DrainingOnlyFinishes(max, s, steps);
    var left := Run(max, s, steps).live;
    if forall r :: r in s.live ==> Finish(r) in steps {
      assert left == {};
    } else {
      var r :| r in s.live && Finish(r) !in steps;
      assert r in left;
    }
  }

  // A request stays live until its own release.
  lemma {:induction false} OnlyItselfFinishes(max: int, s: System, steps: seq<Step>, r: nat)
    requires r in s.live && Finish(r) !in steps
    ensures r in Run(max, s, steps).live
    decreases |steps|
  {
    if steps != [] {
      assert steps[0] in steps && forall x :: x in steps[1..] ==> x in steps;
      OnlyItselfFinishes(max, Next(max, s, steps[0]), steps[1..], r);
    }
  }

  class Handler {
    const maxConcurrent: int
    var active: int
    var draining: bool
    var drained: bool
    // The requests between their admission and their deferred release.
    var live: set<nat>

    ghost function Fields(): System reads this {
      System(Gate(active, draining, if drained then 1 else 0), live)
    }

    ghost predicate Valid() reads this { Inv(maxConcurrent, Fields()) }

    constructor (maxConcurrent: int)
      requires maxConcurrent >= 1
      ensures Valid() && this.maxConcurrent == maxConcurrent && Fields() == System(Open, {})
    {
      this.maxConcurrent := maxConcurrent;
      active, draining, drained, live := 0, false, false, {};
    }

    // close(h.drained), which panics on a closed channel.
    method CloseDrained()
      requires !drained
      modifies `drained
      ensures drained
    {
      drained := true;
    }

    method TryAdmit(request: nat) returns (ok: bool)
      requires Valid() && request !in live
      modifies this
      ensures Valid() && Fields() == Next(maxConcurrent, old(Fields()), Arrive(request))
      ensures ok <==> request in live
      ensures ok <==> !old(draining) && |old(live)| < maxConcurrent
    {
      StepHolds(maxConcurrent, Fields(), Arrive(request));
      if draining || active >= maxConcurrent {
        return false;
      }
      active := active + 1;
      live := live + {request};
      return true;
    }

    method Leave(request: nat)
      requires Valid() && request in live
      modifies this
      ensures Valid() && Fields() == Next(maxConcurrent, old(Fields()), Finish(request))
    {
      StepHolds(maxConcurrent, Fields(), Finish(request));
      active := active - 1;
      live := live - {request};
      if draining && active == 0 {
        CloseDrained();
      }
    }

    method BeginDrain()
      requires Valid()
      modifies this
      ensures Valid() && Fields() == Next(maxConcurrent, old(Fields()), StartDrain)
    {
      if !draining {
        draining := true;
        if active == 0 {
          CloseDrained();
        }
      }
    }

    // Other goroutines run here; an admission is released only by its own request.
    method Await(others: seq<Step>)
      requires Valid()
      modifies this
      ensures Valid() && Fields() == Run(maxConcurrent, old(Fields()), others)
    {
      for i := 0 to |others|
        invariant Valid() && Run(maxConcurrent, old(Fields()), others) == Run(maxConcurrent, Fields(), others[i..])
      {
        assert others[i..][0] == others[i] && others[i..][1..] == others[i + 1..];
        match others[i]
        case Arrive(r) => if r !in live { var _ := TryAdmit(r); }
        case Finish(r) => if r in live { Leave(r); }
        case StartDrain => BeginDrain();
      }
    }

    // Drain: mark, then wait. others is what runs before the wait ends; a wait that
    // finds the channel open ends with the context.
    method DrainAndWait(hasDeadline: bool, others: seq<Step>) returns (r: Result<()>)
      requires Valid()
      modifies this
      ensures Valid()
      ensures !hasDeadline ==> r == Err(ERR_CONFIG) && Fields() == old(Fields())
      ensures hasDeadline ==>
        && Fields() == Run(maxConcurrent, Next(maxConcurrent, old(Fields()), StartDrain), others)
        && draining && live == (set q | q in old(live) && Finish(q) !in others)
        && (r.Ok? <==> live == {})
    {
      if !hasDeadline {
        return Err(ERR_CONFIG);
      }
      BeginDrain();
      DrainingOnlyFinishes(maxConcurrent, Fields(), others);
      Await(others);
      return if drained then Ok(()) else Err("context");
    }
  }
}
