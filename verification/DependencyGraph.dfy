// The dependency check of tools/check_foundation.py: a recursive walk over the
// predecessor graph with the shared sets visited and active.

module DependencyGraph {
  import opened Common

  type Graph = map<string, seq<string>>

  datatype Row = Row(id: string, predecessors: seq<string>)

  // Passed, or the exception: a cycle, a predecessor that is no package, or a
  // baseline of the wrong size.
  datatype Outcome = Passed | DependencyCycle | UnknownKey | ScopeMismatch

  const BASELINE_SIZE: nat := 262

  // Each step goes from a package to one of its predecessors.
  ghost predicate Walk(g: Graph, p: seq<string>) {
    forall i :: 0 <= i < |p| - 1 ==> p[i] in g && p[i + 1] in g[p[i]]
  }

  ghost predicate Cyclic(g: Graph) {
    exists p :: |p| >= 2 && p[0] == p[|p| - 1] && Walk(g, p)
  }

  ghost predicate Closed(g: Graph) {
    forall k, q :: k in g && q in g[k] ==> q in g
  }

  // Every package once, and only after all of its predecessors.
  ghost predicate Topological(g: Graph, order: seq<string>) {
    && (forall i, j :: 0 <= i < j < |order| ==> order[i] != order[j])
    && (forall i :: 0 <= i < |order| ==> order[i] in g)
    && (forall i, q :: 0 <= i < |order| && q in g[order[i]] ==> q in order[..i])
  }

  // A topological order of the whole graph excludes cycles.
  lemma OrderedIsAcyclic(g: Graph, order: seq<string>)
    requires Topological(g, order) && forall k :: k in g ==> k in order
    ensures !Cyclic(g) && Closed(g)
  {
    forall k, q | k in g && q in g[k] ensures q in g {
      var i :| 0 <= i < |order| && order[i] == k;
      assert q in order[..i];
    }
    forall p | |p| >= 2 && Walk(g, p) ensures p[0] != p[|p| - 1] {
      var i := WalkDescends(g, order, p);
    }
  }

  // Along a walk the position in the order strictly falls.
  lemma {:induction false} WalkDescends(g: Graph, order: seq<string>, p: seq<string>) returns (i: nat)
    requires Topological(g, order) && (forall k :: k in g ==> k in order)
    requires |p| >= 2 && Walk(g, p)
    ensures i < |order| && order[i] == p[0] && p[|p| - 1] in order[..i]
  {
    assert p[0] in g && p[1] in g[p[0]];
    i :| 0 <= i < |order| && order[i] == p[0];
    assert p[1] in order[..i];
    if |p| > 2 {
      assert Walk(g, p[1..]);
      var j := WalkDescends(g, order, p[1..]);
      var k :| 0 <= k < i && order[k] == p[1];
      assert p[1..][|p| - 2] == p[|p| - 1];
    }
  }

  lemma TopologicalAppend(g: Graph, order: seq<string>, key: string)
    requires Topological(g, order) && key in g && key !in order
    requires forall q :: q in g[key] ==> q in order
    ensures Topological(g, order + [key])
  {
    var more := order + [key];
    forall i, q | 0 <= i < |more| && q in g[more[i]] ensures q in more[..i] {
      if i < |order| { assert more[..i] == order[..i] && more[i] == order[i]; } else { assert more[..i] == order; }
    }
  }

  class Checker {
    const byId: Graph
    var visited: set<string>
    var active: set<string>
    ghost var order: seq<string>

    ghost predicate Valid() reads this {
      && Topological(byId, order)
      && visited == (set k | k in order)
      && active !! visited && active <= byId.Keys
    }

    constructor (byId: Graph)
      ensures Valid() && this.byId == byId && active == {} && visited == {}
    {
      this.byId, visited, active, order := byId, {}, {}, [];
    }

    // stack is the chain of calls in progress; its members are the active keys.
    ghost predicate Stacked(stack: seq<string>) reads this {
      Walk(byId, stack) && active == (set k | k in stack)
    }

    method Dependencies(key: string, ghost stack: seq<string>) returns (r: Outcome)
      requires Valid() && Stacked(stack)
      requires stack != [] ==> stack[|stack| - 1] in byId && key in byId[stack[|stack| - 1]]
      modifies this
      ensures r == Passed ==>
        Valid() && active == old(active) && key in visited && old(order) <= order
      ensures r == DependencyCycle ==> Cyclic(byId)
      ensures r == UnknownKey ==> key !in byId || !Closed(byId)
      ensures r != ScopeMismatch
      decreases byId.Keys - active, 1
    {
      if key in active {
        ghost var i :| 0 <= i < |stack| && stack[i] == key;
        assert Walk(byId, stack[i..] + [key]) && (stack[i..] + [key])[0] == key;
        return DependencyCycle;
      }
      if key in visited {
        return Passed;
      }
      active := active + {key};
      if key !in byId {
        return UnknownKey;
      }
      ghost var inner := stack + [key];
      r := Parents(key, inner);
      if r != Passed {
        return;
      }
      active := active - {key};
      TopologicalAppend(byId, order, key);
      order := order + [key];
      visited := visited + {key};
    }

    // The loop over one key's predecessors.
    method Parents(key: string, ghost stack: seq<string>) returns (r: Outcome)
      requires Valid() && Stacked(stack) && key in byId && key in active
      requires stack != [] && stack[|stack| - 1] == key
      modifies this
      ensures r == Passed ==>
        Valid() && active == old(active) && old(order) <= order && forall q :: q in byId[key] ==> q in visited
      ensures r == DependencyCycle ==> Cyclic(byId)
      ensures r == UnknownKey ==> !Closed(byId)
      ensures r != ScopeMismatch
      decreases byId.Keys - active, 2
    {
      var parents := byId[key];
      for i := 0 to |parents|
        invariant Valid() && active == old(active) && old(order) <= order
        invariant forall k :: 0 <= k < i ==> parents[k] in visited
      {
        r := Dependencies(parents[i], stack);
        if r != Passed {
          return;
        }
      }
      r := Passed;
    }

    // contracts(): every key of the baseline, in the order of the file.
    method Check(keys: seq<string>) returns (r: Outcome)
      requires Valid() && active == {} && (set k | k in keys) == byId.Keys
      modifies this
      ensures r == Passed ==>
        Valid() && visited == byId.Keys && Topological(byId, order) && (forall k :: k in byId ==> k in order)
      ensures Closed(byId) ==> (r == DependencyCycle <==> Cyclic(byId)) && r in {Passed, DependencyCycle}
      ensures r == Passed ==> Closed(byId) && !Cyclic(byId)
      ensures r in {Passed, DependencyCycle, UnknownKey}
    {
      for i := 0 to |keys|
        invariant Valid() && active == {}
        invariant forall k :: 0 <= k < i ==> keys[k] in visited
      {
        assert keys[i] in byId;
        r := Dependencies(keys[i], []);
        if r != Passed {
          return;
        }
      }
      r := Passed;
      assert forall k :: k in byId ==> k in keys;
      OrderedIsAcyclic(byId, order);
    }
  }

  // The rows as a dictionary: a repeated id keeps the later row.
  function ById(index: seq<Row>): Graph {
    if index == [] then map[] else ById(index[..|index| - 1])[Last(index).id := Last(index).predecessors]
  }

  lemma {:induction false} ByIdKeys(index: seq<Row>)
    ensures ById(index).Keys == set i | 0 <= i < |index| :: index[i].id
  {
    if index != [] {
      var front := index[..|index| - 1];
      ByIdKeys(front);
      assert forall i :: 0 <= i < |front| ==> front[i] == index[i];
    }
  }

  // The whole baseline check: a complete baseline passes exactly when its graph is
  // closed and acyclic, and then an order of all packages exists.
  method Contracts(index: seq<Row>) returns (r: Outcome, ghost order: seq<string>)
    ensures r == ScopeMismatch <==> |index| != 262 || |set i | 0 <= i < |index| :: index[i].id| != 262
    ensures r == Passed ==> Topological(ById(index), order) && (forall k :: k in ById(index) ==> k in order)
    ensures r == Passed ==> Closed(ById(index)) && !Cyclic(ById(index))
    ensures r != ScopeMismatch && Closed(ById(index)) ==>
      (r == DependencyCycle <==> Cyclic(ById(index))) && r in {Passed, DependencyCycle}
  {
    order := [];
    ByIdKeys(index);
    var byId := ById(index);
    assert |byId| == |byId.Keys|;
    if |index| != BASELINE_SIZE || |byId| != BASELINE_SIZE {
      return ScopeMismatch, [];
    }
    var keys := seq(|index|, i requires 0 <= i < |index| => index[i].id);
    assert forall i :: 0 <= i < |index| ==> keys[i] == index[i].id;
    var checker := new Checker(byId);
    r := checker.Check(keys);
    order := checker.order;
  }
}
