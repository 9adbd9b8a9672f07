/**
 The plugin host's start order: a three-colour depth-first search over the
 registered modules' dependencies.
 */
module PluginOrder {

  /** A module's stable identifier. */
  datatype Id = Id(name: string)

  /** Each registered module and its dependencies. */
  type Graph = map<Id, seq<Id>>

  predicate Closed(g: Graph) {
    forall id, i :: id in g && 0 <= i < |g[id]| ==> g[id][i] in g
  }

  ghost predicate Edge(g: Graph, a: Id, b: Id) { a in g && b in g[a] }

  ghost predicate IsPath(g: Graph, p: seq<Id>) {
    forall i :: 0 <= i < |p| - 1 ==> Edge(g, p[i], p[i + 1])
  }

  ghost predicate IsCycle(g: Graph, p: seq<Id>) {
    |p| >= 2 && IsPath(g, p) && p[0] == p[|p| - 1]
  }

  ghost predicate Acyclic(g: Graph) {
    forall p: seq<Id> :: !IsCycle(g, p)
  }

  ghost predicate NoDuplicates(s: seq<Id>) {
    forall i, j :: 0 <= i < j < |s| ==> s[i] != s[j]
  }

  /** Every dependency of the module at `i` stands before it. */
  ghost predicate DepsBefore(g: Graph, order: seq<Id>, i: nat) {
    i < |order| && order[i] in g ==> forall k :: 0 <= k < |g[order[i]]| ==> g[order[i]][k] in order[..i]
  }

  ghost predicate Topological(g: Graph, order: seq<Id>) {
    NoDuplicates(order) && forall i: nat :: i < |order| ==> order[i] in g && DepsBefore(g, order, i)
  }

  /** A start order: every registered module once, each after its dependencies. */
  ghost predicate IsStartOrder(g: Graph, order: seq<Id>) {
    Topological(g, order) && (set id | id in order) == g.Keys
  }

  // ---- a start order exists only for a closed, acyclic graph ----

  lemma EdgeGoesBack(g: Graph, order: seq<Id>, i: nat, b: Id) returns (j: nat)
    requires Topological(g, order) && i < |order| && Edge(g, order[i], b)
    ensures j < i && order[j] == b
  {
    assert DepsBefore(g, order, i);
    var k :| 0 <= k < |g[order[i]]| && g[order[i]][k] == b;
    assert b in order[..i];
    j :| 0 <= j < i && order[..i][j] == b;
  }

  /** Along a path, positions in a start order only fall. */
  lemma {:induction false} PathGoesBack(g: Graph, order: seq<Id>, p: seq<Id>, i: nat) returns (j: nat)
    requires Topological(g, order) && |p| >= 2 && IsPath(g, p) && i < |order| && order[i] == p[0]
    ensures j < i && order[j] == p[|p| - 1]
    decreases |p|
  {
    assert Edge(g, p[0], p[1]);
    j := EdgeGoesBack(g, order, i, p[1]);
    if |p| > 2 {
      forall k | 0 <= k < |p[1..]| - 1 ensures Edge(g, p[1..][k], p[1..][k + 1]) { assert Edge(g, p[k + 1], p[k + 2]); }
      j := PathGoesBack(g, order, p[1..], j);
    }
  }

  lemma OrderMeansAcyclic(g: Graph, order: seq<Id>)
    requires IsStartOrder(g, order)
    ensures Closed(g) && Acyclic(g)
  {
    forall id, k | id in g && 0 <= k < |g[id]| ensures g[id][k] in g {
      assert id in (set x | x in order);
      var i :| 0 <= i < |order| && order[i] == id;
      assert DepsBefore(g, order, i);
      assert g[id][k] in (set x | x in order);
    }
    forall p: seq<Id> ensures !IsCycle(g, p) {
      if IsCycle(g, p) {
        assert Edge(g, p[0], p[1]);
        assert p[0] in (set x | x in order);
        var i :| 0 <= i < |order| && order[i] == p[0];
        var j := PathGoesBack(g, order, p, i);
        assert false;
      }
    }
  }

  // ---- the search ----

  datatype Visit = Visiting | Visited

  /** The closure's variables; a module with no entry in `visitState` is unvisited. */
  class StartOrderSearch {
    const modules: Graph
    var visitState: map<Id, Visit>
    var order: seq<Id>

    constructor (modules: Graph)
      ensures this.modules == modules && visitState == map[] && order == []
    {
      this.modules := modules;
      visitState, order := map[], [];
    }

    /** `stack` is the modules being visited, in the order they were entered. */
    ghost predicate Valid(stack: seq<Id>)
      reads this
    {
      && IsPath(modules, stack)
      && Topological(modules, order)
      && (forall id :: id in visitState ==> id in modules)
      && (forall id :: id in stack <==> id in visitState && visitState[id].Visiting?)
      && (forall id :: id in order <==> id in visitState && visitState[id].Visited?)
    }

    method Visit(id: Id, ghost stack: seq<Id>) returns (ok: bool)
      requires Valid(stack)
      requires |stack| > 0 ==> Edge(modules, stack[|stack| - 1], id)
      modifies this
      ensures ok ==> Valid(stack) && id in order && visitState.Keys >= old(visitState.Keys)
      ensures ok ==> forall x :: x in old(order) ==> x in order
      ensures !ok ==> !Closed(modules) || !Acyclic(modules) || id !in modules
      decreases modules.Keys - visitState.Keys, 0
    {
      if id in visitState {
        if visitState[id].Visiting? {
          CycleFound(modules, stack, id);
          return false;
        }
        return true;
      }
      if id !in modules {
        return false;
      }
      ghost var unvisited := modules.Keys - visitState.Keys;
      visitState := visitState[id := Visiting];
      assert modules.Keys - visitState.Keys == unvisited - {id} && id in unvisited;
      ghost var inner := stack + [id];
      ok := VisitAll(id, inner);
      if !ok { return; }
      Finish(id, stack);
    }

    /** The loop over the dependencies of `id`. */
    method VisitAll(id: Id, ghost stack: seq<Id>) returns (ok: bool)
      requires Valid(stack) && |stack| > 0 && stack[|stack| - 1] == id && id in modules
      modifies this
      ensures ok ==> Valid(stack) && visitState.Keys >= old(visitState.Keys)
      ensures ok ==> (forall x :: x in old(order) ==> x in order) && forall k :: 0 <= k < |modules[id]| ==> modules[id][k] in order
      ensures !ok ==> !Closed(modules) || !Acyclic(modules)
      decreases modules.Keys - visitState.Keys, 1
    {
      var deps := modules[id];
      for i := 0 to |deps|
        invariant Valid(stack) && visitState.Keys >= old(visitState.Keys)
        invariant forall x :: x in old(order) ==> x in order
        invariant forall k :: 0 <= k < i ==> deps[k] in order
      {
        ok := Visit(deps[i], stack);
        if !ok { return; }
      }
      return true;
    }

    /** Mark `id` visited and list it, its dependencies being listed already. */
    method Finish(id: Id, ghost stack: seq<Id>)
      requires Valid(stack + [id]) && id !in stack && id in modules
      requires forall k :: 0 <= k < |modules[id]| ==> modules[id][k] in order
      modifies this
      ensures Valid(stack) && order == old(order) + [id] && visitState == old(visitState)[id := Visited]
    {
      PathPrefix(modules, stack, id);
      TopologicalAppend(modules, order, id);
      assert forall x :: x in stack + [id] <==> x in stack || x == id;
      visitState := visitState[id := Visited];
      order := order + [id];
    }
  }

  lemma PathPrefix(g: Graph, stack: seq<Id>, id: Id)
    requires IsPath(g, stack + [id])
    ensures IsPath(g, stack)
  {
    forall i | 0 <= i < |stack| - 1 ensures Edge(g, stack[i], stack[i + 1]) {
      assert Edge(g, (stack + [id])[i], (stack + [id])[i + 1]);
    }
  }

  lemma TopologicalAppend(g: Graph, order: seq<Id>, id: Id)
    requires Topological(g, order) && id !in order && id in g
    requires forall k :: 0 <= k < |g[id]| ==> g[id][k] in order
    ensures Topological(g, order + [id])
  {
    var next := order + [id];
    forall i: nat | i < |next| ensures next[i] in g && DepsBefore(g, next, i) {
      if i < |order| {
        assert DepsBefore(g, order, i);
        assert next[..i] == order[..i];
      } else {
        assert next[..i] == order;
      }
    }
  }

  /** Meeting a module that is being visited closes a cycle. */
  lemma CycleFound(g: Graph, stack: seq<Id>, id: Id)
    requires IsPath(g, stack) && id in stack && Edge(g, stack[|stack| - 1], id)
    ensures !Acyclic(g)
  {
    var i :| 0 <= i < |stack| && stack[i] == id;
    var p := stack[i..] + [id];
    forall k | 0 <= k < |p| - 1 ensures Edge(g, p[k], p[k + 1]) {
      if k + 1 < |stack[i..]| { assert Edge(g, stack[i + k], stack[i + k + 1]); }
    }
    assert IsCycle(g, p);
  }

  /** startOrderLocked: it succeeds exactly when every dependency is registered and there is no cycle. */
  method StartOrder(modules: Graph, registration: seq<Id>) returns (ok: bool, order: seq<Id>)
    requires (set id | id in registration) == modules.Keys
    ensures ok <==> Closed(modules) && Acyclic(modules)
    ensures ok ==> IsStartOrder(modules, order) && |order| == |modules|
  {
    var search := new StartOrderSearch(modules);
    for i := 0 to |registration|
      invariant search.modules == modules && search.Valid([])
      invariant forall k :: 0 <= k < i ==> registration[k] in search.order
    {
      assert registration[i] in (set id | id in registration);
      ok := search.Visit(registration[i], []);
      if !ok { return false, []; }
    }
    ok, order := true, search.order;
    forall id | id in modules ensures id in order {
      assert id in (set x | x in registration);
    }
    assert (set id | id in order) == modules.Keys;
    OrderMeansAcyclic(modules, order);
    NoDuplicatesSize(order);
  }

  lemma {:induction false} NoDuplicatesSize(s: seq<Id>)
    requires NoDuplicates(s)
    ensures |set id | id in s| == |s|
  {
    if |s| > 0 {
      var n := |s| - 1;
      NoDuplicatesSize(s[..n]);
      assert (set id | id in s) == (set id | id in s[..n]) + {s[n]};
    }
  }
}
