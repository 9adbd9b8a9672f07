/**
 The plugin host as the object it is: each method runs under the operation
 mutex and is proved to move `Value` as the functions of `PluginHost` say.
 `faults` decides which calls into a module fail.
 */
module PluginObject {
  import opened PluginOrder
  import opened PluginHost

  class HostObject {
    var modules: Graph
    var registration: seq<Id>
    var started: seq<Id>
    var state: HostState
    var trace: seq<Event>

    ghost function Value(): (h: Host)
      reads this
    {
      Host(modules, registration, started, state, trace)
    }

    ghost predicate Valid()
      reads this
    {
      (set id | id in registration) == modules.Keys && (state == Idle ==> started == [])
    }

    constructor ()
      ensures Valid() && Value() == Host(map[], [], [], Idle, [])
    {
      modules, registration, started, state, trace := map[], [], [], Idle, [];
    }

    method RegisterModule(id: Id, deps: seq<Id>) returns (ok: bool)
      requires Valid()
      modifies this
      ensures Valid() && Value() == Register(old(Value()), id, deps)
      ensures ok == (old(state) == Idle && id !in old(modules))
    {
      if state != Idle || id in modules { return false; }
      modules := modules[id := deps];
      registration := registration + [id];
      assert (set x | x in registration) == (set x | x in old(registration)) + {id};
      return true;
    }

    /** stopIDs: every stop is tried, whatever the others do. */
    method StopIds(ids: seq<Id>, fails: set<Id>) returns (failed: seq<Id>)
      modifies this`trace
      ensures failed == FailedStops(ids, fails) && trace == old(trace) + StopEvents(ids, fails)
    {
      failed := [];
      for i := 0 to |ids|
        invariant failed == FailedStops(ids[..i], fails) && trace == old(trace) + StopEvents(ids[..i], fails)
      {
        assert ids[..i + 1][..i] == ids[..i];
        trace := trace + [StopTried(ids[i], ids[i] !in fails)];
        assert StopEvents(ids[..i + 1], fails) == StopEvents(ids[..i], fails) + [StopTried(ids[i], ids[i] !in fails)];
        if ids[i] in fails { failed := failed + [ids[i]]; }
      }
      assert ids[..|ids|] == ids;
    }

    /** The loop of Start: how many modules of the order started. */
    method StartEach(order: seq<Id>, fails: set<Id>) returns (n: nat)
      modifies this`trace
      ensures n == StartsBefore(order, fails)
      ensures trace == old(trace) + if n < |order| then Attempt(order, n) else StartEvents(order)
    {
      n := 0;
      while n < |order|
        invariant n <= |order| && trace == old(trace) + StartEvents(order[..n])
        invariant forall i :: 0 <= i < n ==> order[i] !in fails
      {
        if order[n] in fails {
          EventsRegroup(old(trace), StartEvents(order[..n]), [StartFailed(order[n])]);
          trace := trace + [StartFailed(order[n])];
          FirstFailure(order, fails, n);
          return;
        }
        trace := trace + [Started(order[n])];
        n := n + 1;
        assert StartEvents(order[..n]) == StartEvents(order[..n - 1]) + [Started(order[n - 1])];
      }
      FirstFailure(order, fails, n);
      assert order[..n] == order;
    }

    /** The rollback: every started module and the failing one is stopped, last first. */
    method RollBack(ids: seq<Id>, fails: set<Id>)
      modifies this`trace, this`started, this`state
      ensures started == FailedStops(ids, fails) && state == FailedHost
      ensures trace == old(trace) + StopEvents(Reverse(ids), fails)
    {
      var reversed := ReverseClone(ids);
      var failed := StopIds(reversed, fails);
      ReversedFailures(ids, fails);
      started := ReverseClone(failed);
      state := FailedHost;
    }

    /** Start, once the order is known. */
    method StartInOrder(order: seq<Id>, faults: Faults) returns (ok: bool)
      requires state == Idle
      modifies this`trace, this`started, this`state
      ensures Value() == Start(old(Value()), order, faults) && ok == (state == RunningHost)
    {
      state := Starting;
      var n := StartEach(order, faults.start);
      if n < |order| {
        RollBack(order[..n + 1], faults.stop);
        EventsRegroup(old(trace), Attempt(order, n), StopEvents(Reverse(order[..n + 1]), faults.stop));
        return false;
      }
      started, state := order, RunningHost;
      return true;
    }

    method StartModules(faults: Faults) returns (ok: bool, order: seq<Id>)
      requires Valid()
      modifies this
      ensures Valid()
      ensures old(state) == Idle && !(Closed(modules) && Acyclic(modules)) ==> !ok && Value() == old(Value())
      ensures old(state) == Idle && Closed(modules) && Acyclic(modules) ==>
                IsStartOrder(modules, order) && Value() == Start(old(Value()), order, faults)
      ensures old(state) != Idle ==> Value() == old(Value()) && ok == (old(state) == RunningHost)
      ensures ok ==> state == RunningHost
    {
      if state == RunningHost { return true, []; }
      if state != Idle { return false, []; }
      ok, order := StartOrder(modules, registration);
      if ok { ok := StartInOrder(order, faults); }
    }

    method StopModules(faults: Faults) returns (ok: bool)
      requires Valid()
      modifies this
      ensures Valid() && Value() == Stop(old(Value()), faults)
      ensures ok == (started == [])
    {
      if |started| == 0 {
        state := Stopped;
        return true;
      }
      state := Stopping;
      var order := ReverseClone(started);
      var failed := StopIds(order, faults.stop);
      ReversedFailures(started, faults.stop);
      started := ReverseClone(failed);
      state := if |failed| == 0 then Stopped else FailedHost;
      return |failed| == 0;
    }
  }

  lemma EventsRegroup(a: seq<Event>, b: seq<Event>, c: seq<Event>)
    ensures a + b + c == a + (b + c)
  {
  }

  lemma {:induction false} FirstFailure(order: seq<Id>, fails: set<Id>, n: nat)
    requires n <= |order| && (forall i :: 0 <= i < n ==> order[i] !in fails) && (n < |order| ==> order[n] in fails)
    ensures StartsBefore(order, fails) == n
  {
  }
}
