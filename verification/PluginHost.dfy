/**
 The plugin host's lifecycle: registration, start in dependency order with
 rollback, and stop. Which modules fail to start or stop in a call comes from
 outside; `trace` records every call the host makes into a module.
 */
module PluginHost {
  import opened PluginOrder

  datatype HostState = Idle | Starting | RunningHost | Stopping | Stopped | FailedHost

  datatype Event = Started(id: Id) | StartFailed(id: Id) | StopTried(id: Id, ok: bool)

  datatype Host = Host(modules: Graph, registration: seq<Id>, started: seq<Id>, state: HostState, trace: seq<Event>)

  /** One Start or Stop call: the modules whose start and stop fail in it. */
  datatype Faults = Faults(start: set<Id>, stop: set<Id>)

  function Reverse(s: seq<Id>): (r: seq<Id>)
    ensures |r| == |s| && forall i :: 0 <= i < |s| ==> r[i] == s[|s| - 1 - i]
  {
    seq(|s|, i requires 0 <= i < |s| => s[|s| - 1 - i])
  }

  /** reverseClone: swap from both ends of a copy. */
  method ReverseClone(values: seq<Id>) returns (out: seq<Id>)
    ensures out == Reverse(values)
  {
    out := values;
    var left, right := 0, |values| - 1;
    while left < right
      invariant |out| == |values| && 0 <= left <= right + 2 && right == |values| - 1 - left
      invariant forall k :: 0 <= k < left ==> out[k] == values[|values| - 1 - k]
      invariant forall k :: left <= k <= right ==> out[k] == values[k]
      invariant forall k :: 0 <= k && right < k < |values| ==> out[k] == values[|values| - 1 - k]
    {
      out := out[left := out[right]][right := out[left]];
      left, right := left + 1, right - 1;
    }
  }

  /** The ids whose stop fails, in the order they are tried. */
  function FailedStops(ids: seq<Id>, fails: set<Id>): (r: seq<Id>) {
    if |ids| == 0 then []
    else FailedStops(ids[..|ids| - 1], fails) + (if ids[|ids| - 1] in fails then [ids[|ids| - 1]] else [])
  }

  function StopEvents(ids: seq<Id>, fails: set<Id>): (r: seq<Event>)
    ensures |r| == |ids| && forall i :: 0 <= i < |ids| ==> r[i] == StopTried(ids[i], ids[i] !in fails)
  {
    seq(|ids|, i requires 0 <= i < |ids| => StopTried(ids[i], ids[i] !in fails))
  }

  /** How many modules of the order start before one fails. */
  function StartsBefore(order: seq<Id>, fails: set<Id>): (n: nat)
    ensures n <= |order|
    ensures forall i :: 0 <= i < n ==> order[i] !in fails
    ensures n < |order| ==> order[n] in fails
  {
    if |order| == 0 || order[0] in fails then 0 else 1 + StartsBefore(order[1..], fails)
  }

  function StartEvents(ids: seq<Id>): (r: seq<Event>)
    ensures |r| == |ids| && forall i :: 0 <= i < |ids| ==> r[i] == Started(ids[i])
  {
    seq(|ids|, i requires 0 <= i < |ids| => Started(ids[i]))
  }

  /** The starts of an order that fails at `n`. */
  function Attempt(order: seq<Id>, n: nat): (r: seq<Event>)
    requires n < |order|
  {
    StartEvents(order[..n]) + [StartFailed(order[n])]
  }

  /** A failed Start: the attempt, and the stops of what it started and the failing module, last first. */
  function RollbackEvents(order: seq<Id>, n: nat, fails: set<Id>): (r: seq<Event>)
    requires n < |order|
  {
    Attempt(order, n) + StopEvents(Reverse(order[..n + 1]), fails)
  }

  /** Register, for a valid manifest. */
  function Register(h: Host, id: Id, deps: seq<Id>): (r: Host) {
    if h.state != Idle || id in h.modules then h
    else h.(modules := h.modules[id := deps], registration := h.registration + [id])
  }

  /** Start, with the order the search found; `None` of it is used when the search fails. */
  function Start(h: Host, order: seq<Id>, faults: Faults): (r: Host) {
    if h.state != Idle then h
    else
      var n := StartsBefore(order, faults.start);
      if n == |order| then h.(started := order, state := RunningHost, trace := h.trace + StartEvents(order))
      else
        var rollback := order[..n + 1];
        h.(started := FailedStops(rollback, faults.stop), state := FailedHost,
           trace := h.trace + RollbackEvents(order, n, faults.stop))
  }

  function Stop(h: Host, faults: Faults): (r: Host) {
    if h.started == [] then h.(state := Stopped)
    else
      var failed := FailedStops(h.started, faults.stop);
      h.(started := failed, state := if failed == [] then Stopped else FailedHost,
         trace := h.trace + StopEvents(Reverse(h.started), faults.stop))
  }

  // ---- reversing twice ----

  lemma {:induction false} FailedStopsIs(ids: seq<Id>, fails: set<Id>)
    ensures forall x :: x in FailedStops(ids, fails) <==> x in ids && x in fails
  {
    if |ids| > 0 {
      var n := |ids| - 1;
      FailedStopsIs(ids[..n], fails);
      assert ids == ids[..n] + [ids[n]];
    }
  }

  lemma {:induction false} FailedStopsConcat(a: seq<Id>, b: seq<Id>, fails: set<Id>)
    ensures FailedStops(a + b, fails) == FailedStops(a, fails) + FailedStops(b, fails)
  {
    if |b| == 0 {
      assert a + b == a;
    } else {
      var n := |b| - 1;
      FailedStopsConcat(a, b[..n], fails);
      assert (a + b)[..|a + b| - 1] == a + b[..n];
    }
  }

  lemma {:induction false} ReverseConcat(a: seq<Id>, b: seq<Id>)
    ensures Reverse(a + b) == Reverse(b) + Reverse(a)
  {
  }

  /** Trying in reverse and reversing the failures lists them in start order. */
  lemma {:induction false} ReversedFailures(ids: seq<Id>, fails: set<Id>)
    ensures Reverse(FailedStops(Reverse(ids), fails)) == FailedStops(ids, fails)
  {
    if |ids| > 0 {
      var n := |ids| - 1;
      ReversedFailures(ids[..n], fails);
      var last := [ids[n]];
      ReverseLast(ids);
      FailedStopsConcat(last, Reverse(ids[..n]), fails);
      ReverseConcat(FailedStops(last, fails), FailedStops(Reverse(ids[..n]), fails));
      OneFailure(ids[n], fails);
    }
  }

  lemma ReverseLast(ids: seq<Id>)
    requires |ids| > 0
    ensures Reverse(ids) == [ids[|ids| - 1]] + Reverse(ids[..|ids| - 1])
  {
  }

  lemma OneFailure(id: Id, fails: set<Id>)
    ensures FailedStops([id], fails) == (if id in fails then [id] else []) == Reverse(FailedStops([id], fails))
  {
    assert [id][..0] == [];
  }
}
