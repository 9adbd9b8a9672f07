/** The plugin host over whole runs of Register, Start and Stop. */
module PluginRuns {
  import opened PluginOrder
  import opened PluginHost

  datatype Op = RegisterOp(id: Id, deps: seq<Id>) | StartOp(order: seq<Id>, faults: Faults) | StopOp(faults: Faults)

  const NEW_HOST := Host(map[], [], [], Idle, [])

  /** One call. Start fails without effect when the search finds no order, and otherwise follows the order it finds. */
  ghost predicate Step(h: Host, op: Op, r: Host) {
    match op
    case RegisterOp(id, deps) => r == Register(h, id, deps)
    case StartOp(order, faults) =>
      if h.state == Idle && !(Closed(h.modules) && Acyclic(h.modules)) then r == h
      else (h.state == Idle ==> IsStartOrder(h.modules, order)) && r == Start(h, order, faults)
    case StopOp(faults) => r == Stop(h, faults)
  }

  ghost predicate IsRun(hosts: seq<Host>, ops: seq<Op>) {
    && |hosts| == |ops| + 1 && hosts[0] == NEW_HOST
    && forall i :: 0 <= i < |ops| ==> Step(hosts[i], ops[i], hosts[i + 1])
  }

  // ---- what a trace means ----

  function Without(s: seq<Id>, gone: set<Id>): (r: seq<Id>) {
    if |s| == 0 then []
    else
      var rest := Without(s[..|s| - 1], gone);
      if s[|s| - 1] in gone then rest else rest + [s[|s| - 1]]
  }

  /** The modules that were started and not stopped successfully since, in start order. */
  function Live(trace: seq<Event>): (r: seq<Id>) {
    if |trace| == 0 then []
    else
      var before := Live(trace[..|trace| - 1]);
      match trace[|trace| - 1]
      case Started(id) => before + [id]
      case StartFailed(id) => before + [id]
      case StopTried(id, ok) => if ok then Without(before, {id}) else before
  }

  predicate Begins(e: Event, id: Id) { e == Started(id) || e == StartFailed(id) }

  ghost predicate StopTriedIn(trace: seq<Event>, id: Id) {
    exists k :: 0 <= k < |trace| && trace[k].StopTried? && trace[k].id == id
  }

  /** `dep` had started when event `i` came, and nobody had tried to stop it. */
  ghost predicate UpAt(trace: seq<Event>, dep: Id, i: nat) {
    exists j :: 0 <= j < i <= |trace| && trace[j] == Started(dep) && forall k :: j < k < i ==> !(trace[k].StopTried? && trace[k].id == dep)
  }

  /** A module is started only while all its dependencies are up. */
  ghost predicate StartsInOrder(g: Graph, trace: seq<Event>, i: nat) {
    i < |trace| && !trace[i].StopTried? && trace[i].id in g ==>
      forall k :: 0 <= k < |g[trace[i].id]| ==> UpAt(trace, g[trace[i].id][k], i)
  }

  /** A module is stopped only after every started module that needs it was told to stop. */
  ghost predicate StopsInOrder(g: Graph, trace: seq<Event>, i: nat) {
    i < |trace| && trace[i].StopTried? ==>
      forall x, j :: 0 <= j < i && Begins(trace[j], x) && Edge(g, x, trace[i].id) ==> StopTriedIn(trace[..i], x)
  }

  ghost predicate TraceOk(g: Graph, trace: seq<Event>) {
    forall i: nat :: StartsInOrder(g, trace, i) && StopsInOrder(g, trace, i)
  }

  /** No module of the list needs itself or a later one. */
  ghost predicate InStartOrder(g: Graph, ids: seq<Id>) {
    NoDuplicates(ids) && forall i, j :: 0 <= i <= j < |ids| ==> !Edge(g, ids[i], ids[j])
  }

  ghost predicate Inv(h: Host) {
    && (set id | id in h.registration) == h.modules.Keys && NoDuplicates(h.registration)
    && (h.state == Idle ==> h.started == [] && h.trace == [])
    && InStartOrder(h.modules, h.started)
    && h.started == Live(h.trace)
    && TraceOk(h.modules, h.trace)
  }

  // ---- lists ----

  lemma {:induction false} WithoutTwice(s: seq<Id>, a: set<Id>, b: set<Id>)
    ensures Without(Without(s, a), b) == Without(s, a + b)
  {
    if |s| > 0 {
      var n := |s| - 1;
      WithoutTwice(s[..n], a, b);
      var kept := Without(s[..n], a);
      if s[n] !in a { assert (kept + [s[n]])[..|kept|] == kept; }
    }
  }

  lemma {:induction false} WithoutNothing(s: seq<Id>)
    ensures Without(s, {}) == s
  {
    if |s| > 0 { WithoutNothing(s[..|s| - 1]); }
  }

  lemma {:induction false} WithoutIs(s: seq<Id>, gone: set<Id>)
    ensures forall x :: x in Without(s, gone) <==> x in s && x !in gone
  {
    if |s| > 0 {
      WithoutIs(s[..|s| - 1], gone);
      assert s == s[..|s| - 1] + [s[|s| - 1]];
    }
  }

  /** Dropping exactly the modules whose stop succeeds leaves the failures. */
  lemma {:induction false} WithoutStopped(ids: seq<Id>, gone: set<Id>, fails: set<Id>)
    requires forall i :: 0 <= i < |ids| ==> (ids[i] in gone <==> ids[i] !in fails)
    ensures Without(ids, gone) == FailedStops(ids, fails)
  {
    if |ids| > 0 { WithoutStopped(ids[..|ids| - 1], gone, fails); }
  }

  lemma TopologicalInStartOrder(g: Graph, order: seq<Id>, n: nat)
    requires Topological(g, order) && n <= |order|
    ensures InStartOrder(g, order[..n])
  {
    forall i, j | 0 <= i <= j < n ensures !Edge(g, order[i], order[j]) { assert DepsBefore(g, order, i); }
  }

  lemma {:induction false} FailedInStartOrder(g: Graph, ids: seq<Id>, fails: set<Id>)
    requires InStartOrder(g, ids)
    ensures InStartOrder(g, FailedStops(ids, fails))
  {
    if |ids| > 0 {
      var n := |ids| - 1;
      FailedInStartOrder(g, ids[..n], fails);
      var rest := FailedStops(ids[..n], fails);
      FailedStopsIs(ids[..n], fails);
      forall i | 0 <= i < |rest| ensures rest[i] != ids[n] && !Edge(g, rest[i], ids[n]) { assert rest[i] in ids[..n]; }
    }
  }

  // ---- what is still live after stops ----

  lemma {:induction false} LiveStarts(trace: seq<Event>, ids: seq<Id>)
    ensures Live(trace + StartEvents(ids)) == Live(trace) + ids
  {
    if |ids| == 0 {
      assert trace + StartEvents(ids) == trace;
    } else {
      var n := |ids| - 1;
      LiveStarts(trace, ids[..n]);
      LastStart(trace, ids, Live(trace));
      LiveStarted(trace + StartEvents(ids[..n]), ids[n]);
    }
  }

  lemma LiveStarted(trace: seq<Event>, id: Id)
    ensures Live(trace + [Started(id)]) == Live(trace) + [id]
  {
    assert (trace + [Started(id)])[..|trace|] == trace;
  }

  lemma LastStart(trace: seq<Event>, ids: seq<Id>, before: seq<Id>)
    requires |ids| > 0
    ensures trace + StartEvents(ids) == trace + StartEvents(ids[..|ids| - 1]) + [Started(ids[|ids| - 1])]
    ensures before + ids[..|ids| - 1] + [ids[|ids| - 1]] == before + ids
  {
  }

  lemma LiveSnoc(trace: seq<Event>, e: Event)
    requires e.StopTried?
    ensures Live(trace + [e]) == if e.ok then Without(Live(trace), {e.id}) else Live(trace)
  {
    assert (trace + [e])[..|trace|] == trace;
  }

  lemma {:induction false} LiveStops(trace: seq<Event>, tried: seq<Id>, fails: set<Id>)
    ensures Live(trace + StopEvents(tried, fails)) == Without(Live(trace), (set x | x in tried) - fails)
  {
    if |tried| == 0 {
      assert trace + StopEvents(tried, fails) == trace;
      WithoutNothing(Live(trace));
      assert (set x | x in tried) - fails == {};
    } else {
      var n := |tried| - 1;
      LiveStops(trace, tried[..n], fails);
      var before := trace + StopEvents(tried[..n], fails);
      var e := StopTried(tried[n], tried[n] !in fails);
      assert trace + StopEvents(tried, fails) == before + [e];
      LiveSnoc(before, e);
      GoneGrows(Live(trace), tried, fails, n);
    }
  }

  lemma GoneGrows(live: seq<Id>, tried: seq<Id>, fails: set<Id>, n: nat)
    requires |tried| == n + 1
    ensures var gone := (set x | x in tried[..n]) - fails;
            Without(live, (set x | x in tried) - fails)
            == if tried[n] in fails then Without(live, gone) else Without(Without(live, gone), {tried[n]})
  {
    var gone := (set x | x in tried[..n]) - fails;
    assert tried == tried[..n] + [tried[n]];
    assert (set x | x in tried) - fails == if tried[n] in fails then gone else gone + {tried[n]};
    WithoutTwice(live, gone, {tried[n]});
  }

  /** Trying to stop everything live, last first, leaves the failures, in start order. */
  lemma LiveAfterStop(trace: seq<Event>, ids: seq<Id>, fails: set<Id>)
    requires Live(trace) == ids
    ensures Live(trace + StopEvents(Reverse(ids), fails)) == FailedStops(ids, fails)
  {
    LiveStops(trace, Reverse(ids), fails);
    var gone := (set x | x in Reverse(ids)) - fails;
    forall i | 0 <= i < |ids| ensures ids[i] in gone <==> ids[i] !in fails { assert Reverse(ids)[|ids| - 1 - i] == ids[i]; }
    WithoutStopped(ids, gone, fails);
  }

  /** A module that began and is no longer live was told to stop. */
  lemma {:induction false} GoneWasStopped(trace: seq<Event>, x: Id, j: nat)
    requires j < |trace| && Begins(trace[j], x) && x !in Live(trace)
    ensures StopTriedIn(trace, x)
  {
    var n := |trace| - 1;
    var before := trace[..n];
    if trace[n].StopTried? && trace[n].id == x {
    } else {
      if trace[n].StopTried? { WithoutIs(Live(before), {trace[n].id}); }
      assert j < n;
      assert before[j] == trace[j];
      GoneWasStopped(before, x, j);
      var k :| 0 <= k < |before| && before[k].StopTried? && before[k].id == x;
      assert trace[k] == before[k];
    }
  }

  // ---- each call ----

  lemma PrefixKept(g: Graph, trace: seq<Event>, more: seq<Event>, i: nat)
    requires TraceOk(g, trace) && i < |trace|
    ensures StartsInOrder(g, trace + more, i) && StopsInOrder(g, trace + more, i)
  {
    var whole := trace + more;
    assert StartsInOrder(g, trace, i) && StopsInOrder(g, trace, i);
    assert whole[..i] == trace[..i];
    if !trace[i].StopTried? && trace[i].id in g {
      forall k | 0 <= k < |g[trace[i].id]| ensures UpAt(whole, g[trace[i].id][k], i) {
        var dep := g[trace[i].id][k];
        var j :| 0 <= j < i && trace[j] == Started(dep) && forall m :: j < m < i ==> !(trace[m].StopTried? && trace[m].id == dep);
        assert whole[j] == Started(dep);
      }
    }
    if trace[i].StopTried? {
      forall x, j | 0 <= j < i && Begins(whole[j], x) && Edge(g, x, whole[i].id) ensures StopTriedIn(whole[..i], x) {
        assert Begins(trace[j], x);
      }
    }
  }

  /** Starting a prefix of a start order, whatever the last module does. */
  lemma StartsOk(g: Graph, order: seq<Id>, trace: seq<Event>, i: nat)
    requires Topological(g, order) && i < |trace| && i < |order|
    requires forall k :: 0 <= k < i ==> trace[k] == Started(order[k])
    requires Begins(trace[i], order[i])
    ensures StartsInOrder(g, trace, i)
  {
    assert DepsBefore(g, order, i);
    forall k | 0 <= k < |g[order[i]]| ensures UpAt(trace, g[order[i]][k], i) {
      var dep := g[order[i]][k];
      assert dep in order[..i];
      var j :| 0 <= j < i && order[j] == dep;
      assert trace[j] == Started(dep);
    }
  }

  /** Events that stop `ids`, last first. */
  ghost predicate StopsReversed(stops: seq<Event>, ids: seq<Id>) {
    |stops| == |ids| && forall k :: 0 <= k < |ids| ==> stops[k].StopTried? && stops[k].id == ids[|ids| - 1 - k]
  }

  /** Everything begun and not listed was told to stop. */
  ghost predicate OthersStopped(trace: seq<Event>, ids: seq<Id>) {
    forall x, j :: 0 <= j < |trace| && Begins(trace[j], x) && x !in ids ==> StopTriedIn(trace, x)
  }

  lemma TriedEarlier(whole: seq<Event>, k: nat, i: nat, x: Id)
    requires k < i <= |whole| && whole[k].StopTried? && whole[k].id == x
    ensures StopTriedIn(whole[..i], x)
  {
    assert whole[..i][k] == whole[k];
  }

  /** Stops in the reverse of a start order reach a module after everything that needs it. */
  lemma StopsOk(g: Graph, trace: seq<Event>, ids: seq<Id>, stops: seq<Event>, q: nat)
    requires InStartOrder(g, ids) && q < |ids| && StopsReversed(stops, ids) && OthersStopped(trace, ids)
    ensures StopsInOrder(g, trace + stops, |trace| + q)
  {
    var whole, i := trace + stops, |trace| + q;
    var m := |ids| - 1 - q;
    assert whole[i] == stops[q] && stops[q].id == ids[m];
    forall x, j | 0 <= j < i && Begins(whole[j], x) && Edge(g, x, whole[i].id) ensures StopTriedIn(whole[..i], x) {
      assert j < |trace|;
      if x in ids {
        var p :| 0 <= p < |ids| && ids[p] == x;
        assert p > m;
        var k := |ids| - 1 - p;
        assert whole[|trace| + k] == stops[k];
        TriedEarlier(whole, |trace| + k, i, x);
      } else {
        var k :| 0 <= k < |trace| && trace[k].StopTried? && trace[k].id == x;
        assert whole[k] == trace[k];
        TriedEarlier(whole, k, i, x);
      }
    }
  }

  lemma StopTraceOk(g: Graph, trace: seq<Event>, ids: seq<Id>, stops: seq<Event>)
    requires TraceOk(g, trace) && InStartOrder(g, ids) && StopsReversed(stops, ids) && OthersStopped(trace, ids)
    ensures TraceOk(g, trace + stops)
  {
    forall i: nat ensures StartsInOrder(g, trace + stops, i) && StopsInOrder(g, trace + stops, i) {
      if i < |trace| {
        PrefixKept(g, trace, stops, i);
      } else if i < |trace + stops| {
        StopsOk(g, trace, ids, stops, i - |trace|);
        assert (trace + stops)[i] == stops[i - |trace|];
      }
    }
  }

  lemma StopKeeps(h: Host, faults: Faults)
    requires Inv(h)
    ensures Inv(Stop(h, faults))
  {
    if h.started != [] {
      LiveAfterStop(h.trace, h.started, faults.stop);
      FailedInStartOrder(h.modules, h.started, faults.stop);
      forall x, j | 0 <= j < |h.trace| && Begins(h.trace[j], x) && x !in h.started ensures StopTriedIn(h.trace, x) {
        GoneWasStopped(h.trace, x, j);
      }
      StopTraceOk(h.modules, h.trace, h.started, StopEvents(Reverse(h.started), faults.stop));
    }
  }

  /** The events of a Start up to its failure. */
  lemma AttemptLive(order: seq<Id>, n: nat)
    requires n < |order|
    ensures Live(Attempt(order, n)) == order[..n + 1]
  {
    LiveStarts([], order[..n]);
    assert [] + StartEvents(order[..n]) == StartEvents(order[..n]);
    assert Attempt(order, n)[..n] == StartEvents(order[..n]);
    assert order[..n] + [order[n]] == order[..n + 1];
  }

  lemma AttemptBegins(order: seq<Id>, n: nat)
    requires n < |order|
    ensures |Attempt(order, n)| == n + 1 && Begins(Attempt(order, n)[n], order[n])
    ensures forall k :: 0 <= k < n ==> Attempt(order, n)[k] == Started(order[k])
  {
    forall k | 0 <= k < n ensures Attempt(order, n)[k] == Started(order[k]) { assert order[..n][k] == order[k]; }
  }

  lemma AttemptOk(g: Graph, order: seq<Id>, n: nat)
    requires Topological(g, order) && n < |order|
    ensures TraceOk(g, Attempt(order, n))
    ensures OthersStopped(Attempt(order, n), order[..n + 1])
  {
    var started, ids := Attempt(order, n), order[..n + 1];
    AttemptBegins(order, n);
    forall i: nat ensures StartsInOrder(g, started, i) && StopsInOrder(g, started, i) {
      if i <= n { StartsOk(g, order, started, i); }
    }
    forall x, j | 0 <= j < |started| && Begins(started[j], x) ensures x in ids { assert ids[j] == x; }
  }

  lemma StartFailureTrace(g: Graph, order: seq<Id>, n: nat, fails: set<Id>)
    requires Topological(g, order) && n < |order|
    ensures var trace := RollbackEvents(order, n, fails);
            TraceOk(g, trace) && Live(trace) == FailedStops(order[..n + 1], fails)
  {
    TopologicalInStartOrder(g, order, n + 1);
    AttemptOk(g, order, n);
    AttemptLive(order, n);
    LiveAfterStop(Attempt(order, n), order[..n + 1], fails);
    StopTraceOk(g, Attempt(order, n), order[..n + 1], StopEvents(Reverse(order[..n + 1]), fails));
  }

  lemma StartSuccessTrace(g: Graph, order: seq<Id>)
    requires Topological(g, order)
    ensures TraceOk(g, StartEvents(order)) && Live(StartEvents(order)) == order && InStartOrder(g, order)
  {
    assert [] + StartEvents(order) == StartEvents(order);
    LiveStarts([], order);
    TopologicalInStartOrder(g, order, |order|);
    assert order[..|order|] == order;
    forall i: nat ensures StartsInOrder(g, StartEvents(order), i) && StopsInOrder(g, StartEvents(order), i) {
      if i < |order| { StartsOk(g, order, StartEvents(order), i); }
    }
  }

  /** A host that has been started keeps the invariant if its trace and its list do. */
  lemma StartedInv(h: Host, r: Host)
    requires Inv(h) && r.modules == h.modules && r.registration == h.registration && r.state != Idle
    requires InStartOrder(r.modules, r.started) && r.started == Live(r.trace) && TraceOk(r.modules, r.trace)
    ensures Inv(r)
  {
  }

  lemma SuccessKeeps(h: Host, order: seq<Id>, faults: Faults)
    requires Inv(h) && h.state == Idle && IsStartOrder(h.modules, order) && StartsBefore(order, faults.start) == |order|
    ensures Inv(Start(h, order, faults))
  {
    StartSuccessTrace(h.modules, order);
    assert Start(h, order, faults).trace == StartEvents(order);
    StartedInv(h, Start(h, order, faults));
  }

  lemma FailedTrace(h: Host, order: seq<Id>, faults: Faults, n: nat)
    requires h.state == Idle && h.trace == [] && n == StartsBefore(order, faults.start) < |order|
    ensures Start(h, order, faults).trace == RollbackEvents(order, n, faults.stop)
  {
    NothingBefore(h.trace, RollbackEvents(order, n, faults.stop));
  }

  lemma NothingBefore(a: seq<Event>, b: seq<Event>)
    requires a == []
    ensures a + b == b
  {
  }

  lemma FailureKeeps(h: Host, order: seq<Id>, faults: Faults, n: nat)
    requires Inv(h) && h.state == Idle && IsStartOrder(h.modules, order) && n == StartsBefore(order, faults.start) < |order|
    ensures Inv(Start(h, order, faults))
  {
    StartFailureTrace(h.modules, order, n, faults.stop);
    TopologicalInStartOrder(h.modules, order, n + 1);
    FailedInStartOrder(h.modules, order[..n + 1], faults.stop);
    FailedTrace(h, order, faults, n);
    StartedInv(h, Start(h, order, faults));
  }

  lemma StartKeeps(h: Host, order: seq<Id>, faults: Faults)
    requires Inv(h) && (h.state == Idle ==> IsStartOrder(h.modules, order))
    ensures Inv(Start(h, order, faults))
  {
    if h.state == Idle {
      var n := StartsBefore(order, faults.start);
      if n == |order| { SuccessKeeps(h, order, faults); } else { FailureKeeps(h, order, faults, n); }
    }
  }

  lemma RegisterKeeps(h: Host, id: Id, deps: seq<Id>)
    requires Inv(h)
    ensures Inv(Register(h, id, deps))
  {
    var r := Register(h, id, deps);
    if h.state == Idle && id !in h.modules {
      assert (set x | x in r.registration) == (set x | x in h.registration) + {id};
      forall k | 0 <= k < |h.registration| ensures h.registration[k] != id { assert h.registration[k] in (set x | x in h.registration); }
    }
  }

  /**
   Over every run: a module starts only while all its dependencies are up, is
   stopped only after everything that needs it was told to stop, and `started`
   is exactly the modules begun and not stopped successfully, in start order.
   */
  lemma {:induction false} RunInv(hosts: seq<Host>, ops: seq<Op>, i: nat)
    requires IsRun(hosts, ops) && i < |hosts|
    ensures Inv(hosts[i])
  {
    if i > 0 {
      RunInv(hosts, ops, i - 1);
      assert Step(hosts[i - 1], ops[i - 1], hosts[i]);
      match ops[i - 1]
      case RegisterOp(id, deps) => RegisterKeeps(hosts[i - 1], id, deps);
      case StartOp(order, faults) => if hosts[i] != hosts[i - 1] { StartKeeps(hosts[i - 1], order, faults); }
      case StopOp(faults) => StopKeeps(hosts[i - 1], faults);
    }
  }

  /** A failed Start tries to stop what it started and the failing module once each, and nothing else. */
  lemma RollbackStopsEachOnce(h: Host, order: seq<Id>, faults: Faults, id: Id)
    requires h.state == Idle && IsStartOrder(h.modules, order) && StartsBefore(order, faults.start) < |order|
    ensures var n := StartsBefore(order, faults.start);
            var stops := StopEvents(Reverse(order[..n + 1]), faults.stop);
            && Start(h, order, faults).trace == h.trace + (StartEvents(order[..n]) + [StartFailed(order[n])] + stops)
            && (id in order[..n + 1] <==> exists k :: 0 <= k < |stops| && stops[k].id == id)
            && (forall k, m :: 0 <= k < m < |stops| ==> stops[k].id != stops[m].id)
            && (id in Start(h, order, faults).started <==> id in order[..n + 1] && id in faults.stop)
  {
    var n := StartsBefore(order, faults.start);
    FailedStopsIs(order[..n + 1], faults.stop);
    ReversedStops(order, n + 1, faults.stop, id);
  }

  lemma ReversedStops(order: seq<Id>, n: nat, fails: set<Id>, id: Id)
    requires NoDuplicates(order) && n <= |order|
    ensures var stops := StopEvents(Reverse(order[..n]), fails);
            && (id in order[..n] <==> exists k :: 0 <= k < |stops| && stops[k].id == id)
            && (forall k, m :: 0 <= k < m < |stops| ==> stops[k].id != stops[m].id)
  {
    StopsEachOnce(order[..n], StopEvents(Reverse(order[..n]), fails), id);
  }

  lemma StopsEachOnce(ids: seq<Id>, stops: seq<Event>, id: Id)
    requires NoDuplicates(ids) && StopsReversed(stops, ids)
    ensures id in ids <==> exists k :: 0 <= k < |stops| && stops[k].id == id
    ensures forall k, m :: 0 <= k < m < |stops| ==> stops[k].id != stops[m].id
  {
    if id in ids {
      var p :| 0 <= p < |ids| && ids[p] == id;
      assert stops[|ids| - 1 - p].id == id;
    }
    if k :| 0 <= k < |stops| && stops[k].id == id { assert ids[|ids| - 1 - k] == id; }
    forall k, m | 0 <= k < m < |stops| ensures stops[k].id != stops[m].id {
      assert ids[|ids| - 1 - m] != ids[|ids| - 1 - k];
    }
  }
}
