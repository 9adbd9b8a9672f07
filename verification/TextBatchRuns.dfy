/** Conservation of fragments and single dispatch, over every interleaving of the batcher. */
module TextBatchRuns {
  import opened TextBatch

  /** The fragments of one key, in arrival order. */
  function ArrivedFor(arrived: seq<Fragment>, key: Key): (r: seq<Fragment>) {
    if |arrived| == 0 then []
    else
      var rest := ArrivedFor(arrived[..|arrived| - 1], key);
      if arrived[|arrived| - 1].key == key then rest + [arrived[|arrived| - 1]] else rest
  }

  /** The fragments of one key's settled batches, in settle order. */
  function SettledFor(batches: seq<Batch>, settled: seq<nat>, key: Key): (r: seq<Fragment>) {
    if |settled| == 0 then []
    else
      var rest := SettledFor(batches, settled[..|settled| - 1], key);
      var b := settled[|settled| - 1];
      if b < |batches| && batches[b].key == key then rest + batches[b].fragments else rest
  }

  /** The fragments waiting in one key's open batch. */
  function OpenFor(s: State, key: Key): (r: seq<Fragment>) {
    if key in s.open && s.open[key] < |s.batches| then s.batches[s.open[key]].fragments else []
  }

  ghost predicate Conserved(s: State, key: Key) {
    ArrivedFor(s.arrived, key) == SettledFor(s.batches, s.settled, key) + OpenFor(s, key)
  }

  /** The batch open for a key is its own, unsettled one. */
  ghost predicate OpenOk(s: State, key: Key) {
    key in s.open ==> s.open[key] < |s.batches| && s.batches[s.open[key]].key == key && !s.batches[s.open[key]].settled
  }

  /** A batch and the calls that joined it agree; once settled, its duty and payload are fixed. */
  ghost predicate BatchOk(s: State, b: nat) {
    b < |s.batches| ==>
      var x := s.batches[b];
      && |x.callers| == |x.fragments| == |x.left| && x.fragments != []
      && (!x.settled ==> x.key in s.open && s.open[x.key] == b)
      && (x.settled <==> b in s.settled)
      && (forall i :: 0 <= i < |x.callers| ==> x.callers[i] < |s.calls|)
      && (x.settled ==>
            && x.payload == Joined(x.fragments)
            && -1 <= x.dispatcher < |x.left|
            && forall i :: 0 <= i < (if x.dispatcher < 0 then |x.left| else x.dispatcher) ==> x.left[i])
  }

  /** A call is the one its batch records, has left only when cancelled, and was answered by the settled duty. */
  ghost predicate CallRecorded(s: State, c: nat) {
    c < |s.calls| ==>
      var x := s.calls[c];
      && CallOk(s, x)
      && x.index < |s.batches[x.batch].callers| && s.batches[x.batch].callers[x.index] == c
      && (s.batches[x.batch].left[x.index] <==> x.pc.Cancelled?)
      && (x.pc.Returned? ==> s.batches[x.batch].settled && x.pc.mine == (s.batches[x.batch].dispatcher == x.index))
  }

  /** The call recorded for a fragment is the call of that fragment. */
  ghost predicate CallerOk(s: State, b: nat, i: nat) {
    b < |s.batches| && i < |s.batches[b].callers| && s.batches[b].callers[i] < |s.calls| ==>
      s.calls[s.batches[b].callers[i]].batch == b && s.calls[s.batches[b].callers[i]].index == i
  }

  ghost predicate Inv(s: State) {
    && (forall key :: OpenOk(s, key) && Conserved(s, key))
    && (forall b: nat :: BatchOk(s, b))
    && (forall c: nat :: CallRecorded(s, c))
    && (forall b: nat, i: nat :: CallerOk(s, b, i))
    && (forall k :: 0 <= k < |s.settled| ==> s.settled[k] < |s.batches|)
  }

  // ---- frames ----

  lemma {:induction false} SettledFrame(a: seq<Batch>, b: seq<Batch>, settled: seq<nat>, key: Key)
    requires |a| <= |b|
    requires forall k :: 0 <= k < |settled| ==>
               settled[k] < |a| && b[settled[k]].key == a[settled[k]].key && b[settled[k]].fragments == a[settled[k]].fragments
    ensures SettledFor(b, settled, key) == SettledFor(a, settled, key)
  {
    if |settled| > 0 { SettledFrame(a, b, settled[..|settled| - 1], key); }
  }

  /** Evictions only move deadlines. */
  lemma {:induction false} EvictFrame(batches: seq<Batch>, listed: seq<nat>, cap: nat, now: int, b: nat)
    requires b < |batches|
    ensures Evict(batches, listed, cap, now)[b] == batches[b].(deadline := Evict(batches, listed, cap, now)[b].deadline)
    decreases |listed|
  {
    if |listed| > cap {
      var next := if listed[0] < |batches| then batches[listed[0] := batches[listed[0]].(deadline := now)] else batches;
      EvictFrame(next, listed[1..], cap, now, b);
    }
  }

  /** Opening a batch for `key` changes nothing the invariant of the others speaks of. */
  lemma OpenBatchEffect(s: State, cfg: Config, key: Key, now: int)
    requires Inv(s)
    ensures var t := OpenBatch(s, cfg, key, now);
            && key in t.open && t.open[key] < |t.batches| && t.calls == s.calls && t.arrived == s.arrived && t.settled == s.settled
            && |s.batches| <= |t.batches| <= |s.batches| + 1
            && (forall b :: 0 <= b < |s.batches| ==> t.batches[b] == s.batches[b].(deadline := t.batches[b].deadline))
            && (if key in s.open then t == s
                else && |t.batches| == |s.batches| + 1 && t.open == s.open[key := |s.batches|]
                     && t.batches[|s.batches|] == NewBatch(key, t.batches[|s.batches|].deadline))
  {
    assert OpenOk(s, key);
    if key !in s.open {
      var all, listed := s.batches + [NewBatch(key, now + cfg.window)], s.listed + [|s.batches|];
      forall b: nat | b < |all| ensures
        Evict(all, listed, cfg.openCap, now)[b] == all[b].(deadline := Evict(all, listed, cfg.openCap, now)[b].deadline)
      {
        EvictFrame(all, listed, cfg.openCap, now, b);
      }
    }
  }

  lemma ArrivedSnoc(arrived: seq<Fragment>, f: Fragment, key: Key)
    ensures ArrivedFor(arrived + [f], key) == if f.key == key then ArrivedFor(arrived, key) + [f] else ArrivedFor(arrived, key)
  {
    assert (arrived + [f])[..|arrived|] == arrived;
  }

  /** What a join does to the batches: one of them grows by the fragment. */
  ghost predicate Joins(s: State, t: State, f: Fragment, b: nat) {
    && b < |t.batches| && |s.batches| <= |t.batches|
    && (b < |s.batches| ==> |t.batches| == |s.batches| && f.key in s.open && s.open[f.key] == b && t.open == s.open)
    && (b >= |s.batches| ==> b == |s.batches| && |t.batches| == b + 1 && f.key !in s.open && t.open == s.open[f.key := b])
    && (forall c :: 0 <= c < |s.batches| && c != b ==> t.batches[c] == s.batches[c].(deadline := t.batches[c].deadline))
    && t.arrived == s.arrived + [f] && t.settled == s.settled
    && (var before := if b < |s.batches| then s.batches[b] else NewBatch(f.key, 0);
        && t.batches[b] == before.(fragments := before.fragments + [f], callers := before.callers + [|s.calls|],
                                   left := before.left + [false], runes := t.batches[b].runes, deadline := t.batches[b].deadline)
        && t.calls == s.calls + [Call(b, |before.fragments|, Waiting)])
  }

  lemma JoinIsJoin(s: State, cfg: Config, f: Fragment, now: int)
    requires Inv(s) && Enabled(s, JoinL(f, now))
    ensures Joins(s, Join(s, cfg, f, now), f, OpenBatch(s, cfg, f.key, now).open[f.key])
  {
    OpenBatchEffect(s, cfg, f.key, now);
    assert OpenOk(s, f.key);
  }

  lemma JoinConserves(s: State, t: State, f: Fragment, b: nat, key: Key)
    requires Inv(s) && Joins(s, t, f, b)
    ensures OpenOk(t, key) && Conserved(t, key)
  {
    assert OpenOk(s, key) && Conserved(s, key) && OpenOk(s, f.key);
    ArrivedSnoc(s.arrived, f, key);
    forall k | 0 <= k < |s.settled|
      ensures s.settled[k] < |s.batches| && t.batches[s.settled[k]].key == s.batches[s.settled[k]].key
              && t.batches[s.settled[k]].fragments == s.batches[s.settled[k]].fragments
    {
      assert BatchOk(s, s.settled[k]);
    }
    SettledFrame(s.batches, t.batches, s.settled, key);
    if key == f.key {
      assert OpenFor(t, key) == OpenFor(s, key) + [f];
      assert ArrivedFor(t.arrived, key) == SettledFor(s.batches, s.settled, key) + (OpenFor(s, key) + [f]);
    } else {
      assert OpenFor(t, key) == OpenFor(s, key);
    }
  }

  lemma JoinKeepsCall(s: State, t: State, f: Fragment, b: nat, c: nat)
    requires Inv(s) && Joins(s, t, f, b)
    ensures CallRecorded(t, c)
  {
    assert CallRecorded(s, c);
    if c < |s.calls| { assert BatchOk(s, s.calls[c].batch); } else { assert BatchOk(s, b); }
  }

  lemma JoinKeeps(s: State, t: State, f: Fragment, b: nat)
    requires Inv(s) && Joins(s, t, f, b)
    ensures Inv(t)
  {
    forall key ensures OpenOk(t, key) && Conserved(t, key) { JoinConserves(s, t, f, b, key); }
    assert OpenOk(s, f.key);
    forall c: nat ensures BatchOk(t, c) { assert BatchOk(s, c); if c == b { assert b !in s.settled; } }
    forall c: nat ensures CallRecorded(t, c) { JoinKeepsCall(s, t, f, b, c); }
    forall c: nat, i: nat ensures CallerOk(t, c, i) { assert CallerOk(s, c, i) && BatchOk(s, c); }
  }

  lemma SettleConserves(s: State, b: nat, key: Key)
    requires Inv(s) && Enabled(s, SettleL(b))
    ensures OpenOk(Settle(s, b), key) && Conserved(Settle(s, b), key)
  {
    var t := Settle(s, b);
    assert BatchOk(s, b) && OpenOk(s, key) && Conserved(s, key);
    assert t.settled[..|s.settled|] == s.settled;
    SettledFrame(s.batches, t.batches, s.settled, key);
  }

  lemma SettleKeeps(s: State, b: nat)
    requires Inv(s) && Enabled(s, SettleL(b))
    ensures Inv(Settle(s, b))
  {
    var t := Settle(s, b);
    assert BatchOk(s, b);
    forall key ensures OpenOk(t, key) && Conserved(t, key) { SettleConserves(s, b, key); }
    forall c: nat ensures BatchOk(t, c) { assert BatchOk(s, c); }
    forall c: nat ensures CallRecorded(t, c) { assert CallRecorded(s, c); }
    forall c: nat, i: nat ensures CallerOk(t, c, i) { assert CallerOk(s, c, i); }
  }

  /** A step that changes no key, fragment or opening keeps every key's fragments. */
  lemma ConservedFrame(s: State, t: State, key: Key)
    requires OpenOk(s, key) && Conserved(s, key)
    requires t.open == s.open && t.arrived == s.arrived && t.settled == s.settled && |t.batches| == |s.batches|
    requires forall b :: 0 <= b < |s.batches| ==>
               t.batches[b].key == s.batches[b].key && t.batches[b].fragments == s.batches[b].fragments
               && t.batches[b].settled == s.batches[b].settled
    requires forall k :: 0 <= k < |s.settled| ==> s.settled[k] < |s.batches|
    ensures OpenOk(t, key) && Conserved(t, key)
  {
    SettledFrame(s.batches, t.batches, s.settled, key);
  }

  lemma OtherKeeps(s: State, cfg: Config, l: Label)
    requires Inv(s) && Enabled(s, l) && !l.JoinL? && !l.SettleL?
    ensures Inv(Apply(s, cfg, l))
  {
    var t := Apply(s, cfg, l);
    forall key ensures OpenOk(t, key) && Conserved(t, key) { assert OpenOk(s, key) && Conserved(s, key); ConservedFrame(s, t, key); }
    forall c: nat ensures BatchOk(t, c) { assert BatchOk(s, c); }
    OtherKeepsCalls(s, cfg, l);
  }

  lemma OtherKeepsCalls(s: State, cfg: Config, l: Label)
    requires Inv(s) && Enabled(s, l) && !l.JoinL? && !l.SettleL?
    ensures forall c: nat :: CallRecorded(Apply(s, cfg, l), c)
    ensures forall b: nat, i: nat :: CallerOk(Apply(s, cfg, l), b, i)
  {
    var t := Apply(s, cfg, l);
    forall c: nat ensures CallRecorded(t, c) {
      assert CallRecorded(s, c);
      if l.LeaveL? { assert CallRecorded(s, l.c); }
    }
    forall c: nat, i: nat ensures CallerOk(t, c, i) { assert CallerOk(s, c, i); }
  }

  lemma {:induction false} RunInv(states: seq<State>, cfg: Config, labels: seq<Label>, i: nat)
    requires IsRun(states, cfg, labels) && i < |states|
    ensures Inv(states[i])
  {
    if i > 0 {
      RunInv(states, cfg, labels, i - 1);
      var s, l := states[i - 1], labels[i - 1];
      assert Next(s, cfg, l, states[i]);
      match l
      case JoinL(f, now) =>
        JoinIsJoin(s, cfg, f, now);
        JoinKeeps(s, states[i], f, OpenBatch(s, cfg, f.key, now).open[f.key]);
      case SettleL(b) => SettleKeeps(s, b);
      case _ => OtherKeeps(s, cfg, l);
    }
  }

  // ---- the theorems ----

  /**
   Nothing is lost, duplicated or reordered: at every point, one key's settled
   batches in settle order, followed by its open batch, are its arrivals.
   */
  lemma FragmentsConserved(states: seq<State>, cfg: Config, labels: seq<Label>, i: nat, key: Key)
    requires IsRun(states, cfg, labels) && i < |states|
    ensures ArrivedFor(states[i].arrived, key) == SettledFor(states[i].batches, states[i].settled, key) + OpenFor(states[i], key)
  {
    RunInv(states, cfg, labels, i);
    assert Conserved(states[i], key);
  }

  /** Of a settled batch nothing changes but who has left, and a deadline that no longer matters. */
  ghost predicate SameSettled(s: State, t: State, b: nat) {
    && b < |s.batches| && b < |t.batches| && s.batches[b].settled
    && t.batches[b] == s.batches[b].(left := t.batches[b].left, deadline := t.batches[b].deadline)
  }

  lemma SameSettledOn(s: State, t: State, u: State, b: nat)
    requires SameSettled(s, t, b) && SameSettled(t, u, b)
    ensures SameSettled(s, u, b)
  {
  }

  lemma SettledStays(s: State, cfg: Config, l: Label, t: State, b: nat)
    requires Inv(s) && Next(s, cfg, l, t) && b < |s.batches| && s.batches[b].settled
    ensures SameSettled(s, t, b)
  {
    if l.JoinL? {
      JoinIsJoin(s, cfg, l.f, l.now);
      assert OpenOk(s, l.f.key);
    }
  }

  /** A settled batch takes no more fragments, and its payload is their trimmed texts in order. */
  lemma {:induction false} SettledIsFinal(states: seq<State>, cfg: Config, labels: seq<Label>, i: nat, j: nat, b: nat)
    requires IsRun(states, cfg, labels) && i <= j < |states| && b < |states[i].batches| && states[i].batches[b].settled
    ensures SameSettled(states[i], states[j], b) && states[i].batches[b].payload == Joined(states[i].batches[b].fragments)
    decreases j - i
  {
    PayloadAt(states, cfg, labels, i, b);
    if i < j {
      SettledIsFinal(states, cfg, labels, i, j - 1, b);
      SettledNext(states, cfg, labels, j - 1, b);
      SameSettledOn(states[i], states[j - 1], states[j], b);
    }
  }

  lemma PayloadAt(states: seq<State>, cfg: Config, labels: seq<Label>, i: nat, b: nat)
    requires IsRun(states, cfg, labels) && i < |states| && b < |states[i].batches| && states[i].batches[b].settled
    ensures states[i].batches[b].payload == Joined(states[i].batches[b].fragments)
  {
    RunInv(states, cfg, labels, i);
    assert BatchOk(states[i], b);
  }

  lemma SettledNext(states: seq<State>, cfg: Config, labels: seq<Label>, k: nat, b: nat)
    requires IsRun(states, cfg, labels) && k < |labels| && b < |states[k].batches| && states[k].batches[b].settled
    ensures SameSettled(states[k], states[k + 1], b)
  {
    RunInv(states, cfg, labels, k);
    assert Next(states[k], cfg, labels[k], states[k + 1]);
    SettledStays(states[k], cfg, labels[k], states[k + 1], b);
  }

  /** Of the calls that joined one batch, at most one is told to dispatch it. */
  lemma OneDispatcher(states: seq<State>, cfg: Config, labels: seq<Label>, i: nat, c: nat, d: nat)
    requires IsRun(states, cfg, labels) && i < |states|
    requires c < |states[i].calls| && d < |states[i].calls|
    requires states[i].calls[c].pc == Returned(true) && states[i].calls[d].pc == Returned(true)
    requires states[i].calls[c].batch == states[i].calls[d].batch
    ensures c == d
  {
    RunInv(states, cfg, labels, i);
    assert CallRecorded(states[i], c) && CallRecorded(states[i], d);
  }

  /** When every call of a settled batch returned and none was cancelled, exactly its first call dispatches. */
  lemma FirstDispatches(states: seq<State>, cfg: Config, labels: seq<Label>, i: nat, b: nat)
    requires IsRun(states, cfg, labels) && i < |states| && b < |states[i].batches| && states[i].batches[b].settled
    requires forall c :: 0 <= c < |states[i].calls| && states[i].calls[c].batch == b ==> states[i].calls[c].pc.Returned?
    ensures exists c :: 0 <= c < |states[i].calls| && states[i].calls[c] == Call(b, 0, Returned(true))
  {
    RunInv(states, cfg, labels, i);
    var s := states[i];
    assert BatchOk(s, b);
    var c := s.batches[b].callers[0];
    assert CallerOk(s, b, 0) && CallRecorded(s, c);
    assert !s.batches[b].left[0];
    assert s.batches[b].dispatcher == 0;
  }

  /** The duty goes to the first call that had not left, and reaches it unless that call cancels. */
  lemma DutyReachesFirstStaying(states: seq<State>, cfg: Config, labels: seq<Label>, i: nat, b: nat)
    requires IsRun(states, cfg, labels) && i < |labels| && labels[i] == SettleL(b)
    requires b < |states[i].batches| && exists k :: 0 <= k < |states[i].batches[b].left| && !states[i].batches[b].left[k]
    ensures b < |states[i + 1].batches|
    ensures var x := states[i + 1].batches[b];
            && 0 <= x.dispatcher < |x.callers| && x.callers[x.dispatcher] < |states[i + 1].calls|
            && var c := states[i + 1].calls[x.callers[x.dispatcher]];
               c.batch == b && c.index == x.dispatcher && !c.pc.Cancelled?
               && forall k :: 0 <= k < x.dispatcher ==>
                    x.callers[k] < |states[i + 1].calls| && states[i + 1].calls[x.callers[k]].pc.Cancelled?
  {
    RunInv(states, cfg, labels, i + 1);
    var t := states[i + 1];
    var x := t.batches[b];
    assert BatchOk(t, b);
    assert x.dispatcher == FirstStaying(x.left);
    assert CallerOk(t, b, x.dispatcher) && CallRecorded(t, x.callers[x.dispatcher]);
    forall k | 0 <= k < x.dispatcher ensures x.callers[k] < |t.calls| && t.calls[x.callers[k]].pc.Cancelled? {
      assert CallerOk(t, b, k) && CallRecorded(t, x.callers[k]);
    }
  }

  /** The call that a settled batch chose to dispatch it. */
  predicate Chose(s: State, b: nat, c: nat) {
    && b < |s.batches| && c < |s.calls| && s.batches[b].settled
    && 0 <= s.batches[b].dispatcher < |s.batches[b].callers| && s.batches[b].callers[s.batches[b].dispatcher] == c
  }

  /** The call was told to dispatch the batch. */
  predicate Dispatches(s: State, b: nat, c: nat) {
    c < |s.calls| && s.calls[c].batch == b && s.calls[c].pc == Returned(true)
  }

  /** Every call of the batch has returned or was cancelled. */
  ghost predicate CallsOver(s: State, b: nat) {
    forall c :: 0 <= c < |s.calls| && s.calls[c].batch == b ==> s.calls[c].pc.Returned? || s.calls[c].pc.Cancelled?
  }

  /** Once its calls are over, a settled batch was dispatched if and only if it chose a call and that call did not cancel. */
  lemma DispatchedIff(states: seq<State>, cfg: Config, labels: seq<Label>, i: nat, b: nat)
    requires IsRun(states, cfg, labels) && i < |states| && b < |states[i].batches| && states[i].batches[b].settled
    requires CallsOver(states[i], b)
    ensures (exists c: nat :: Dispatches(states[i], b, c)) <==> exists c: nat :: Chose(states[i], b, c) && !states[i].calls[c].pc.Cancelled?
  {
    RunInv(states, cfg, labels, i);
    var s := states[i];
    assert BatchOk(s, b);
    if c: nat :| Dispatches(s, b, c) {
      assert CallRecorded(s, c);
      assert Chose(s, b, c);
    }
    if c: nat :| Chose(s, b, c) && !s.calls[c].pc.Cancelled? {
      assert CallerOk(s, b, s.batches[b].dispatcher) && CallRecorded(s, c);
      assert Dispatches(s, b, c);
    }
  }

  /** Two calls wait in the one batch, and nothing else is there. */
  predicate TwoCalls(s: State, first: CallPC, second: CallPC) {
    && |s.batches| == 1 && s.batches[0].left == [false, false]
    && s.calls == [Call(0, 0, first), Call(0, 1, second)]
  }

  lemma TwoJoins(f: Fragment, cfg: Config) returns (s1: State, s2: State)
    requires cfg.openCap > 0
    ensures Next(EMPTY, cfg, JoinL(f, 0), s1) && Next(s1, cfg, JoinL(f, 0), s2)
    ensures TwoCalls(s2, Waiting, Waiting) && !s2.batches[0].settled
  {
    s1 := Apply(EMPTY, cfg, JoinL(f, 0));
    assert s1.open[f.key] == 0 && |s1.batches| == 1 && s1.calls == [Call(0, 0, Waiting)] && s1.batches[0].left == [false];
    s2 := Apply(s1, cfg, JoinL(f, 0));
  }

  /** The first call is leaving when the batch settles, and the duty goes to it. */
  lemma LeaverIsChosen(s2: State, cfg: Config) returns (s3: State, due: Label, s4: State, s5: State)
    requires TwoCalls(s2, Waiting, Waiting) && !s2.batches[0].settled
    ensures Next(s2, cfg, CancelL(0), s3) && Next(s3, cfg, due, s4) && Next(s4, cfg, SettleL(0), s5)
    ensures TwoCalls(s5, Leaving, Waiting) && s5.batches[0].settled && s5.batches[0].dispatcher == 0
  {
    s3 := Apply(s2, cfg, CancelL(0));
    due := DueL(0, s3.batches[0].deadline);
    s4 := Apply(s3, cfg, due);
    s5 := Apply(s4, cfg, SettleL(0));
    assert FirstStaying([false, false]) == 0;
  }

  /** It leaves, and the other call, still waiting, is told that it is not the one. */
  lemma NobodyLeft(s5: State, cfg: Config) returns (s6: State, s7: State)
    requires TwoCalls(s5, Leaving, Waiting) && s5.batches[0].settled && s5.batches[0].dispatcher == 0
    ensures Next(s5, cfg, LeaveL(0), s6) && Next(s6, cfg, ReturnL(1), s7)
    ensures |s7.batches| == 1 && s7.batches[0].settled && s7.calls == [Call(0, 0, Cancelled), Call(0, 1, Returned(false))]
  {
    s6 := Apply(s5, cfg, LeaveL(0));
    s7 := Apply(s6, cfg, ReturnL(1));
  }

  /** The chosen call may cancel: then nobody dispatches the batch, although another call waited for it to the end. */
  lemma NobodyDispatches(f: Fragment, cfg: Config) returns (states: seq<State>, labels: seq<Label>)
    requires cfg.openCap > 0
    ensures IsRun(states, cfg, labels)
    ensures var t := states[|labels|];
            && |t.batches| == 1 && t.batches[0].settled
            && t.calls == [Call(0, 0, Cancelled), Call(0, 1, Returned(false))]
            && CallsOver(t, 0) && forall c: nat :: !Dispatches(t, 0, c)
  {
    var s1, s2 := TwoJoins(f, cfg);
    var s3, due, s4, s5 := LeaverIsChosen(s2, cfg);
    var s6, s7 := NobodyLeft(s5, cfg);
    labels := [JoinL(f, 0), JoinL(f, 0), CancelL(0), due, SettleL(0), LeaveL(0), ReturnL(1)];
    states := [EMPTY, s1, s2, s3, s4, s5, s6, s7];
  }

  // ---- the payload can be taken apart again ----

  /** The lines of a text. */
  function Lines(s: string): (r: seq<string>)
    ensures |r| >= 1
  {
    if s == "" then [""]
    else
      var rest := Lines(s[..|s| - 1]);
      if s[|s| - 1] == '\n' then rest + [""] else rest[|rest| - 1 := rest[|rest| - 1] + [s[|s| - 1]]]
  }

  lemma {:induction false} LinesAppend(s: string, line: string)
    requires '\n' !in line
    ensures Lines(s + line) == Lines(s)[|Lines(s)| - 1 := Lines(s)[|Lines(s)| - 1] + line]
  {
    if line == "" {
      assert s + line == s;
      var lines, m := Lines(s), |Lines(s)| - 1;
      assert lines[m] + line == lines[m];
      assert lines[m := lines[m]] == lines;
    } else {
      var n := |line| - 1;
      LinesAppend(s, line[..n]);
      assert (s + line)[..|s + line| - 1] == s + line[..n];
      var lines, m := Lines(s), |Lines(s)| - 1;
      assert lines[m] + line[..n] + [line[n]] == lines[m] + line by { assert line == line[..n] + [line[n]]; }
      assert line[n] != '\n';
    }
  }

  function Texts(fragments: seq<Fragment>): (r: seq<string>)
    ensures |r| == |fragments| && forall i :: 0 <= i < |r| ==> r[i] == Trim(fragments[i].text)
  {
    seq(|fragments|, i requires 0 <= i < |fragments| => Trim(fragments[i].text))
  }

  /** Fragments of one line each come back out of the payload, trimmed, in order. */
  lemma {:induction false} PayloadRoundTrip(fragments: seq<Fragment>)
    requires |fragments| > 0
    requires forall i :: 0 <= i < |fragments| ==> '\n' !in Trim(fragments[i].text)
    ensures Lines(Joined(fragments)) == Texts(fragments)
  {
    var n := |fragments| - 1;
    var last := Trim(fragments[n].text);
    if n == 0 {
      OneLine(last);
      assert Texts(fragments) == [last];
    } else {
      PayloadRoundTrip(fragments[..n]);
      LastLine(Joined(fragments[..n]), last);
      TextsLast(fragments);
    }
  }

  lemma OneLine(line: string)
    requires '\n' !in line
    ensures Lines(line) == [line]
  {
    LinesAppend("", line);
    assert "" + line == line;
  }

  lemma TextsLast(fragments: seq<Fragment>)
    requires |fragments| > 0
    ensures Texts(fragments) == Texts(fragments[..|fragments| - 1]) + [Trim(fragments[|fragments| - 1].text)]
  {
  }

  /** One more line. */
  lemma LastLine(before: string, last: string)
    requires '\n' !in last
    ensures Lines(before + "\n" + last) == Lines(before) + [last]
  {
    assert (before + "\n")[..|before|] == before;
    var lines := Lines(before) + [""];
    assert Lines(before + "\n") == lines;
    LinesAppend(before + "\n", last);
    assert "" + last == last;
    assert lines[|lines| - 1] == "" && lines[|lines| - 1 := last] == Lines(before) + [last];
  }
}
