/** Per-repository order over whole runs. */
module DispatcherRuns {
  import opened Options
  import opened Dispatcher
  import opened DispatcherInvariant
  import opened DispatcherFifo

  lemma {:induction false} RunChains(states: seq<State>, labels: seq<Label>, i: nat)
    requires IsRun(states, labels) && i < |states|
    ensures Chains(states[i].d)
  {
    if i == 0 {
      ChainsInit(states[0].d.limit);
    } else {
      RunChains(states, labels, i - 1);
      RunInv(states, labels, i - 1);
      assert Next(states[i - 1], labels[i - 1], states[i]);
      StepEffect(states[i - 1], labels[i - 1]);
      ChainsStep(states[i - 1].d, states[i].d, EffectOf(states[i - 1], labels[i - 1]));
    }
  }

  /** The step gives back a queued place, at a point of a run. */
  ghost predicate BreaksOrder(states: seq<State>, labels: seq<Label>, k: nat) {
    k < |labels| && k < |states| && Enabled(states[k], labels[k]) && GivesBackQueued(states[k], labels[k])
  }

  /** Every run: turns follow the join order throughout exactly when no queued place is ever given back. */
  lemma {:induction false} RunOrderedIff(states: seq<State>, labels: seq<Label>, n: nat)
    requires IsRun(states, labels) && n < |states|
    ensures (forall j :: 0 <= j <= n ==> Ordered(states[j].d)) <==> (forall k: nat :: k < n ==> !BreaksOrder(states, labels, k))
  {
    if n == 0 {
      ChainsInit(states[0].d.limit);
    } else {
      var k := n - 1;
      RunOrderedIff(states, labels, k);
      assert Next(states[k], labels[k], states[n]);
      if forall j :: 0 <= j <= k ==> Ordered(states[j].d) {
        RunInv(states, labels, k);
        RunChains(states, labels, k);
        OrderKeptIff(states[k], labels[k]);
        assert BreaksOrder(states, labels, k) <==> !Ordered(states[n].d);
      } else {
        assert exists m: nat :: m < k && BreaksOrder(states, labels, m);
      }
    }
  }

  /** In a run that gives back no queued place, one hold per repository is at the head, and heads follow the join order. */
  lemma DisciplinedRunFifo(states: seq<State>, labels: seq<Label>, n: nat)
    requires IsRun(states, labels) && n < |states|
    requires forall k: nat :: k < n ==> !BreaksOrder(states, labels, k)
    ensures OneHead(states[n].d)
    ensures forall a: nat, b: nat :: Earlier(states[n].d, a, b) && Head(states[n].d, b) ==> !Open(states[n].d, a)
  {
    RunOrderedIff(states, labels, n);
    OrderedOneHead(states[n].d);
  }

  // ---- no call waits: one process per repository, in submit order ----

  /** A started chained run still has the place it joined with, and that place has had its turn. */
  ghost predicate PlainOk(d: Shared, h: nat, pc: PC) {
    h < |d.holds| ==>
      && d.holds[h].waits == 0
      && (pc.Running? && d.holds[h].chain ==> d.holds[h].baton.Some? && Settled(d, d.holds[h].baton.value))
  }

  /** Earlier submissions own earlier batons. */
  ghost predicate OwnersOrdered(batons: seq<Baton>) {
    forall a, b :: 0 <= a < b < |batons| ==> batons[a].owner < batons[b].owner
  }

  ghost predicate Plain(s: State) {
    && s.resumes == []
    && (forall h: nat :: h < |s.runs| ==> PlainOk(s.d, h, s.runs[h]))
    && OwnersOrdered(s.d.batons)
  }

  /** Two chained submissions to one repository, `h` first. */
  ghost predicate Rivals(s: State, h: nat, k: nat) {
    && h < k < |s.runs| == |s.d.holds|
    && s.d.holds[h].chain && s.d.holds[k].chain && s.d.holds[h].repo == s.d.holds[k].repo
  }

  /** A later process has started only if the earlier one returned. */
  ghost predicate InSubmitOrder(s: State) {
    forall h: nat, k: nat :: Rivals(s, h, k) && Begun(s.runs[k]) ==> s.runs[h].Ended?
  }

  ghost predicate PlainInv(s: State) {
    InSubmitOrder(s) && Plain(s) && Ordered(s.d) && Chains(s.d) && Wf(s) && Inv(s)
  }

  lemma SettledEffect(d: Shared, e: Shared, effect: Effect, b: nat)
    requires Chains(d) && HasEffect(d, e, effect) && Settled(d, b)
    ensures Settled(e, b)
  {
    assert LinkOk(d, b);
  }

  predicate NoWait(l: Label) { l.WaitsL? ==> l.waits == 0 }

  lemma PlainNeverQueued(s: State, l: Label)
    requires PlainInv(s) && Enabled(s, l) && NoWait(l)
    ensures !GivesBackQueued(s, l)
  {
    if l.FinishL? {
      assert PlainOk(s.d, l.h, s.runs[l.h]);
      assert PlaceOk(s.d, l.h);
    }
  }

  /** An unfinished earlier rival keeps the place of a run that has not started queued. */
  lemma RivalKeepsQueued(s: State, h: nat, k: nat)
    requires PlainInv(s) && Rivals(s, h, k) && !s.runs[h].Ended? && !Begun(s.runs[k])
    ensures s.d.holds[k].baton.Some? && !Settled(s.d, s.d.holds[k].baton.value)
  {
    assert RunOk(s.d, h, s.runs[h]) && RunOk(s.d, k, s.runs[k]);
    assert PlainOk(s.d, h, s.runs[h]);
    assert PlaceOk(s.d, h) && PlaceOk(s.d, k);
    var a, b := s.d.holds[h].baton.value, s.d.holds[k].baton.value;
    assert BatonOk(s.d, a) && BatonOk(s.d, b);
    assert a < b;
    assert Earlier(s.d, a, b);
  }

  lemma GateMeansAlone(s: State, h: nat, k: nat)
    requires PlainInv(s) && Rivals(s, h, k) && s.runs[k].AtGate?
    ensures s.runs[h].Ended?
  {
    assert RunOk(s.d, k, s.runs[k]);
    if !s.runs[h].Ended? { RivalKeepsQueued(s, h, k); }
  }

  /** What a step without call waits can do to one hold. */
  lemma PlainFields(s: State, l: Label, h: nat)
    requires PlainInv(s) && Enabled(s, l) && NoWait(l) && h < |s.runs|
    ensures var t := Apply(s, l);
            && h < |t.runs| && h < |t.d.holds|
            && t.d.holds[h].waits == 0
            && (t.runs[h].Running? && t.d.holds[h].chain ==>
                  && t.d.holds[h].baton == s.d.holds[h].baton && s.d.holds[h].baton.Some?
                  && Settled(s.d, s.d.holds[h].baton.value))
  {
    assert PlainOk(s.d, h, s.runs[h]);
    assert RunOk(s.d, h, s.runs[h]);
    HoldEffect(s, l, h);
    RunMoves(s, l, h);
  }

  lemma PlainResumes(s: State, l: Label)
    requires PlainInv(s) && Enabled(s, l) && NoWait(l)
    ensures Apply(s, l).resumes == []
  {
    if l.WaitsL? { assert PlainOk(s.d, l.h, s.runs[l.h]); }
  }

  lemma PlainOwners(s: State, l: Label)
    requires PlainInv(s) && Enabled(s, l) && NoWait(l)
    ensures OwnersOrdered(Apply(s, l).d.batons)
  {
    StepEffect(s, l);
    if l.SubmitL? {
      forall b | 0 <= b < |s.d.batons| ensures s.d.batons[b].owner < |s.d.holds| { assert BatonOk(s.d, b); }
    }
  }

  lemma PlainHolds(s: State, l: Label)
    requires PlainInv(s) && Enabled(s, l) && NoWait(l)
    ensures Plain(Apply(s, l))
  {
    var t := Apply(s, l);
    StepEffect(s, l);
    forall h: nat | h < |t.runs| ensures PlainOk(t.d, h, t.runs[h]) {
      if h < |s.runs| {
        PlainFields(s, l, h);
        if t.runs[h].Running? && t.d.holds[h].chain {
          SettledEffect(s.d, t.d, EffectOf(s, l), s.d.holds[h].baton.value);
        }
      }
    }
    PlainResumes(s, l);
    PlainOwners(s, l);
  }

  /** How one step moves the goroutine of hold `h`. */
  lemma RunMoves(s: State, l: Label, h: nat)
    requires Inv(s) && Enabled(s, l) && h < |s.runs|
    ensures var t := Apply(s, l);
            && h < |t.runs|
            && (Begun(t.runs[h]) && !Begun(s.runs[h]) ==> s.runs[h].AtGate?)
            && (s.runs[h].Ended? ==> t.runs[h].Ended?)
  {
  }

  /** No step changes what a hold was submitted for. */
  lemma HoldStays(s: State, l: Label, h: nat)
    requires Inv(s) && Enabled(s, l) && h < |s.runs|
    ensures var t := Apply(s, l);
            && h < |t.d.holds|
            && t.d.holds[h].chain == s.d.holds[h].chain && t.d.holds[h].repo == s.d.holds[h].repo
  {
    HoldEffect(s, l, h);
  }

  lemma NewRunWaits(s: State, l: Label, h: nat)
    requires Inv(s) && Enabled(s, l) && |s.runs| <= h < |Apply(s, l).runs|
    ensures !Begun(Apply(s, l).runs[h])
  {
  }

  lemma SubmitOrderStep(s: State, l: Label)
    requires PlainInv(s) && Enabled(s, l) && NoWait(l)
    ensures InSubmitOrder(Apply(s, l))
  {
    var t := Apply(s, l);
    forall h: nat, k: nat | Rivals(t, h, k) && Begun(t.runs[k]) ensures t.runs[h].Ended? {
      if k >= |s.runs| { NewRunWaits(s, l, k); }
      RunMoves(s, l, h);
      RunMoves(s, l, k);
      HoldStays(s, l, h);
      HoldStays(s, l, k);
      assert Rivals(s, h, k);
      if !Begun(s.runs[k]) { GateMeansAlone(s, h, k); }
    }
  }

  /** With no call waits, chained processes of one repository never overlap and start in submit order. */
  lemma {:induction false} NoWaitsSubmitOrder(states: seq<State>, labels: seq<Label>, i: nat)
    requires IsRun(states, labels) && i < |states|
    requires forall k :: 0 <= k < |labels| ==> NoWait(labels[k])
    ensures PlainInv(states[i]) && InSubmitOrder(states[i])
    ensures forall h: nat, k: nat :: Rivals(states[i], h, k) ==> !(states[i].runs[h].Running? && states[i].runs[k].Running?)
  {
    if i == 0 {
      RunInv(states, labels, 0);
      ChainsInit(states[0].d.limit);
    } else {
      NoWaitsSubmitOrder(states, labels, i - 1);
      var s, l := states[i - 1], labels[i - 1];
      assert Next(s, l, states[i]);
      RunInv(states, labels, i);
      RunChains(states, labels, i);
      PlainNeverQueued(s, l);
      OrderKeptIff(s, l);
      PlainHolds(s, l);
      SubmitOrderStep(s, l);
    }
  }
}
