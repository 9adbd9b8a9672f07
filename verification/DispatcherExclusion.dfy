/**
 One at a time. A chained task runs on the capacity of its repository when it has
 a slot and a place that has had its turn. `reacquire` takes the slot whether or
 not the hold still records such a place, so a hold can have a slot without one.
 This module proves exactly when that never happens, and that then at most one
 chained hold per repository has a slot.
 */
module DispatcherExclusion {
  import opened Options
  import opened Dispatcher
  import opened DispatcherInvariant
  import opened DispatcherFifo
  import opened DispatcherRuns

  /** A chained hold with a slot records a place, and that place has had its turn. */
  ghost predicate PlacedAt(d: Shared, h: nat) {
    h < |d.holds| && d.holds[h].chain && d.holds[h].slot ==> d.holds[h].baton.Some? && Settled(d, d.holds[h].baton.value)
  }

  ghost predicate Placed(d: Shared) {
    forall h: nat :: PlacedAt(d, h)
  }

  /** At most one chained hold per repository has a slot. */
  ghost predicate Exclusive(d: Shared) {
    forall h: nat, k: nat :: !BothHold(d, h, k)
  }

  ghost predicate BothHold(d: Shared, h: nat, k: nat) {
    && h < k < |d.holds| && d.holds[h].repo == d.holds[k].repo
    && d.holds[h].chain && d.holds[k].chain && d.holds[h].slot && d.holds[k].slot
  }

  /** The step is a re-acquire that takes a slot for a chained hold without a place that has had its turn. */
  predicate TakesUnplaced(s: State, l: Label)
    requires Enabled(s, l)
  {
    l.ResumeGateL? &&
    var x := s.d.holds[s.resumes[l.r].hold];
    && HasRoom(s.d) && !x.slot && !NotNeeded(s.d, s.resumes[l.r].hold)
    && x.chain && !(x.baton.Some? && Settled(s.d, x.baton.value))
  }

  // ---- places and slots after a step ----

  /** What a step leaves of hold `h` as far as places and slots go. */
  ghost predicate HoldKept(s: State, l: Label, t: State, h: nat) {
    h < |s.d.holds| && h < |t.d.holds|
    && t.d.holds[h].chain == s.d.holds[h].chain
    && (t.d.holds[h].slot ==>
          || (s.d.holds[h].slot && t.d.holds[h].baton == s.d.holds[h].baton)
          || (s.d.holds[h].slot && s.d.holds[h].baton.None?)
          || (!s.d.holds[h].slot && l == RunGateL(h) && t.d.holds[h].baton == s.d.holds[h].baton)
          || (!s.d.holds[h].slot && TakesFor(s, l, h) && t.d.holds[h].baton == s.d.holds[h].baton))
  }

  /** The step is a re-acquire that takes a slot for hold `h`. */
  predicate TakesFor(s: State, l: Label, h: nat) {
    && l.ResumeGateL? && l.r < |s.resumes| && s.resumes[l.r].hold == h && h < |s.d.holds|
    && HasRoom(s.d) && !s.d.holds[h].slot && !NotNeeded(s.d, h)
  }

  lemma SlotSources(s: State, l: Label, h: nat)
    requires Inv(s) && Enabled(s, l) && h < |s.d.holds|
    ensures HoldKept(s, l, Apply(s, l), h)
  {
    HoldEffect(s, l, h);
  }

  /** A place that has had its turn keeps it. */
  lemma TurnKept(s: State, l: Label, b: nat)
    requires Inv(s) && Enabled(s, l) && Settled(s.d, b)
    ensures Settled(Apply(s, l).d, b)
  {
    StepEffect(s, l);
    assert BatonOk(s.d, b);
  }

  /** One hold stays placed under every step but an unplaced take. */
  lemma PlacedKept(s: State, l: Label, h: nat)
    requires Inv(s) && Enabled(s, l) && PlacedAt(s.d, h) && !TakesUnplaced(s, l)
    ensures PlacedAt(Apply(s, l).d, h)
  {
    var t := Apply(s, l);
    if h < |t.d.holds| && t.d.holds[h].slot && t.d.holds[h].chain {
      if h >= |s.d.holds| { NewHoldHasNoSlot(s, l, h); }
      SlotSources(s, l, h);
      assert RunOk(s.d, h, s.runs[h]);
      TurnKept(s, l, s.d.holds[h].baton.value);
    }
  }

  /** An unplaced take leaves its hold with a slot and no place that has had its turn. */
  lemma UnplacedTakeBreaks(s: State, l: Label)
    requires Inv(s) && Enabled(s, l) && TakesUnplaced(s, l)
    ensures !PlacedAt(Apply(s, l).d, s.resumes[l.r].hold)
  {
    TakeEffect(s.d, s.resumes[l.r].hold);
    StepEffect(s, l);
  }

  /** A step keeps every slot placed exactly when it is no unplaced take. */
  lemma PlacedKeptIff(s: State, l: Label)
    requires Inv(s) && Placed(s.d) && Enabled(s, l)
    ensures Placed(Apply(s, l).d) <==> !TakesUnplaced(s, l)
  {
    if TakesUnplaced(s, l) {
      UnplacedTakeBreaks(s, l);
    } else {
      forall h: nat ensures PlacedAt(Apply(s, l).d, h) { PlacedKept(s, l, h); }
    }
  }

  // ---- one slot per repository ----

  /** Slots with places that have had their turn, in join order, are one per repository. */
  lemma PlacedIsExclusive(d: Shared)
    requires Batons(d) && Ordered(d) && Placed(d)
    ensures Exclusive(d)
  {
    forall h: nat, k: nat ensures !BothHold(d, h, k) {
      if BothHold(d, h, k) { TwoPlaces(d, h, k); }
    }
  }

  lemma TwoPlaces(d: Shared, h: nat, k: nat)
    requires Batons(d) && Placed(d) && BothHold(d, h, k)
    ensures !Ordered(d)
  {
    assert PlacedAt(d, h) && PlacedAt(d, k);
    assert PlaceOk(d, h) && PlaceOk(d, k);
    var a, b := d.holds[h].baton.value, d.holds[k].baton.value;
    assert BatonOk(d, a) && BatonOk(d, b);
    if a < b { assert Earlier(d, a, b); } else { assert Earlier(d, b, a); }
  }

  // ---- every run ----

  ghost predicate TakesUnplacedAt(states: seq<State>, labels: seq<Label>, k: nat) {
    k < |labels| && k < |states| && Enabled(states[k], labels[k]) && TakesUnplaced(states[k], labels[k])
  }

  /** Join order and placed slots, at one point. */
  ghost predicate Proper(d: Shared) { Ordered(d) && Placed(d) }

  /** Neither failing step happens at a point of a run. */
  ghost predicate Disciplined(states: seq<State>, labels: seq<Label>, k: nat) {
    !BreaksOrder(states, labels, k) && !TakesUnplacedAt(states, labels, k)
  }

  /** Every run: turns follow the join order and every slot is placed, throughout, exactly when neither failing step is taken. */
  lemma {:induction false} RunProperIff(states: seq<State>, labels: seq<Label>, n: nat)
    requires IsRun(states, labels) && n < |states|
    ensures (forall j :: 0 <= j <= n ==> Proper(states[j].d)) <==> (forall k: nat :: k < n ==> Disciplined(states, labels, k))
  {
    if n == 0 {
      ChainsInit(states[0].d.limit);
    } else {
      var k := n - 1;
      RunProperIff(states, labels, k);
      if forall j :: 0 <= j <= k ==> Proper(states[j].d) {
        assert Proper(states[k].d);
        ProperStep(states, labels, k);
      } else {
        assert exists m: nat :: m < k && !Disciplined(states, labels, m);
      }
    }
  }

  lemma ProperStep(states: seq<State>, labels: seq<Label>, k: nat)
    requires IsRun(states, labels) && k < |labels| && Proper(states[k].d)
    ensures Proper(states[k + 1].d) <==> Disciplined(states, labels, k)
  {
    assert Next(states[k], labels[k], states[k + 1]);
    RunInv(states, labels, k);
    RunChains(states, labels, k);
    OrderKeptIff(states[k], labels[k]);
    PlacedKeptIff(states[k], labels[k]);
  }

  /** In a run without either failing step, at most one chained hold per repository has a slot, at every point. */
  lemma DisciplinedRunExclusive(states: seq<State>, labels: seq<Label>, n: nat)
    requires IsRun(states, labels) && n < |states|
    requires forall k: nat :: k < n ==> Disciplined(states, labels, k)
    ensures Exclusive(states[n].d)
  {
    RunProperIff(states, labels, n);
    assert Proper(states[n].d);
    RunInv(states, labels, n);
    PlacedIsExclusive(states[n].d);
  }
}
