/**
 Two runs, built step by step from the empty dispatcher, in which two tasks of one
 repository have a slot at once: one gives back a queued place, the other only
 takes a slot through a re-acquire whose place is gone.
 */
module DispatcherWitnesses {
  import opened Options
  import opened Dispatcher
  import opened DispatcherInvariant
  import opened DispatcherFifo
  import opened DispatcherRuns
  import opened DispatcherExclusion

  const REPO := "acme/app"

  function Place(h: nat, prev: Option<nat>, closes: nat): (b: Baton) { Baton(REPO, h, prev, closes) }

  function RunHold(baton: Option<nat>, slot: bool, waits: nat, id: int): (h: Hold) { Hold(REPO, true, baton, slot, waits, false, id) }

  function Tail(b: nat): (m: map<string, nat>) { map[REPO := b] }

  /** A run of the dispatcher that starts in any state. */
  ghost predicate Leads(states: seq<State>, labels: seq<Label>, s: State, t: State) {
    && |states| == |labels| + 1 && states[0] == s && states[|labels|] == t
    && forall i :: 0 <= i < |labels| ==> Next(states[i], labels[i], states[i + 1])
  }

  /** No step of the run gives back a queued place. */
  ghost predicate Orderly(states: seq<State>, labels: seq<Label>) {
    && |labels| <= |states|
    && forall i :: 0 <= i < |labels| ==> Enabled(states[i], labels[i]) && !GivesBackQueued(states[i], labels[i])
  }

  function FirstRunning(): (s: State) {
    State(Shared(0, 1, 1, Tail(0), map[], [RunHold(Some(0), true, 0, 0)], [Place(0, None, 0)]), [Running], [], [], 0)
  }

  function SecondQueued(): (s: State) {
    State(Shared(0, 1, 2, Tail(1), map[1 := 0],
                 [RunHold(Some(0), true, 0, 1), RunHold(Some(1), false, 0, 0)],
                 [Place(0, None, 0), Place(1, Some(0), 0)]),
          [Running, Queued(0)], [], [], 0)
  }

  function FirstWaiting(): (s: State) {
    State(Shared(0, 1, 2, Tail(1), map[1 := 0],
                 [RunHold(None, false, 1, 1), RunHold(Some(1), true, 0, 0)],
                 [Place(0, None, 1), Place(1, Some(0), 0)]),
          [Running, Running], [], [], 1)
  }

  function PlaceDropped(): (s: State) {
    State(Shared(0, 1, 2, map[], map[1 := 0],
                 [RunHold(None, false, 1, 1), RunHold(Some(1), true, 0, 0)],
                 [Place(0, None, 1), Place(1, Some(0), 0), Place(0, Some(1), 1)]),
          [Running, Running], [Resume(0, Queued(1))], [], 2)
  }

  /** The first submission takes its place and its slot. */
  lemma ToFirstRunning() returns (states: seq<State>, labels: seq<Label>)
    ensures Leads(states, labels, Init(0), FirstRunning()) && Orderly(states, labels)
  {
    labels := [SubmitL(REPO, true), CountL(0), RunGateL(0)];
    var s0 := Init(0);
    var s1 := State(Shared(0, 0, 0, Tail(0), map[], [RunHold(Some(0), false, 0, 0)], [Place(0, None, 0)]), [Submitting(None)], [], [], 0);
    assert Next(s0, labels[0], s1);
    var s2 := s1.(d := s1.d.(pending := 1), runs := [AtGate]);
    assert Next(s1, labels[1], s2);
    assert Next(s2, labels[2], FirstRunning());
    states := [s0, s1, s2, FirstRunning()];
  }

  /** It is named, and a second submission queues behind it. */
  lemma ToSecondQueued() returns (states: seq<State>, labels: seq<Label>)
    ensures Leads(states, labels, FirstRunning(), SecondQueued()) && Orderly(states, labels)
  {
    labels := [NameL(0, 1), SubmitL(REPO, true), CountL(1)];
    var s0 := FirstRunning();
    var s1 := s0.(d := s0.d.(named := map[1 := 0], holds := [RunHold(Some(0), true, 0, 1)]));
    assert Next(s0, labels[0], s1);
    var s2 := SecondQueued().(d := SecondQueued().d.(pending := 1), runs := [Running, Submitting(Some(0))]);
    assert Next(s1, labels[1], s2);
    assert Next(s2, labels[2], SecondQueued());
    states := [s0, s1, s2, SecondQueued()];
  }

  /** The first run waits on a callee and the second starts. */
  lemma ToFirstWaiting() returns (states: seq<State>, labels: seq<Label>)
    ensures Leads(states, labels, SecondQueued(), FirstWaiting()) && Orderly(states, labels)
  {
    labels := [WaitsL(0, 1), RunPredL(1), RunGateL(1)];
    var s0 := SecondQueued();
    var s1 := FirstWaiting().(d := FirstWaiting().d.(active := 0, holds := [RunHold(None, false, 1, 1), RunHold(Some(1), false, 0, 0)]),
                              runs := [Running, Queued(0)]);
    assert Next(s0, labels[0], s1);
    var s2 := s1.(runs := [Running, AtGate]);
    assert Next(s1, labels[1], s2);
    assert Next(s2, labels[2], FirstWaiting());
    states := [s0, s1, s2, FirstWaiting()];
  }

  function FirstBack(): (s: State) {
    var p := FirstWaiting();
    p.(d := p.d.(holds := [RunHold(None, false, 0, 1), RunHold(Some(1), true, 0, 0)]), resumes := [Resume(0, Starting)])
  }

  function FirstRequeued(): (s: State) {
    State(Shared(0, 1, 2, Tail(2), map[1 := 0],
                 [RunHold(Some(2), false, 0, 1), RunHold(Some(1), true, 0, 0)],
                 [Place(0, None, 1), Place(1, Some(0), 0), Place(0, Some(1), 0)]),
          [Running, Running], [Resume(0, Queued(1))], [], 1)
  }

  /** The first run's wait ends, and it queues behind the second. */
  lemma ToFirstRequeued() returns (states: seq<State>, labels: seq<Label>)
    ensures Leads(states, labels, FirstWaiting(), FirstRequeued()) && Orderly(states, labels)
  {
    labels := [WaitsL(0, 0), EnterL(0)];
    assert Next(FirstWaiting(), labels[0], FirstBack());
    assert Next(FirstBack(), labels[1], FirstRequeued());
    states := [FirstWaiting(), FirstBack(), FirstRequeued()];
  }

  /** It waits again: its queued place is given back. */
  lemma ToPlaceDropped() returns (states: seq<State>, labels: seq<Label>)
    ensures Leads(states, labels, FirstRequeued(), PlaceDropped())
  {
    labels := [WaitsL(0, 1)];
    assert Next(FirstRequeued(), labels[0], PlaceDropped());
    states := [FirstRequeued(), PlaceDropped()];
  }

  function Overtaken(): (s: State) {
    var p := PlaceDropped();
    p.(d := Shared(0, 2, 3, Tail(3), map[1 := 0], p.d.holds + [RunHold(Some(3), true, 0, 0)], p.d.batons + [Place(2, None, 0)]),
       runs := [Running, Running, Running])
  }

  /** A third submission then starts at once, beside the second. */
  lemma ToOvertaken() returns (states: seq<State>, labels: seq<Label>)
    ensures Leads(states, labels, PlaceDropped(), Overtaken())
  {
    labels := [SubmitL(REPO, true), CountL(2), RunGateL(2)];
    var s0 := PlaceDropped();
    var s1 := s0.(d := Shared(0, 1, 2, Tail(3), map[1 := 0], s0.d.holds + [RunHold(Some(3), false, 0, 0)], Overtaken().d.batons),
                  runs := [Running, Running, Submitting(None)]);
    assert Next(s0, labels[0], s1);
    var s2 := s1.(d := s1.d.(pending := 3), runs := [Running, Running, AtGate]);
    assert Next(s1, labels[1], s2);
    assert Next(s2, labels[2], Overtaken());
    states := [s0, s1, s2, Overtaken()];
  }

  lemma LeadsOn(states: seq<State>, labels: seq<Label>, s: State, t: State, more: seq<State>, next: seq<Label>, u: State)
    requires Leads(states, labels, s, t) && Leads(more, next, t, u)
    ensures Leads(states + more[1..], labels + next, s, u)
  {
    var ss, ls := states + more[1..], labels + next;
    forall i | 0 <= i < |ls| ensures Next(ss[i], ls[i], ss[i + 1]) {
      if i < |labels| {
        assert Next(states[i], labels[i], states[i + 1]);
      } else {
        assert ss[i] == more[i - |labels|] && ss[i + 1] == more[i - |labels| + 1];
        assert Next(more[i - |labels|], next[i - |labels|], more[i - |labels| + 1]);
      }
    }
  }

  lemma OrderlyOn(states: seq<State>, labels: seq<Label>, s: State, t: State, more: seq<State>, next: seq<Label>, u: State)
    requires Leads(states, labels, s, t) && Leads(more, next, t, u) && Orderly(states, labels) && Orderly(more, next)
    ensures Leads(states + more[1..], labels + next, s, u) && Orderly(states + more[1..], labels + next)
  {
    LeadsOn(states, labels, s, t, more, next, u);
    var ss, ls := states + more[1..], labels + next;
    forall i | 0 <= i < |ls| ensures Enabled(ss[i], ls[i]) && !GivesBackQueued(ss[i], ls[i]) {
      if i >= |labels| { assert ss[i] == more[i - |labels|] && ls[i] == next[i - |labels|]; }
    }
  }

  /** Both runs begin alike: the second task runs, and the first is queued behind it again. */
  lemma ToRequeuedFromStart() returns (states: seq<State>, labels: seq<Label>)
    ensures Leads(states, labels, Init(0), FirstRequeued()) && Orderly(states, labels)
  {
    states, labels := ToFirstRunning();
    var m1, l1 := ToSecondQueued();
    OrderlyOn(states, labels, Init(0), FirstRunning(), m1, l1, SecondQueued());
    states, labels := states + m1[1..], labels + l1;
    var m2, l2 := ToFirstWaiting();
    OrderlyOn(states, labels, Init(0), SecondQueued(), m2, l2, FirstWaiting());
    states, labels := states + m2[1..], labels + l2;
    var m3, l3 := ToFirstRequeued();
    OrderlyOn(states, labels, Init(0), FirstWaiting(), m3, l3, FirstRequeued());
    states, labels := states + m3[1..], labels + l3;
  }

  /** There is a run in which two runs of one repository hold slots and are both at the head. */
  lemma UnrestrictedRunOvertakes() returns (states: seq<State>, labels: seq<Label>)
    ensures IsRun(states, labels)
    ensures var t := states[|labels|];
            && !OneHead(t.d) && !Exclusive(t.d)
            && |t.runs| == |t.d.holds| == 3 && t.runs[1].Running? && t.runs[2].Running?
            && t.d.holds[1].slot && t.d.holds[2].slot
            && t.d.holds[1].chain && t.d.holds[2].chain && t.d.holds[1].repo == t.d.holds[2].repo
  {
    states, labels := ToRequeuedFromStart();
    var m1, l1 := ToPlaceDropped();
    LeadsOn(states, labels, Init(0), FirstRequeued(), m1, l1, PlaceDropped());
    states, labels := states + m1[1..], labels + l1;
    var m2, l2 := ToOvertaken();
    LeadsOn(states, labels, Init(0), PlaceDropped(), m2, l2, Overtaken());
    states, labels := states + m2[1..], labels + l2;
    var t := Overtaken();
    assert Earlier(t.d, 1, 3) && Head(t.d, 1) && Head(t.d, 3) && BothHold(t.d, 1, 2);
  }

  // ---- a slot without a place ----

  function DoneHold(): (h: Hold) { Hold(REPO, true, None, false, 0, true, 0) }

  function SecondDone(): (s: State) {
    State(Shared(0, 0, 1, Tail(2), map[1 := 0],
                 [RunHold(Some(2), false, 0, 1), DoneHold()],
                 [Place(0, None, 1), Place(1, Some(0), 1), Place(0, Some(1), 0)]),
          [Running, Ended], [Resume(0, Queued(1))], [], 2)
  }

  /** The second run returns. */
  lemma ToSecondDone() returns (states: seq<State>, labels: seq<Label>)
    ensures Leads(states, labels, FirstRequeued(), SecondDone()) && Orderly(states, labels)
  {
    labels := [FinishL(1)];
    assert Next(FirstRequeued(), labels[0], SecondDone());
    states := [FirstRequeued(), SecondDone()];
  }

  function HeadDropped(): (s: State) {
    State(Shared(0, 0, 1, map[], map[1 := 0],
                 [RunHold(None, false, 1, 1), DoneHold()],
                 [Place(0, None, 1), Place(1, Some(0), 1), Place(0, Some(1), 1)]),
          [Running, Ended], [Resume(0, AtGate)], [], 3)
  }

  /** The re-acquire gets its turn and stands before the gate when the run waits again: its place, now at the head, is given back. */
  lemma ToHeadDropped() returns (states: seq<State>, labels: seq<Label>)
    ensures Leads(states, labels, SecondDone(), HeadDropped()) && Orderly(states, labels)
  {
    labels := [ResumePredL(0), WaitsL(0, 1)];
    var s0 := SecondDone();
    var s1 := s0.(resumes := [Resume(0, AtGate)]);
    assert Next(s0, labels[0], s1);
    assert Next(s1, labels[1], HeadDropped());
    states := [s0, s1, HeadDropped()];
  }

  function ThirdRunning(): (s: State) {
    var p := HeadDropped();
    p.(d := Shared(0, 1, 2, Tail(3), map[1 := 0], p.d.holds + [RunHold(Some(3), true, 0, 0)], p.d.batons + [Place(2, None, 0)]),
       runs := [Running, Ended, Running])
  }

  /** A third submission finds the chain empty and starts. */
  lemma ToThirdRunning() returns (states: seq<State>, labels: seq<Label>)
    ensures Leads(states, labels, HeadDropped(), ThirdRunning()) && Orderly(states, labels)
  {
    labels := [SubmitL(REPO, true), CountL(2), RunGateL(2)];
    var s0 := HeadDropped();
    var s1 := s0.(d := Shared(0, 0, 1, Tail(3), map[1 := 0], s0.d.holds + [RunHold(Some(3), false, 0, 0)], ThirdRunning().d.batons),
                  runs := [Running, Ended, Submitting(None)]);
    assert Next(s0, labels[0], s1);
    var s2 := s1.(d := s1.d.(pending := 2), runs := [Running, Ended, AtGate]);
    assert Next(s1, labels[1], s2);
    assert Next(s2, labels[2], ThirdRunning());
    states := [s0, s1, s2, ThirdRunning()];
  }

  function WaitOver(): (s: State) {
    var p := ThirdRunning();
    p.(d := p.d.(holds := [RunHold(None, false, 0, 1), DoneHold(), RunHold(Some(3), true, 0, 0)]),
       resumes := [Resume(0, AtGate), Resume(0, Starting)])
  }

  function Overlapping(): (s: State) {
    var p := WaitOver();
    p.(d := p.d.(active := 2, holds := [RunHold(None, true, 0, 1), DoneHold(), RunHold(Some(3), true, 0, 0)]),
       resumes := [Resume(0, Ended), Resume(0, Starting)])
  }

  /** The wait ends, and the old re-acquire takes the slot before the new one has queued a place. */
  lemma ToOverlapping() returns (states: seq<State>, labels: seq<Label>)
    ensures Leads(states, labels, ThirdRunning(), Overlapping()) && Orderly(states, labels)
    ensures |labels| == 2 && TakesUnplaced(states[1], labels[1])
  {
    labels := [WaitsL(0, 0), ResumeGateL(0)];
    LastWaitOver();
    StaleTake();
    states := [ThirdRunning(), WaitOver(), Overlapping()];
  }

  lemma LastWaitOver()
    ensures Next(ThirdRunning(), WaitsL(0, 0), WaitOver()) && !GivesBackQueued(ThirdRunning(), WaitsL(0, 0))
  {
  }

  lemma StaleTake()
    ensures Next(WaitOver(), ResumeGateL(0), Overlapping()) && TakesUnplaced(WaitOver(), ResumeGateL(0))
  {
  }

  lemma ToThirdFromStart() returns (states: seq<State>, labels: seq<Label>)
    ensures Leads(states, labels, Init(0), ThirdRunning()) && Orderly(states, labels)
  {
    states, labels := ToRequeuedFromStart();
    var m3, l3 := ToSecondDone();
    OrderlyOn(states, labels, Init(0), FirstRequeued(), m3, l3, SecondDone());
    states, labels := states + m3[1..], labels + l3;
    var m4, l4 := ToHeadDropped();
    OrderlyOn(states, labels, Init(0), SecondDone(), m4, l4, HeadDropped());
    states, labels := states + m4[1..], labels + l4;
    var m5, l5 := ToThirdRunning();
    OrderlyOn(states, labels, Init(0), HeadDropped(), m5, l5, ThirdRunning());
    states, labels := states + m5[1..], labels + l5;
  }

  /** There is a run that gives back no queued place in which two runs of one repository have a slot, one of them without a place. */
  lemma OrderlyRunOverlaps() returns (states: seq<State>, labels: seq<Label>)
    ensures IsRun(states, labels) && |labels| > 0
    ensures forall k: nat :: k < |labels| ==> !BreaksOrder(states, labels, k)
    ensures TakesUnplacedAt(states, labels, |labels| - 1)
    ensures var t := states[|labels|];
            && !Exclusive(t.d) && OneHead(t.d)
            && |t.runs| == |t.d.holds| == 3 && t.runs[0].Running? && t.runs[2].Running?
            && t.d.holds[0].slot && t.d.holds[0].baton.None? && t.d.holds[2].slot
  {
    var ss, ls := ToThirdFromStart();
    var more, next := ToOverlapping();
    OrderlyOn(ss, ls, Init(0), ThirdRunning(), more, next, Overlapping());
    states, labels := ss + more[1..], ls + next;
    assert states[|labels| - 1] == more[1] && labels[|labels| - 1] == next[1];
    var t := Overlapping();
    assert BothHold(t.d, 0, 2);
    RunOrderedIff(states, labels, |labels|);
    OrderedOneHead(t.d);
  }
}
