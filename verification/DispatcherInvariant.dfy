/** What every step of the dispatcher keeps, whatever the interleaving. */
module DispatcherInvariant {
  import opened Options
  import opened Dispatcher

  ghost function SlotHolders(holds: seq<Hold>): (r: set<nat>) {
    set h: nat | h < |holds| && holds[h].slot
  }

  predicate Counted(pc: PC) {
    pc.Queued? || pc.AtGate? || pc.Asleep? || pc.Running?
  }

  /** The runs between their `pending++` and their `pending--`. */
  ghost function CountedRuns(runs: seq<PC>): (r: set<nat>) {
    set h: nat | h < |runs| && Counted(runs[h])
  }

  /** The place a hold records is its own open baton. */
  ghost predicate PlaceOk(d: Shared, h: nat) {
    h < |d.holds| && d.holds[h].baton.Some? ==>
      var b := d.holds[h].baton.value;
      Open(d, b) && d.batons[b].owner == h && d.holds[h].chain
  }

  /** A baton is closed at most once, is open only while its owner records it, and waits on an older one. */
  ghost predicate BatonOk(d: Shared, b: nat) {
    b < |d.batons| ==>
      var x := d.batons[b];
      && x.closes <= 1
      && x.owner < |d.holds|
      && d.holds[x.owner].repo == x.repo
      && (x.closes == 0 ==> d.holds[x.owner].baton == Some(b))
      && (x.prev.Some? ==> x.prev.value < b)
  }

  ghost predicate TailOk(d: Shared, repo: string) {
    repo in d.repoTail ==> Open(d, d.repoTail[repo]) && d.batons[d.repoTail[repo]].repo == repo
  }

  /** Batons and holds agree. */
  ghost predicate Batons(d: Shared) {
    && (forall h :: PlaceOk(d, h))
    && (forall b :: BatonOk(d, b))
    && (forall repo :: TailOk(d, repo))
  }

  /** Nothing the baton was queued behind is still open. */
  predicate Settled(d: Shared, b: nat) {
    b < |d.batons| && (d.batons[b].closes > 0 || d.batons[b].prev.None? || !Open(d, d.batons[b].prev.value))
  }

  /** The baton recorded by hold `h`, ahead of which `p` is queued. */
  ghost predicate QueuedBehind(d: Shared, h: nat, p: Option<nat>) {
    h < |d.holds| && d.holds[h].baton.Some? && d.holds[h].baton.value < |d.batons| && d.batons[d.holds[h].baton.value].prev == p
  }

  /** A run that has not started its process: it holds its one place, and no slot. */
  ghost predicate BeforeRun(d: Shared, h: nat, pc: PC)
    requires h < |d.holds|
  {
    var x := d.holds[h];
    && !x.slot && !x.finished && x.waits == 0 && x.id == 0
    && x.chain == x.baton.Some?
    && match pc
       case Submitting(p) => if x.chain then QueuedBehind(d, h, p) else p.None?
       case Queued(p) => QueuedBehind(d, h, Some(p))
       case _ => x.baton.Some? ==> Settled(d, x.baton.value)
  }

  /** What a hold records at each point of its run. */
  ghost predicate RunOk(d: Shared, h: nat, pc: PC) {
    h < |d.holds| ==>
      var x := d.holds[h];
      match pc
      case Starting => false
      case Running => !x.finished && (x.waits > 0 ==> !x.slot && x.baton.None?)
      case Ended => x.finished && !x.slot && x.baton.None?
      case _ => BeforeRun(d, h, pc)
  }

  ghost predicate Runs(d: Shared, runs: seq<PC>) {
    forall h :: 0 <= h < |runs| ==> RunOk(d, h, runs[h])
  }

  /** A named task is a running one, and the name is the hold's own. */
  ghost predicate NameOk(d: Shared, runs: seq<PC>, id: int) {
    id in d.named ==>
      && id != 0
      && d.named[id] < |d.holds| && d.named[id] < |runs|
      && d.holds[d.named[id]].id == id
      && runs[d.named[id]].Running?
  }

  predicate Begun(pc: PC) { pc.Running? || pc.Ended? }

  /** A re-acquire exists only for a run whose process started. */
  ghost predicate ResumeOk(runs: seq<PC>, r: Resume) {
    && r.hold < |runs| && Begun(runs[r.hold])
    && !r.pc.Submitting? && !r.pc.Running?
  }

  ghost predicate Resumes(runs: seq<PC>, resumes: seq<Resume>) {
    forall r :: 0 <= r < |resumes| ==> ResumeOk(runs, resumes[r])
  }

  ghost predicate RunAsleep(s: State) {
    || (exists h :: 0 <= h < |s.runs| && s.runs[h].Asleep?)
    || (exists r :: 0 <= r < |s.resumes| && s.resumes[r].pc.Asleep?)
  }

  ghost predicate DrainAsleep(s: State) {
    exists w :: 0 <= w < |s.drains| && s.drains[w].Asleep?
  }

  /** No lost wake-up: a sleeper whose condition no longer holds is owed a broadcast. */
  ghost predicate Wakeups(s: State) {
    && (forall w :: 0 <= w < |s.drains| ==> s.drains[w].AtGate? || s.drains[w].Asleep? || s.drains[w].Ended?)
    && (RunAsleep(s) && HasRoom(s.d) ==> s.owed > 0)
    && (DrainAsleep(s) && s.d.pending <= 0 ==> s.owed > 0)
  }

  ghost predicate Inv(s: State) {
    && |s.runs| == |s.d.holds|
    && s.d.active == |SlotHolders(s.d.holds)| && s.d.pending == |CountedRuns(s.runs)|
    && (forall id :: NameOk(s.d, s.runs, id))
    && Runs(s.d, s.runs)
    && Resumes(s.runs, s.resumes)
    && Batons(s.d)
    && Wakeups(s)
  }

  lemma InvWf(s: State)
    requires Inv(s)
    ensures Wf(s)
  {
    forall h | 0 <= h < |s.d.holds| && s.d.holds[h].baton.Some?
      ensures s.d.holds[h].baton.value < |s.d.batons|
    {
      assert PlaceOk(s.d, h);
    }
  }

  // ---- counting ----

  lemma SlotSet(holds: seq<Hold>, h: nat, x: Hold)
    requires h < |holds|
    ensures SlotHolders(holds[h := x]) == if x.slot then SlotHolders(holds) + {h} else SlotHolders(holds) - {h}
    ensures |SlotHolders(holds[h := x])| ==
            |SlotHolders(holds)| + (if x.slot then 1 else 0) - (if holds[h].slot then 1 else 0)
  {
    var before, after := SlotHolders(holds), SlotHolders(holds[h := x]);
    assert after == if x.slot then before + {h} else before - {h};
  }

  lemma SlotAppend(holds: seq<Hold>, x: Hold)
    requires !x.slot
    ensures SlotHolders(holds + [x]) == SlotHolders(holds)
  {
  }

  lemma RunSet(runs: seq<PC>, h: nat, pc: PC)
    requires h < |runs|
    ensures |CountedRuns(runs[h := pc])| ==
            |CountedRuns(runs)| + (if Counted(pc) then 1 else 0) - (if Counted(runs[h]) then 1 else 0)
  {
    var before, after := CountedRuns(runs), CountedRuns(runs[h := pc]);
    assert after == if Counted(pc) then before + {h} else before - {h};
  }

  lemma RunAppend(runs: seq<PC>, pc: PC)
    requires !Counted(pc)
    ensures CountedRuns(runs + [pc]) == CountedRuns(runs)
  {
  }

  lemma RunWake(runs: seq<PC>)
    ensures CountedRuns(WakeAll(runs)) == CountedRuns(runs)
  {
  }

  lemma GiveBackCounts(d: Shared, h: nat)
    requires h < |d.holds|
    requires d.holds[h].baton.Some? ==> d.holds[h].baton.value < |d.batons|
    ensures var r := GiveBack(d, h);
            |r.holds| == |d.holds| && r.active - |SlotHolders(r.holds)| == d.active - |SlotHolders(d.holds)|
  {
    SlotSet(d.holds, h, d.holds[h].(slot := false));
    var d1 := GiveSlot(d, h);
    SlotSet(d1.holds, h, d1.holds[h].(baton := None));
  }

  /** The holds differ only in slot, waits, finished and id. */
  ghost predicate SamePlaces(d: Shared, e: Shared) {
    && |d.holds| == |e.holds| && d.batons == e.batons && d.repoTail == e.repoTail
    && forall i :: 0 <= i < |d.holds| ==>
         d.holds[i].repo == e.holds[i].repo && d.holds[i].chain == e.holds[i].chain && d.holds[i].baton == e.holds[i].baton
  }

  lemma SamePlacesBatons(d: Shared, e: Shared)
    requires Batons(d) && SamePlaces(d, e)
    ensures Batons(e)
  {
    forall h ensures PlaceOk(e, h) { assert PlaceOk(d, h); }
    forall b ensures BatonOk(e, b) { assert BatonOk(d, b); }
    forall repo ensures TailOk(e, repo) { assert TailOk(d, repo); }
  }

  /** Closing the place of `h` keeps batons and holds in agreement. */
  lemma GivePlaceBatons(d: Shared, h: nat)
    requires Batons(d) && h < |d.holds|
    requires d.holds[h].baton.Some? ==> d.holds[h].baton.value < |d.batons|
    ensures Batons(GivePlace(d, h))
  {
    var e := GivePlace(d, h);
    if d.holds[h].baton.Some? {
      var b := d.holds[h].baton.value;
      assert PlaceOk(d, h);
      assert BatonOk(d, b);
      forall i ensures PlaceOk(e, i) { assert PlaceOk(d, i); }
      forall c ensures BatonOk(e, c) { assert BatonOk(d, c); }
      forall repo ensures TailOk(e, repo) { assert TailOk(d, repo); }
    }
  }

  /** A new baton for a hold that records none keeps batons and holds in agreement. */
  lemma JoinBatons(d: Shared, h: nat)
    requires Batons(d) && h < |d.holds| && d.holds[h].baton.None? && d.holds[h].chain
    ensures Batons(Join(d, h))
  {
    var e := Join(d, h);
    forall i ensures PlaceOk(e, i) { assert PlaceOk(d, i); }
    forall c ensures BatonOk(e, c) { assert BatonOk(d, c); assert TailOk(d, d.holds[h].repo); }
    forall repo ensures TailOk(e, repo) { assert TailOk(d, repo); }
  }


  // ---- frames ----

  /** Batons are appended and closed, never reopened or reordered. */
  ghost predicate Grows(d: Shared, e: Shared) {
    && |d.batons| <= |e.batons|
    && forall b :: 0 <= b < |d.batons| ==>
         && e.batons[b].repo == d.batons[b].repo && e.batons[b].owner == d.batons[b].owner
         && e.batons[b].prev == d.batons[b].prev && e.batons[b].closes >= d.batons[b].closes
  }

  lemma SettledGrows(d: Shared, e: Shared, b: nat)
    requires Grows(d, e) && Batons(d) && Settled(d, b)
    ensures Settled(e, b)
  {
    assert BatonOk(d, b);
  }

  /** A run's record is unaffected by what other runs do. */
  lemma RunFrame(d: Shared, e: Shared, h: nat, pc: PC)
    requires Grows(d, e) && Batons(d) && RunOk(d, h, pc)
    requires h < |d.holds| && h < |e.holds| && e.holds[h] == d.holds[h]
    ensures RunOk(e, h, pc)
  {
    if d.holds[h].baton.Some? {
      assert PlaceOk(d, h);
      if Settled(d, d.holds[h].baton.value) { SettledGrows(d, e, d.holds[h].baton.value); }
    }
  }

  /** Only hold `h` and its goroutine change. */
  lemma RunsFrame(d: Shared, e: Shared, runs: seq<PC>, h: nat, pc: PC)
    requires Grows(d, e) && Batons(d) && Runs(d, runs)
    requires |runs| == |d.holds| == |e.holds| && h < |runs|
    requires forall i :: 0 <= i < |d.holds| && i != h ==> e.holds[i] == d.holds[i]
    requires RunOk(e, h, pc)
    ensures Runs(e, runs[h := pc])
  {
    var next := runs[h := pc];
    forall i | 0 <= i < |next| ensures RunOk(e, i, next[i]) {
      if i != h { RunFrame(d, e, i, runs[i]); }
    }
  }

  lemma ResumesFrame(runs: seq<PC>, next: seq<PC>, resumes: seq<Resume>)
    requires Resumes(runs, resumes)
    requires |runs| <= |next| && forall h :: 0 <= h < |runs| && Begun(runs[h]) ==> Begun(next[h])
    ensures Resumes(next, resumes)
  {
    forall r | 0 <= r < |resumes| ensures ResumeOk(next, resumes[r]) { assert ResumeOk(runs, resumes[r]); }
  }

  lemma GiveBackEffect(d: Shared, h: nat)
    requires Batons(d) && h < |d.holds|
    requires d.holds[h].baton.Some? ==> d.holds[h].baton.value < |d.batons|
    ensures var e := GiveBack(d, h);
            && Batons(e) && Grows(d, e)
            && e.limit == d.limit && e.pending == d.pending && e.named == d.named
            && e.holds == d.holds[h := d.holds[h].(slot := false, baton := None)]
            && e.active - |SlotHolders(e.holds)| == d.active - |SlotHolders(d.holds)|
            && e.active == (if d.holds[h].slot then d.active - 1 else d.active)
  {
    GiveBackCounts(d, h);
    SamePlacesBatons(d, GiveSlot(d, h));
    GivePlaceBatons(GiveSlot(d, h), h);
  }

  // ---- each step keeps the invariant ----

  lemma StepSubmit(s: State, repo: string, chain: bool)
    requires Inv(s)
    requires Wf(s)
    ensures Inv(Apply(s, SubmitL(repo, chain)))
  {
    var t := Apply(s, SubmitL(repo, chain));
    var h := |s.d.holds|;
    var d1 := s.d.(holds := s.d.holds + [Hold(repo, chain, None, false, 0, false, 0)]);
    forall i ensures PlaceOk(d1, i) { assert PlaceOk(s.d, i); }
    forall b ensures BatonOk(d1, b) { assert BatonOk(s.d, b); }
    forall r ensures TailOk(d1, r) { assert TailOk(s.d, r); }
    if chain { JoinBatons(d1, h); }
    assert t.d.holds == s.d.holds + [t.d.holds[h]];
    SlotAppend(s.d.holds, t.d.holds[h]);
    RunAppend(s.runs, t.runs[h]);
    forall i | 0 <= i < |t.runs| ensures RunOk(t.d, i, t.runs[i]) {
      if i < h { RunFrame(s.d, t.d, i, s.runs[i]); }
    }
    forall id ensures NameOk(t.d, t.runs, id) { assert NameOk(s.d, s.runs, id); }
    ResumesFrame(s.runs, t.runs, s.resumes);
  }

  lemma StepRunGate(s: State, h: nat)
    requires Inv(s) && Enabled(s, RunGateL(h))
    ensures Inv(Apply(s, RunGateL(h)))
  {
    var t := Apply(s, RunGateL(h));
    RunSet(s.runs, h, t.runs[h]);
    assert RunOk(s.d, h, s.runs[h]);
    if HasRoom(s.d) { TakeEffect(s.d, h); }
    RunsFrame(s.d, t.d, s.runs, h, t.runs[h]);
    forall id ensures NameOk(t.d, t.runs, id) { assert NameOk(s.d, s.runs, id); }
    ResumesFrame(s.runs, t.runs, s.resumes);
  }

  /** The steps of a run before its gate: counted in, and released by its predecessor. */
  lemma StepRun(s: State, l: Label)
    requires Inv(s) && Enabled(s, l) && (l.CountL? || l.RunPredL?)
    ensures Inv(Apply(s, l))
  {
    var t := Apply(s, l);
    SamePlacesBatons(s.d, t.d);
    RunSet(s.runs, l.h, t.runs[l.h]);
    assert RunOk(s.d, l.h, s.runs[l.h]);
    RunsFrame(s.d, t.d, s.runs, l.h, t.runs[l.h]);
    forall id ensures NameOk(t.d, t.runs, id) { assert NameOk(s.d, s.runs, id); }
    ResumesFrame(s.runs, t.runs, s.resumes);
  }

  lemma NameEffect(d: Shared, h: nat, id: int)
    requires Batons(d) && h < |d.holds|
    ensures var e := Name(d, h, id); Batons(e) && Grows(d, e) && |SlotHolders(e.holds)| == |SlotHolders(d.holds)|
  {
    SlotSet(d.holds, h, d.holds[h].(id := id));
    SamePlacesBatons(d, Name(d, h, id));
  }

  lemma StepName(s: State, h: nat, id: int)
    requires Inv(s) && Enabled(s, NameL(h, id))
    ensures Inv(Apply(s, NameL(h, id)))
  {
    var t := Apply(s, NameL(h, id));
    NameEffect(s.d, h, id);
    assert RunOk(s.d, h, s.runs[h]);
    RunsFrame(s.d, t.d, s.runs, h, Running);
    assert t.runs == s.runs[h := Running];
    forall i ensures NameOk(t.d, t.runs, i) { assert NameOk(s.d, s.runs, i); }
  }

  lemma FinishEffect(d: Shared, h: nat)
    requires Batons(d) && h < |d.holds|
    requires d.holds[h].baton.Some? ==> d.holds[h].baton.value < |d.batons|
    ensures var e := FinishRun(d, h);
            && Batons(e) && Grows(d, e)
            && e.holds == d.holds[h := d.holds[h].(finished := true, slot := false, baton := None)]
            && e.named == (if d.holds[h].id != 0 && d.holds[h].id in d.named && d.named[d.holds[h].id] == h
                           then d.named - {d.holds[h].id} else d.named)
            && e.active - |SlotHolders(e.holds)| == d.active - |SlotHolders(d.holds)|
            && e.limit == d.limit && e.pending == d.pending - 1
  {
    var d2 := RetireEffect(d, h);
    GiveBackEffect(d2, h);
    SamePlacesBatons(GiveBack(d2, h), FinishRun(d, h));
  }

  /** The first lines of finishRun, before it gives anything back. */
  lemma RetireEffect(d: Shared, h: nat) returns (d2: Shared)
    requires Batons(d) && h < |d.holds|
    requires d.holds[h].baton.Some? ==> d.holds[h].baton.value < |d.batons|
    ensures Batons(d2) && d2.batons == d.batons && d2.holds == d.holds[h := d.holds[h].(finished := true)]
    ensures d2.named == (if d.holds[h].id != 0 && d.holds[h].id in d.named && d.named[d.holds[h].id] == h
                         then d.named - {d.holds[h].id} else d.named)
    ensures d2.active == d.active && |SlotHolders(d2.holds)| == |SlotHolders(d.holds)| && d2.limit == d.limit && d2.pending == d.pending
    ensures FinishRun(d, h) == GiveBack(d2, h).(pending := d.pending - 1)
  {
    var id := d.holds[h].id;
    var d1 := UpdateHold(d, h, d.holds[h].(finished := true));
    d2 := if id != 0 && id in d1.named && d1.named[id] == h then d1.(named := d1.named - {id}) else d1;
    SlotSet(d.holds, h, d1.holds[h]);
    SamePlacesBatons(d, d2);
  }

  /** Ending run `h` in any dispatcher record with the effect of finishRun. */
  lemma FinishStep(s: State, h: nat, e: Shared)
    requires Inv(s) && h < |s.runs| && s.runs[h].Running?
    requires Batons(e) && Grows(s.d, e)
    requires e.holds == s.d.holds[h := s.d.holds[h].(finished := true, slot := false, baton := None)]
    requires e.named == (if s.d.holds[h].id != 0 && s.d.holds[h].id in s.d.named && s.d.named[s.d.holds[h].id] == h
                         then s.d.named - {s.d.holds[h].id} else s.d.named)
    requires e.active - |SlotHolders(e.holds)| == s.d.active - |SlotHolders(s.d.holds)|
    requires e.limit == s.d.limit && e.pending == s.d.pending - 1
    ensures Inv(s.(d := e, runs := s.runs[h := Ended], owed := s.owed + 1))
  {
    var t := s.(d := e, runs := s.runs[h := Ended], owed := s.owed + 1);
    RunSet(s.runs, h, Ended);
    RunsFrame(s.d, t.d, s.runs, h, Ended);
    forall i ensures NameOk(t.d, t.runs, i) { assert NameOk(s.d, s.runs, i); }
    ResumesFrame(s.runs, t.runs, s.resumes);
  }

  lemma WaitsEffect(d: Shared, h: nat, waits: nat)
    requires Batons(d) && h < |d.holds| && TracksWaits(d, h)
    requires d.holds[h].baton.Some? ==> d.holds[h].baton.value < |d.batons|
    ensures var e := SetCallWaits(d, h, waits);
            && Batons(e) && Grows(d, e)
            && e.holds == d.holds[h := if waits > 0 then d.holds[h].(waits := waits, slot := false, baton := None)
                                       else d.holds[h].(waits := 0)]
            && e.named == d.named && e.limit == d.limit && e.pending == d.pending
            && e.active - |SlotHolders(e.holds)| == d.active - |SlotHolders(d.holds)|
            && (waits == 0 ==> e.active == d.active)
  {
    var d1 := WaitsNoted(d, h, waits);
    GiveBackEffect(d1, h);
  }

  /** The wait count alone. */
  lemma WaitsNoted(d: Shared, h: nat, waits: nat) returns (d1: Shared)
    requires Batons(d) && h < |d.holds|
    ensures d1 == UpdateHold(d, h, d.holds[h].(waits := waits)) && Batons(d1) && Grows(d, d1)
    ensures |SlotHolders(d1.holds)| == |SlotHolders(d.holds)|
  {
    d1 := UpdateHold(d, h, d.holds[h].(waits := waits));
    SlotSet(d.holds, h, d1.holds[h]);
    SamePlacesBatons(d, d1);
  }

  /** Any record with the effect of setCallWaits on the running hold `h`. */
  lemma WaitsStep(s: State, h: nat, waits: nat, e: Shared, resumes: seq<Resume>, owed: nat)
    requires Inv(s) && h < |s.runs| && s.runs[h].Running?
    requires Batons(e) && Grows(s.d, e)
    requires e.holds == s.d.holds[h := if waits > 0 then s.d.holds[h].(waits := waits, slot := false, baton := None)
                                       else s.d.holds[h].(waits := 0)]
    requires e.named == s.d.named && e.limit == s.d.limit && e.pending == s.d.pending
    requires e.active - |SlotHolders(e.holds)| == s.d.active - |SlotHolders(s.d.holds)|
    requires waits == 0 ==> e.active == s.d.active
    requires resumes == s.resumes || resumes == s.resumes + [Resume(h, Starting)]
    requires owed == if waits > 0 then s.owed + 1 else s.owed
    ensures Inv(s.(d := e, resumes := resumes, owed := owed))
  {
    var t := s.(d := e, resumes := resumes, owed := owed);
    assert RunOk(s.d, h, Running);
    RunsFrame(s.d, e, s.runs, h, Running);
    assert s.runs[h := Running] == s.runs;
    forall i ensures NameOk(t.d, t.runs, i) { assert NameOk(s.d, s.runs, i); }
    forall r | 0 <= r < |t.resumes| ensures ResumeOk(t.runs, t.resumes[r]) {
      if r < |s.resumes| { assert ResumeOk(s.runs, s.resumes[r]); }
    }
  }

  /** The effect of joining the chain again. */
  lemma JoinEffect(d: Shared, h: nat)
    requires Batons(d) && h < |d.holds| && d.holds[h].baton.None? && d.holds[h].chain
    ensures var e := Join(d, h);
            && Batons(e) && Grows(d, e)
            && e.holds == d.holds[h := d.holds[h].(baton := Some(|d.batons|))]
            && e.named == d.named && e.limit == d.limit && e.pending == d.pending && e.active == d.active
            && |SlotHolders(e.holds)| == |SlotHolders(d.holds)|
  {
    JoinBatons(d, h);
    SlotSet(d.holds, h, d.holds[h].(baton := Some(|d.batons|)));
  }

  /** Any record with that effect, once the re-acquire waits for its place. */
  lemma EnterStep(s: State, r: nat, h: nat, e: Shared, pc: PC)
    requires Inv(s) && r < |s.resumes| && h == s.resumes[r].hold && h < |s.d.holds| && !NotNeeded(s.d, h)
    requires Batons(e) && Grows(s.d, e) && (pc.Queued? || pc.AtGate?)
    requires e.holds == s.d.holds[h := s.d.holds[h].(baton := Some(|s.d.batons|))]
    requires e.named == s.d.named && e.limit == s.d.limit && e.pending == s.d.pending && e.active == s.d.active
    requires |SlotHolders(e.holds)| == |SlotHolders(s.d.holds)|
    ensures Inv(SetResume(s.(d := e), r, pc))
  {
    var t := SetResume(s.(d := e), r, pc);
    assert ResumeOk(s.runs, s.resumes[r]);
    assert RunOk(s.d, h, s.runs[h]);
    RunsFrame(s.d, e, s.runs, h, s.runs[h]);
    assert s.runs[h := s.runs[h]] == s.runs;
    forall i ensures NameOk(t.d, t.runs, i) { assert NameOk(s.d, s.runs, i); }
    forall q | 0 <= q < |t.resumes| ensures ResumeOk(t.runs, t.resumes[q]) { assert ResumeOk(s.runs, s.resumes[q]); }
  }

  /** A re-acquire that only moves on: released by its predecessor, asleep, or ended with a slot already there. */
  lemma ResumeMoves(s: State, r: nat, pc: PC, owed: nat)
    requires Inv(s) && r < |s.resumes| && owed >= s.owed
    requires pc.AtGate? || (pc.Asleep? && !HasRoom(s.d)) || pc.Ended?
    ensures Inv(SetResume(s.(owed := owed), r, pc))
  {
    var t := SetResume(s.(owed := owed), r, pc);
    forall q | 0 <= q < |t.resumes| ensures ResumeOk(t.runs, t.resumes[q]) { assert ResumeOk(s.runs, s.resumes[q]); }
  }

  lemma StepEnter(s: State, r: nat)
    requires Inv(s) && Enabled(s, EnterL(r))
    ensures Inv(Apply(s, EnterL(r)))
  {
    var h := s.resumes[r].hold;
    if NotNeeded(s.d, h) {
      ResumeMoves(s, r, Ended, s.owed);
    } else if NeedsPlace(s.d, h) {
      JoinEffect(s.d, h);
      EnterStep(s, r, h, Join(s.d, h), Apply(s, EnterL(r)).resumes[r].pc);
    } else {
      ResumeMoves(s, r, AtGate, s.owed);
    }
  }

  /** The effect of the second critical section of reacquire on a hold without a slot. */
  lemma TakeEffect(d: Shared, h: nat)
    requires Batons(d) && h < |d.holds| && !d.holds[h].slot
    requires d.holds[h].baton.Some? ==> d.holds[h].baton.value < |d.batons|
    ensures var e := ReacquireTake(d, h);
            && Batons(e) && Grows(d, e)
            && e.holds == d.holds[h := if NotNeeded(d, h) then d.holds[h].(baton := None) else d.holds[h].(slot := true)]
            && e.named == d.named && e.limit == d.limit && e.pending == d.pending
            && e.active - |SlotHolders(e.holds)| == d.active - |SlotHolders(d.holds)|
            && e.active == (if NotNeeded(d, h) then d.active else d.active + 1)
  {
    var d1 := d.(active := d.active + 1, holds := d.holds[h := d.holds[h].(slot := true)]);
    SlotSet(d.holds, h, d1.holds[h]);
    SamePlacesBatons(d, d1);
    GiveBackEffect(d1, h);
  }

  /** Any record with that effect, once the re-acquire ended. */
  lemma TakeStep(s: State, r: nat, h: nat, e: Shared, owed: nat)
    requires Inv(s) && r < |s.resumes| && h == s.resumes[r].hold && h < |s.d.holds| && !s.d.holds[h].slot
    requires Batons(e) && Grows(s.d, e)
    requires e.holds == s.d.holds[h := if NotNeeded(s.d, h) then s.d.holds[h].(baton := None) else s.d.holds[h].(slot := true)]
    requires e.named == s.d.named && e.limit == s.d.limit && e.pending == s.d.pending
    requires e.active - |SlotHolders(e.holds)| == s.d.active - |SlotHolders(s.d.holds)|
    requires e.active == if NotNeeded(s.d, h) then s.d.active else s.d.active + 1
    requires owed == s.owed + if NotNeeded(s.d, h) then 1 else 0
    ensures Inv(SetResume(s.(d := e, owed := owed), r, Ended))
  {
    var t := SetResume(s.(d := e, owed := owed), r, Ended);
    assert ResumeOk(s.runs, s.resumes[r]);
    assert RunOk(s.d, h, s.runs[h]);
    RunsFrame(s.d, e, s.runs, h, s.runs[h]);
    assert s.runs[h := s.runs[h]] == s.runs;
    forall i ensures NameOk(t.d, t.runs, i) { assert NameOk(s.d, s.runs, i); }
    forall q | 0 <= q < |t.resumes| ensures ResumeOk(t.runs, t.resumes[q]) { assert ResumeOk(s.runs, s.resumes[q]); }
  }

  lemma StepDrain(s: State, l: Label)
    requires Inv(s) && Enabled(s, l) && (l.DrainL? || l.DrainGateL?)
    ensures Inv(Apply(s, l))
  {
    var t := Apply(s, l);
    assert t.d == s.d && t.runs == s.runs && t.resumes == s.resumes;
  }

  lemma StepBroadcast(s: State)
    requires Inv(s) && Enabled(s, BroadcastL)
    ensures Inv(Apply(s, BroadcastL))
  {
    var t := Apply(s, BroadcastL);
    RunWake(s.runs);
    forall h | 0 <= h < |t.runs| ensures RunOk(t.d, h, t.runs[h]) { assert RunOk(s.d, h, s.runs[h]); }
    forall i ensures NameOk(t.d, t.runs, i) { assert NameOk(s.d, s.runs, i); }
    forall q | 0 <= q < |t.resumes| ensures ResumeOk(t.runs, t.resumes[q]) { assert ResumeOk(s.runs, s.resumes[q]); }
  }

  // ---- one hold across one step ----

  /** The record of hold `h` after a step. */
  function HoldAfter(s: State, l: Label, h: nat): (x: Hold)
    requires Enabled(s, l) && h < |s.d.holds|
  {
    var x := s.d.holds[h];
    match l
    case RunGateL(g) => if g == h && HasRoom(s.d) then x.(slot := true) else x
    case NameL(g, id) => if g == h && id != 0 then x.(id := id) else x
    case FinishL(g) => if g == h then x.(finished := true, slot := false, baton := None) else x
    case WaitsL(g, waits) =>
      if g != h || !TracksWaits(s.d, h) then x
      else if waits > 0 then x.(waits := waits, slot := false, baton := None)
      else x.(waits := 0)
    case EnterL(r) =>
      if s.resumes[r].hold == h && !NotNeeded(s.d, h) && NeedsPlace(s.d, h) then x.(baton := Some(|s.d.batons|)) else x
    case ResumeGateL(r) =>
      if s.resumes[r].hold != h || !HasRoom(s.d) || x.slot then x
      else if NotNeeded(s.d, h) then x.(baton := None)
      else x.(slot := true)
    case _ => x
  }

  /** A returned run, a wait report and a re-acquire at the gate change one hold each. */
  lemma BusyHold(s: State, l: Label, h: nat)
    requires Inv(s) && Enabled(s, l) && h < |s.d.holds| && (l.FinishL? || l.WaitsL? || l.ResumeGateL?)
    ensures h < |Apply(s, l).d.holds| && Apply(s, l).d.holds[h] == HoldAfter(s, l, h)
  {
    match l
    case FinishL(g) => FinishEffect(s.d, g);
    case WaitsL(g, waits) => if TracksWaits(s.d, g) { WaitsEffect(s.d, g, waits); }
    case ResumeGateL(r) => if !s.d.holds[s.resumes[r].hold].slot { TakeEffect(s.d, s.resumes[r].hold); }
  }

  lemma CalmHold(s: State, l: Label, h: nat)
    requires Inv(s) && Enabled(s, l) && h < |s.d.holds| && !l.FinishL? && !l.WaitsL? && !l.ResumeGateL?
    ensures h < |Apply(s, l).d.holds| && Apply(s, l).d.holds[h] == HoldAfter(s, l, h)
  {
  }

  /** Every step leaves the hold with that record; a submission adds one more, without a slot. */
  lemma HoldEffect(s: State, l: Label, h: nat)
    requires Inv(s) && Enabled(s, l) && h < |s.d.holds|
    ensures h < |Apply(s, l).d.holds| && Apply(s, l).d.holds[h] == HoldAfter(s, l, h)
  {
    if l.FinishL? || l.WaitsL? || l.ResumeGateL? { BusyHold(s, l, h); } else { CalmHold(s, l, h); }
  }

  lemma NewHoldHasNoSlot(s: State, l: Label, h: nat)
    requires Inv(s) && Enabled(s, l) && |s.d.holds| <= h < |Apply(s, l).d.holds|
    ensures !Apply(s, l).d.holds[h].slot
  {
    match l
    case FinishL(g) => FinishEffect(s.d, g);
    case WaitsL(g, waits) => if TracksWaits(s.d, g) { WaitsEffect(s.d, g, waits); }
    case ResumeGateL(r) => if !s.d.holds[s.resumes[r].hold].slot { TakeEffect(s.d, s.resumes[r].hold); }
    case _ =>
  }

  /** Every step of the dispatcher keeps the invariant. */
  lemma InvStep(s: State, l: Label)
    requires Inv(s) && Enabled(s, l)
    ensures Inv(Apply(s, l))
  {
    match l
    case SubmitL(repo, chain) => StepSubmit(s, repo, chain);
    case CountL(_) => StepRun(s, l);
    case RunPredL(_) => StepRun(s, l);
    case RunGateL(h) => StepRunGate(s, h);
    case NameL(h, id) => StepName(s, h, id);
    case FinishL(h) =>
      FinishEffect(s.d, h);
      FinishStep(s, h, FinishRun(s.d, h));
    case WaitsL(h, waits) =>
      if TracksWaits(s.d, h) {
        assert NameOk(s.d, s.runs, s.d.holds[h].id);
        WaitsEffect(s.d, h, waits);
        WaitsStep(s, h, waits, SetCallWaits(s.d, h, waits), Apply(s, l).resumes, Apply(s, l).owed);
      }
    case EnterL(r) => StepEnter(s, r);
    case ResumePredL(r) => ResumeMoves(s, r, AtGate, s.owed);
    case ResumeGateL(r) =>
      var h := s.resumes[r].hold;
      if !HasRoom(s.d) {
        ResumeMoves(s, r, Asleep, s.owed);
      } else if s.d.holds[h].slot {
        ResumeMoves(s, r, Ended, s.owed + 1);
      } else {
        TakeEffect(s.d, h);
        TakeStep(s, r, h, ReacquireTake(s.d, h), Apply(s, l).owed);
      }
    case LimitL(_) =>
      var e := Apply(s, l).d;
      SamePlacesBatons(s.d, e);
      forall h | 0 <= h < |s.runs| ensures RunOk(e, h, s.runs[h]) { RunFrame(s.d, e, h, s.runs[h]); }
      forall i ensures NameOk(e, s.runs, i) { assert NameOk(s.d, s.runs, i); }
    case DrainL => StepDrain(s, l);
    case DrainGateL(w) => StepDrain(s, l);
    case BroadcastL => StepBroadcast(s);
  }

  /** Every state of every run satisfies the invariant. */
  lemma {:induction false} RunInv(states: seq<State>, labels: seq<Label>, i: nat)
    requires IsRun(states, labels) && i < |states|
    ensures Inv(states[i]) && Wf(states[i])
  {
    if i == 0 {
      var s := states[0];
      assert SlotHolders(s.d.holds) == {} && CountedRuns(s.runs) == {};
    } else {
      RunInv(states, labels, i - 1);
      assert Next(states[i - 1], labels[i - 1], states[i]);
      InvStep(states[i - 1], labels[i - 1]);
    }
    InvWf(states[i]);
  }
}
