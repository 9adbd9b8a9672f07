/** Capacity, progress and leak theorems of the dispatcher, over every run. */
module DispatcherCapacity {
  import opened Options
  import opened Dispatcher
  import opened DispatcherInvariant

  // ---- the slot limit ----

  /** Between two records `active` rises by one at most, and only with room under an unchanged limit. */
  ghost predicate WithinLimit(d: Shared, e: Shared) {
    && e.active <= d.active + 1
    && (e.active > d.active ==> e.limit == d.limit && (d.limit <= 0 || e.active <= d.limit))
  }

  lemma BusyWithinLimit(s: State, l: Label)
    requires Inv(s) && Enabled(s, l) && (l.FinishL? || l.WaitsL? || l.ResumeGateL?)
    ensures WithinLimit(s.d, Apply(s, l).d)
  {
  }

  /** No step raises `active` above a positive limit; a lowered limit is enforced as runs finish. */
  lemma StepRespectsLimit(s: State, l: Label, t: State)
    requires Inv(s) && Next(s, l, t)
    ensures t.d.active <= s.d.active + 1
    ensures t.d.active > s.d.active ==> t.d.limit == s.d.limit && (s.d.limit <= 0 || t.d.active <= s.d.limit)
  {
    if l.FinishL? || l.WaitsL? || l.ResumeGateL? { BusyWithinLimit(s, l); }
  }

  /** In every interleaving `active` is the number of holds with a slot, each counted once. */
  lemma ActiveCountsSlots(states: seq<State>, labels: seq<Label>, i: nat)
    requires IsRun(states, labels) && i < |states|
    ensures states[i].d.active == |SlotHolders(states[i].d.holds)| && |states[i].runs| == |states[i].d.holds|
    ensures forall h :: 0 <= h < |states[i].runs| && states[i].d.holds[h].slot ==> states[i].runs[h].Running?
  {
    RunInv(states, labels, i);
    var s := states[i];
    forall h | 0 <= h < |s.runs| && s.d.holds[h].slot ensures s.runs[h].Running? {
      assert RunOk(s.d, h, s.runs[h]);
    }
  }

  /** With a fixed positive limit, `active` never exceeds it. */
  lemma {:induction false} FixedLimitHolds(states: seq<State>, labels: seq<Label>, limit: int, i: nat)
    requires IsRun(states, labels) && i < |states|
    requires limit > 0 && states[0].d.limit == limit
    requires forall k :: 0 <= k < |labels| && labels[k].LimitL? ==> labels[k].limit == limit
    ensures states[i].d.limit == limit && states[i].d.active <= limit
  {
    if i > 0 {
      FixedLimitHolds(states, labels, limit, i - 1);
      RunInv(states, labels, i - 1);
      assert Next(states[i - 1], labels[i - 1], states[i]);
      StepRespectsLimit(states[i - 1], labels[i - 1], states[i]);
      LimitStays(states[i - 1], labels[i - 1], states[i]);
    }
  }

  lemma LimitStays(s: State, l: Label, t: State)
    requires Next(s, l, t)
    ensures t.d.limit == if l.LimitL? then l.limit else s.d.limit
  {
  }

  // ---- progress ----

  /** A step the dispatcher takes by itself: no new task, name, wait report, limit or return is needed. */
  predicate Internal(l: Label) {
    l.CountL? || l.RunPredL? || l.RunGateL? || l.EnterL? || l.ResumePredL? || l.ResumeGateL? || l.DrainGateL? || l.BroadcastL?
  }

  /** Nothing is executing a task's process. */
  ghost predicate NoneRunning(s: State) {
    forall h :: 0 <= h < |s.runs| ==> !s.runs[h].Running?
  }

  lemma NoneRunningNoSlots(s: State)
    requires Inv(s) && NoneRunning(s)
    ensures s.d.active == 0 && HasRoom(s.d)
  {
    forall h: nat | h < |s.d.holds| ensures !s.d.holds[h].slot { assert RunOk(s.d, h, s.runs[h]); }
    assert SlotHolders(s.d.holds) == {};
  }

  function Rank(pc: PC): (n: nat) {
    match pc
    case Starting => 6
    case Submitting(_) => 6
    case Queued(_) => 5
    case Asleep => 4
    case AtGate => 3
    case Running => 2
    case Ended => 0
  }

  function Ranks(pcs: seq<PC>): (n: nat) {
    if |pcs| == 0 then 0 else Ranks(pcs[..|pcs| - 1]) + Rank(pcs[|pcs| - 1])
  }

  function ResumePcs(resumes: seq<Resume>): (pcs: seq<PC>)
    ensures |pcs| == |resumes| && forall r :: 0 <= r < |resumes| ==> pcs[r] == resumes[r].pc
  {
    seq(|resumes|, r requires 0 <= r < |resumes| => resumes[r].pc)
  }

  /** How much work the goroutines still have ahead of them. */
  function Work(s: State): (n: nat) {
    Ranks(s.runs) + Ranks(ResumePcs(s.resumes)) + Ranks(s.drains) + s.owed
  }

  lemma {:induction false} RanksSet(pcs: seq<PC>, i: nat, pc: PC)
    requires i < |pcs|
    ensures Ranks(pcs[i := pc]) == Ranks(pcs) - Rank(pcs[i]) + Rank(pc)
  {
    var n := |pcs| - 1;
    if i == n {
      assert pcs[i := pc][..n] == pcs[..n];
    } else {
      RanksSet(pcs[..n], i, pc);
      assert pcs[i := pc][..n] == pcs[..n][i := pc];
    }
  }

  lemma {:induction false} RanksWake(pcs: seq<PC>)
    ensures Ranks(WakeAll(pcs)) <= Ranks(pcs)
  {
    if |pcs| > 0 {
      var n := |pcs| - 1;
      RanksWake(pcs[..n]);
      assert WakeAll(pcs)[..n] == WakeAll(pcs[..n]);
    }
  }

  lemma BroadcastWork(s: State)
    requires Enabled(s, BroadcastL)
    ensures Work(Apply(s, BroadcastL)) < Work(s)
  {
    RanksWake(s.runs);
    RanksWake(s.drains);
    RanksWake(ResumePcs(s.resumes));
    assert ResumePcs(WakeResumes(s.resumes)) == WakeAll(ResumePcs(s.resumes));
  }

  lemma RunWork(s: State, t: State, h: nat)
    requires h < |s.runs| == |t.runs| && t.runs == s.runs[h := t.runs[h]] && t.resumes == s.resumes && t.drains == s.drains
    ensures Work(t) == Work(s) - Rank(s.runs[h]) + Rank(t.runs[h]) - s.owed + t.owed
  {
    RanksSet(s.runs, h, t.runs[h]);
  }

  lemma ResumeWork(s: State, t: State, r: nat)
    requires r < |s.resumes| == |t.resumes| && t.resumes == s.resumes[r := s.resumes[r].(pc := t.resumes[r].pc)]
    requires t.runs == s.runs && t.drains == s.drains
    ensures Work(t) == Work(s) - Rank(s.resumes[r].pc) + Rank(t.resumes[r].pc) - s.owed + t.owed
  {
    RanksSet(ResumePcs(s.resumes), r, t.resumes[r].pc);
    assert ResumePcs(t.resumes) == ResumePcs(s.resumes)[r := t.resumes[r].pc];
  }

  /**
   A goroutine before its process has an enabled step, or the one it is queued
   behind has: batons only wait on older batons, so following them ends.
   */
  lemma {:induction false} RunStep(s: State, h: nat) returns (l: Label)
    requires Inv(s) && NoneRunning(s) && h < |s.runs| && !s.runs[h].Ended?
    ensures Enabled(s, l) && Internal(l) && Work(Apply(s, l)) < Work(s)
    decreases if s.runs[h].Queued? then s.runs[h].prev + 1 else 0, 0
  {
    InvWf(s);
    NoneRunningNoSlots(s);
    assert RunOk(s.d, h, s.runs[h]);
    match s.runs[h]
    case Submitting(_) =>
      l := CountL(h);
      RunWork(s, Apply(s, l), h);
    case Queued(p) =>
      if Open(s.d, p) {
        l := BlockerStep(s, p);
      } else {
        l := RunPredL(h);
        RunWork(s, Apply(s, l), h);
      }
    case AtGate =>
      l := RunGateL(h);
      RunWork(s, Apply(s, l), h);
    case Asleep =>
      l := BroadcastL;
      BroadcastWork(s);
  }

  /** The owner of an open baton can be moved along. */
  lemma {:induction false} BlockerStep(s: State, p: nat) returns (l: Label)
    requires Inv(s) && NoneRunning(s) && Open(s.d, p)
    ensures Enabled(s, l) && Internal(l) && Work(Apply(s, l)) < Work(s)
    decreases p, 1
  {
    assert BatonOk(s.d, p);
    var owner := s.d.batons[p].owner;
    assert RunOk(s.d, owner, s.runs[owner]);
    l := RunStep(s, owner);
  }

  /** No deadlock: with tasks pending and none running, the dispatcher can move. */
  lemma Progress(states: seq<State>, labels: seq<Label>, i: nat) returns (l: Label)
    requires IsRun(states, labels) && i < |states|
    requires states[i].d.pending > 0 && NoneRunning(states[i])
    ensures Enabled(states[i], l) && Internal(l)
  {
    RunInv(states, labels, i);
    var s := states[i];
    assert CountedRuns(s.runs) != {};
    var h :| h in CountedRuns(s.runs);
    l := RunStep(s, h);
  }

  /** No lost wake-up: a sleeper that could go on is owed a broadcast. */
  lemma SleepersAreWoken(states: seq<State>, labels: seq<Label>, i: nat)
    requires IsRun(states, labels) && i < |states|
    ensures (RunAsleep(states[i]) && HasRoom(states[i].d)) || (DrainAsleep(states[i]) && states[i].d.pending == 0) ==> states[i].owed > 0
  {
    RunInv(states, labels, i);
  }

  // ---- every reachable state can still drain ----

  /** Every goroutine ended and every broadcast sent. */
  ghost predicate Quiet(s: State) {
    && (forall h :: 0 <= h < |s.runs| ==> s.runs[h].Ended?)
    && (forall r :: 0 <= r < |s.resumes| ==> s.resumes[r].pc.Ended?)
    && (forall w :: 0 <= w < |s.drains| ==> s.drains[w].Ended?)
    && s.owed == 0
  }

  lemma ResumeStep(s: State, r: nat) returns (l: Label)
    requires Inv(s) && NoneRunning(s) && r < |s.resumes| && !s.resumes[r].pc.Ended?
    ensures Enabled(s, l) && Internal(l) && Work(Apply(s, l)) < Work(s)
  {
    InvWf(s);
    NoneRunningNoSlots(s);
    assert ResumeOk(s.runs, s.resumes[r]);
    match s.resumes[r].pc
    case Starting =>
      l := EnterL(r);
      ResumeWork(s, Apply(s, l), r);
    case Queued(p) =>
      if Open(s.d, p) {
        l := BlockerStep(s, p);
      } else {
        l := ResumePredL(r);
        ResumeWork(s, Apply(s, l), r);
      }
    case AtGate =>
      l := ResumeGateL(r);
      ResumeWork(s, Apply(s, l), r);
    case Asleep =>
      l := BroadcastL;
      BroadcastWork(s);
  }

  lemma FinishWork(s: State, h: nat)
    requires Enabled(s, FinishL(h))
    ensures Work(Apply(s, FinishL(h))) < Work(s)
  {
    RunWork(s, Apply(s, FinishL(h)), h);
  }

  lemma DrainWork(s: State, w: nat)
    requires Enabled(s, DrainGateL(w)) && s.d.pending <= 0
    ensures Work(Apply(s, DrainGateL(w))) < Work(s)
  {
    RanksSet(s.drains, w, Ended);
  }

  /** With every run and re-acquire ended and nothing owed, a drain still waiting can see that nothing is pending. */
  lemma DrainStep(s: State) returns (w: nat)
    requires Inv(s) && !Quiet(s) && s.owed == 0
    requires forall h :: 0 <= h < |s.runs| ==> s.runs[h].Ended?
    requires forall r :: 0 <= r < |s.resumes| ==> s.resumes[r].pc.Ended?
    ensures Enabled(s, DrainGateL(w)) && s.d.pending <= 0
  {
    InvWf(s);
    assert CountedRuns(s.runs) == {};
    w :| 0 <= w < |s.drains| && !s.drains[w].Ended?;
  }

  /** An unfinished state has a step of the dispatcher, or a returning process, that leaves less work. */
  lemma WorkingStep(s: State) returns (l: Label)
    requires Inv(s) && !Quiet(s)
    ensures Enabled(s, l) && (Internal(l) || l.FinishL?) && Work(Apply(s, l)) < Work(s)
  {
    InvWf(s);
    if h :| 0 <= h < |s.runs| && s.runs[h].Running? {
      l := FinishL(h);
      FinishWork(s, h);
    } else if h :| 0 <= h < |s.runs| && !s.runs[h].Ended? {
      l := RunStep(s, h);
    } else if r :| 0 <= r < |s.resumes| && !s.resumes[r].pc.Ended? {
      l := ResumeStep(s, r);
    } else if s.owed > 0 {
      l := BroadcastL;
      BroadcastWork(s);
    } else {
      var w := DrainStep(s);
      l := DrainGateL(w);
      DrainWork(s, w);
    }
  }

  lemma ShrinkingStep(s: State) returns (l: Label, t: State)
    requires Inv(s) && !Quiet(s)
    ensures Next(s, l, t) && Inv(t) && (Internal(l) || l.FinishL?) && Work(t) < Work(s)
  {
    l := WorkingStep(s);
    t := Apply(s, l);
    InvStep(s, l);
  }

  ghost predicate IsPath(states: seq<State>, labels: seq<Label>) {
    && |states| == |labels| + 1
    && forall i :: 0 <= i < |labels| ==> Next(states[i], labels[i], states[i + 1])
  }

  /** A path of steps of the dispatcher and returning processes that ends quiet. */
  ghost predicate Drains(s: State, states: seq<State>, labels: seq<Label>) {
    && IsPath(states, labels) && states[0] == s
    && (forall i :: 0 <= i < |labels| ==> Internal(labels[i]) || labels[i].FinishL?)
    && Quiet(states[|labels|]) && Inv(states[|labels|])
  }

  lemma DrainsCons(s: State, l: Label, t: State, states: seq<State>, labels: seq<Label>)
    requires Drains(t, states, labels) && Next(s, l, t) && (Internal(l) || l.FinishL?)
    ensures Drains(s, [s] + states, [l] + labels)
  {
    var ss, ls := [s] + states, [l] + labels;
    forall i | 0 <= i < |ls| ensures Next(ss[i], ls[i], ss[i + 1]) {
      if i > 0 { assert Next(states[i - 1], labels[i - 1], states[i]); }
    }
  }

  /** From every invariant state the dispatcher drains once the running processes return, with no other input. */
  lemma {:induction false} CanDrain(s: State) returns (states: seq<State>, labels: seq<Label>)
    requires Inv(s)
    ensures Drains(s, states, labels)
    decreases Work(s)
  {
    if Quiet(s) {
      states, labels := [s], [];
    } else {
      var l, t := ShrinkingStep(s);
      var rest, ls := CanDrain(t);
      DrainsCons(s, l, t, rest, ls);
      states, labels := [s] + rest, [l] + ls;
    }
  }

  // ---- no leak ----

  /** At every point of every run: no baton is closed twice, and a finished hold keeps nothing. */
  lemma NothingLeaks(states: seq<State>, labels: seq<Label>, i: nat)
    requires IsRun(states, labels) && i < |states|
    ensures var s := states[i];
            && (forall b :: 0 <= b < |s.d.batons| ==> s.d.batons[b].closes <= 1)
            && (forall h :: 0 <= h < |s.d.holds| && s.d.holds[h].finished ==>
                  !s.d.holds[h].slot && s.d.holds[h].baton.None? && h !in s.d.named.Values)
            && (forall repo :: repo in s.d.repoTail ==>
                  var b := s.d.repoTail[repo];
                  && Open(s.d, b) && s.d.batons[b].owner < |s.d.holds|
                  && var x := s.d.holds[s.d.batons[b].owner];
                     x.baton == Some(b) && !x.finished && x.chain && x.repo == repo)
  {
    RunInv(states, labels, i);
    var s := states[i];
    forall b | 0 <= b < |s.d.batons| ensures s.d.batons[b].closes <= 1 { assert BatonOk(s.d, b); }
    forall h | 0 <= h < |s.d.holds| && s.d.holds[h].finished
      ensures !s.d.holds[h].slot && s.d.holds[h].baton.None? && h !in s.d.named.Values
    {
      assert RunOk(s.d, h, s.runs[h]);
      forall id | id in s.d.named ensures s.d.named[id] != h { assert NameOk(s.d, s.runs, id); }
    }
    forall repo | repo in s.d.repoTail
      ensures var b := s.d.repoTail[repo];
              && Open(s.d, b) && s.d.batons[b].owner < |s.d.holds|
              && var x := s.d.holds[s.d.batons[b].owner];
                 x.baton == Some(b) && !x.finished && x.chain && x.repo == repo
    {
      assert TailOk(s.d, repo);
      var b := s.d.repoTail[repo];
      assert BatonOk(s.d, b);
      var h := s.d.batons[b].owner;
      assert PlaceOk(s.d, h);
      assert RunOk(s.d, h, s.runs[h]);
    }
  }

  /** Once every run ended, nothing is left, even with re-acquires still in flight. */
  lemma AllEndedIsEmpty(s: State)
    requires Inv(s)
    requires forall h :: 0 <= h < |s.runs| ==> s.runs[h].Ended?
    ensures s.d.active == 0 && s.d.pending == 0
    ensures s.d.repoTail == map[] && s.d.named == map[]
    ensures forall b :: 0 <= b < |s.d.batons| ==> s.d.batons[b].closes == 1
  {
    NoneRunningNoSlots(s);
    assert CountedRuns(s.runs) == {};
    forall b | 0 <= b < |s.d.batons| ensures s.d.batons[b].closes == 1 {
      assert BatonOk(s.d, b);
      assert RunOk(s.d, s.d.batons[b].owner, s.runs[s.d.batons[b].owner]);
    }
    forall repo ensures repo !in s.d.repoTail { assert TailOk(s.d, repo); }
    forall id ensures id !in s.d.named { assert NameOk(s.d, s.runs, id); }
  }

  /**
   Why a process names its hold once: finishRun removes one name, so a hold
   leaves an entry behind exactly when it was already named differently.
   */
  lemma SecondNameLeaks(d: Shared, h: nat, id: int)
    requires h < |d.holds| && id != 0
    requires d.holds[h].baton.Some? ==> d.holds[h].baton.value < |d.batons|
    ensures var left := FinishRun(Name(d, h, id), h).named;
            (exists other :: other in left && left[other] == h) <==> exists other :: other in d.named && other != id && d.named[other] == h
  {
    var left := FinishRun(Name(d, h, id), h).named;
    assert left == d.named[id := h] - {id};
    forall other ensures (other in left && left[other] == h) <==> (other in d.named && other != id && d.named[other] == h) {
    }
  }
}
