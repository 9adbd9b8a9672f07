/**
 The task dispatcher of the daemon: a global slot limit that may be resized
 live, one baton chain per repository, and capacity that a run gives back while
 it waits on a callee and takes again afterwards.

 `Shared` is what the dispatcher's mutex guards, with one function per critical
 section. `State` adds the goroutines, each with a program counter, and the
 broadcasts that are owed: every broadcast in the source follows the unlock, so
 it is a step of its own.
 */
module Dispatcher {
  import opened Options

  /** A place in a repository's chain: a channel closed when the place is given up. */
  datatype Baton = Baton(repo: string, owner: nat, prev: Option<nat>, closes: nat)

  /** One submitted task's claim on capacity. An id of zero names nothing. */
  datatype Hold = Hold(repo: string, chain: bool, baton: Option<nat>, slot: bool, waits: nat, finished: bool, id: int)

  datatype Shared = Shared(
    limit: int, active: int, pending: int,
    repoTail: map<string, nat>, named: map<int, nat>,
    holds: seq<Hold>, batons: seq<Baton>)

  predicate Open(d: Shared, b: nat) {
    b < |d.batons| && d.batons[b].closes == 0
  }

  function UpdateHold(d: Shared, h: nat, hold: Hold): (r: Shared)
    requires h < |d.holds|
  {
    d.(holds := d.holds[h := hold])
  }

  /** joinRepoLocked: a new baton for hold `h` at the tail of its repository's chain. */
  function Join(d: Shared, h: nat): (r: Shared)
    requires h < |d.holds|
  {
    var repo := d.holds[h].repo;
    var prev := if repo in d.repoTail then Some(d.repoTail[repo]) else None;
    d.(batons := d.batons + [Baton(repo, h, prev, 0)],
       repoTail := d.repoTail[repo := |d.batons|],
       holds := d.holds[h := d.holds[h].(baton := Some(|d.batons|))])
  }

  predicate HasRoom(d: Shared) {
    d.limit <= 0 || d.active < d.limit
  }

  /** The slot half of giveBackLocked. */
  function GiveSlot(d: Shared, h: nat): (r: Shared)
    requires h < |d.holds|
  {
    if d.holds[h].slot
    then d.(active := d.active - 1, holds := d.holds[h := d.holds[h].(slot := false)])
    else d
  }

  /** The place half of giveBackLocked: close the baton, and drop it from the tail if it is the tail. */
  function GivePlace(d: Shared, h: nat): (r: Shared)
    requires h < |d.holds|
    requires d.holds[h].baton.Some? ==> d.holds[h].baton.value < |d.batons|
  {
    match d.holds[h].baton
    case None => d
    case Some(b) =>
      var repo := d.holds[h].repo;
      d.(batons := d.batons[b := d.batons[b].(closes := d.batons[b].closes + 1)],
         repoTail := if repo in d.repoTail && d.repoTail[repo] == b then d.repoTail - {repo} else d.repoTail,
         holds := d.holds[h := d.holds[h].(baton := None)])
  }

  /** giveBackLocked. */
  function GiveBack(d: Shared, h: nat): (r: Shared)
    requires h < |d.holds|
    requires d.holds[h].baton.Some? ==> d.holds[h].baton.value < |d.batons|
  {
    GivePlace(GiveSlot(d, h), h)
  }

  /** The first half of Submit: the hold, already queued behind its repository's tail when it is chained. */
  function SubmitJoin(d: Shared, repo: string, chain: bool): (r: Shared) {
    var h := |d.holds|;
    var d1 := d.(holds := d.holds + [Hold(repo, chain, None, false, 0, false, 0)]);
    if chain then Join(d1, h) else d1
  }

  /** The baton the newest submission is queued behind. */
  function SubmitPrev(d: Shared, repo: string, chain: bool): (r: Option<nat>) {
    if chain && repo in d.repoTail then Some(d.repoTail[repo]) else None
  }

  /** name. */
  function Name(d: Shared, h: nat, id: int): (r: Shared)
    requires h < |d.holds|
  {
    if id == 0 then d
    else d.(named := d.named[id := h], holds := d.holds[h := d.holds[h].(id := id)])
  }

  /** finishRun. */
  function FinishRun(d: Shared, h: nat): (r: Shared)
    requires h < |d.holds|
    requires d.holds[h].baton.Some? ==> d.holds[h].baton.value < |d.batons|
  {
    var d1 := UpdateHold(d, h, d.holds[h].(finished := true));
    var id := d.holds[h].id;
    var d2 := if id != 0 && id in d1.named && d1.named[id] == h then d1.(named := d1.named - {id}) else d1;
    var d3 := GiveBack(d2, h);
    d3.(pending := d3.pending - 1)
  }

  /** The guard of setCallWaits. */
  predicate TracksWaits(d: Shared, h: nat)
    requires h < |d.holds|
  {
    d.holds[h].id in d.named && d.named[d.holds[h].id] == h && !d.holds[h].finished
  }

  /** setCallWaits. */
  function SetCallWaits(d: Shared, h: nat, waits: nat): (r: Shared)
    requires h < |d.holds|
    requires d.holds[h].baton.Some? ==> d.holds[h].baton.value < |d.batons|
  {
    if !TracksWaits(d, h) then d
    else
      var d1 := UpdateHold(d, h, d.holds[h].(waits := waits));
      if waits > 0 then GiveBack(d1, h) else d1
  }

  /** reacquire gives up at once: the run returned or is waiting again. */
  predicate NotNeeded(d: Shared, h: nat)
    requires h < |d.holds|
  {
    d.holds[h].finished || d.holds[h].waits > 0
  }

  /** reacquire joins the chain: no other re-acquire has queued the run's one place. */
  predicate NeedsPlace(d: Shared, h: nat)
    requires h < |d.holds|
  {
    d.holds[h].chain && d.holds[h].baton.None?
  }

  /** The second critical section of reacquire, once the limit has room. */
  function ReacquireTake(d: Shared, h: nat): (r: Shared)
    requires h < |d.holds|
    requires d.holds[h].baton.Some? ==> d.holds[h].baton.value < |d.batons|
  {
    if d.holds[h].slot then d
    else
      var d1 := d.(active := d.active + 1, holds := d.holds[h := d.holds[h].(slot := true)]);
      if NotNeeded(d, h) then GiveBack(d1, h) else d1
  }

  // ---- goroutines ----

  /**
   Where a goroutine is. `Submitting` is a submitter between joining the chain
   and counting itself pending; `Queued` waits for a baton to close; `AtGate`
   is about to lock and test its wait condition; `Asleep` is on the condition
   variable.
   */
  datatype PC = Starting | Submitting(ahead: Option<nat>) | Queued(prev: nat) | AtGate | Asleep | Running | Ended

  datatype Resume = Resume(hold: nat, pc: PC)

  /** `runs[h]` is the goroutine of hold `h`; `owed` counts broadcasts not yet sent. */
  datatype State = State(d: Shared, runs: seq<PC>, resumes: seq<Resume>, drains: seq<PC>, owed: nat)

  datatype Label =
    | SubmitL(repo: string, chain: bool)
    | CountL(h: nat)
    | RunPredL(h: nat)
    | RunGateL(h: nat)
    | NameL(h: nat, id: int)
    | FinishL(h: nat)
    | WaitsL(h: nat, waits: nat)
    | EnterL(r: nat)
    | ResumePredL(r: nat)
    | ResumeGateL(r: nat)
    | LimitL(limit: int)
    | DrainL
    | DrainGateL(w: nat)
    | BroadcastL

  function Init(limit: int): (s: State) {
    State(Shared(limit, 0, 0, map[], map[], [], []), [], [], [], 0)
  }

  /** Every stored baton index exists, so the critical sections are defined. */
  predicate Wf(s: State) {
    && |s.runs| == |s.d.holds|
    && (forall h :: 0 <= h < |s.d.holds| && s.d.holds[h].baton.Some? ==> s.d.holds[h].baton.value < |s.d.batons|)
    && (forall r :: 0 <= r < |s.resumes| ==> s.resumes[r].hold < |s.d.holds|)
  }

  predicate Enabled(s: State, l: Label) {
    && Wf(s)
    && match l
       case SubmitL(_, _) => true
       case CountL(h) => h < |s.runs| && s.runs[h].Submitting?
       case RunPredL(h) => h < |s.runs| && s.runs[h].Queued? && !Open(s.d, s.runs[h].prev)
       case RunGateL(h) => h < |s.runs| && s.runs[h].AtGate?
       // The process names its hold once, when it learns the task's id.
       case NameL(h, id) => h < |s.runs| && s.runs[h].Running? && (s.d.holds[h].id == 0 || s.d.holds[h].id == id)
       case FinishL(h) => h < |s.runs| && s.runs[h].Running?
       case WaitsL(h, _) => h < |s.runs|
       case EnterL(r) => r < |s.resumes| && s.resumes[r].pc.Starting?
       case ResumePredL(r) => r < |s.resumes| && s.resumes[r].pc.Queued? && !Open(s.d, s.resumes[r].pc.prev)
       case ResumeGateL(r) => r < |s.resumes| && s.resumes[r].pc.AtGate?
       case LimitL(_) => true
       case DrainL => true
       case DrainGateL(w) => w < |s.drains| && s.drains[w].AtGate?
       case BroadcastL => s.owed > 0
  }

  function Wake(pc: PC): (r: PC) { if pc.Asleep? then AtGate else pc }

  function WakeAll(pcs: seq<PC>): (r: seq<PC>)
    ensures |r| == |pcs|
    ensures forall i :: 0 <= i < |pcs| ==> r[i] == Wake(pcs[i])
  {
    seq(|pcs|, i requires 0 <= i < |pcs| => Wake(pcs[i]))
  }

  function WakeResumes(rs: seq<Resume>): (r: seq<Resume>)
    ensures |r| == |rs|
    ensures forall i :: 0 <= i < |rs| ==> r[i] == rs[i].(pc := Wake(rs[i].pc))
  {
    seq(|rs|, i requires 0 <= i < |rs| => rs[i].(pc := Wake(rs[i].pc)))
  }

  function AfterJoin(prev: Option<nat>): (pc: PC) {
    match prev case None => AtGate case Some(p) => Queued(p)
  }

  function SetResume(s: State, r: nat, pc: PC): (t: State)
    requires r < |s.resumes|
  {
    s.(resumes := s.resumes[r := s.resumes[r].(pc := pc)])
  }

  function RunGate(s: State, h: nat): (t: State)
    requires Wf(s) && h < |s.runs|
  {
    if HasRoom(s.d)
    then s.(d := s.d.(active := s.d.active + 1, holds := s.d.holds[h := s.d.holds[h].(slot := true)]),
            runs := s.runs[h := Running])
    else s.(runs := s.runs[h := Asleep])
  }

  function Enter(s: State, r: nat): (t: State)
    requires Wf(s) && r < |s.resumes|
  {
    var h := s.resumes[r].hold;
    if NotNeeded(s.d, h) then SetResume(s, r, Ended)
    else if NeedsPlace(s.d, h) then
      var d1 := Join(s.d, h);
      SetResume(s.(d := d1), r, AfterJoin(d1.batons[|s.d.batons|].prev))
    else SetResume(s, r, AtGate)
  }

  function ResumeGate(s: State, r: nat): (t: State)
    requires Wf(s) && r < |s.resumes|
  {
    var h := s.resumes[r].hold;
    if !HasRoom(s.d) then SetResume(s, r, Asleep)
    else
      var broadcasts := if s.d.holds[h].slot || NotNeeded(s.d, h) then 1 else 0;
      SetResume(s.(d := ReacquireTake(s.d, h), owed := s.owed + broadcasts), r, Ended)
  }

  function Waits(s: State, h: nat, waits: nat): (t: State)
    requires Wf(s) && h < |s.runs|
  {
    var s1 := s.(d := SetCallWaits(s.d, h, waits));
    if !TracksWaits(s.d, h) then s
    else if waits > 0 then s1.(owed := s.owed + 1)
    else if s.d.holds[h].waits > 0 then s1.(resumes := s.resumes + [Resume(h, Starting)])
    else s1
  }

  function DrainGate(s: State, w: nat): (t: State)
    requires w < |s.drains|
  {
    s.(drains := s.drains[w := if s.d.pending > 0 then Asleep else Ended])
  }

  function Apply(s: State, l: Label): (t: State)
    requires Enabled(s, l)
  {
    match l
    case SubmitL(repo, chain) =>
      s.(d := SubmitJoin(s.d, repo, chain), runs := s.runs + [Submitting(SubmitPrev(s.d, repo, chain))])
    case CountL(h) =>
      s.(d := s.d.(pending := s.d.pending + 1), runs := s.runs[h := AfterJoin(s.runs[h].ahead)])
    case RunPredL(h) => s.(runs := s.runs[h := AtGate])
    case RunGateL(h) => RunGate(s, h)
    case NameL(h, id) => s.(d := Name(s.d, h, id))
    case FinishL(h) => s.(d := FinishRun(s.d, h), runs := s.runs[h := Ended], owed := s.owed + 1)
    case WaitsL(h, waits) => Waits(s, h, waits)
    case EnterL(r) => Enter(s, r)
    case ResumePredL(r) => SetResume(s, r, AtGate)
    case ResumeGateL(r) => ResumeGate(s, r)
    case LimitL(limit) => s.(d := s.d.(limit := limit), owed := s.owed + 1)
    case DrainL => s.(drains := s.drains + [AtGate])
    case DrainGateL(w) => DrainGate(s, w)
    case BroadcastL => s.(runs := WakeAll(s.runs), resumes := WakeResumes(s.resumes), drains := WakeAll(s.drains), owed := s.owed - 1)
  }

  predicate Next(s: State, l: Label, t: State) {
    Enabled(s, l) && t == Apply(s, l)
  }

  /** A run of the dispatcher from an empty start with some limit. */
  predicate IsRun(states: seq<State>, labels: seq<Label>) {
    && |states| == |labels| + 1
    && states[0] == Init(states[0].d.limit)
    && forall i :: 0 <= i < |labels| ==> Next(states[i], labels[i], states[i + 1])
  }
}
