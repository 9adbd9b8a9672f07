/**
 When a completed answer is final. A turn answered from an earlier reply is saved
 as completed without an assistant message of its own; if that save is applied
 but reported as failed, failTurn turns the record back. This module proves
 exactly which completed answers can still be lost that way.
 */
module TurnReplays {
  import opened Options
  import opened Turns
  import opened TurnFencing

  /** The status of a live runner's copy follows from where it is. */
  ghost predicate StatusOk(x: Runner) {
    match x.pc
    case Claiming => true
    case SavingReplay => x.turn.status.Completed?
    case SavingReply => x.turn.status.Completed?
    case Failing => x.turn.status.Failed? || x.turn.status.Cancelled?
    case Finished => true
    case Crashed => true
    case _ => x.turn.status.Running?
  }

  /** The runner holds the turn's current attempt. */
  ghost predicate Holds(ledger: Ledger, x: Runner, id: string) {
    x.turnId == id && id in ledger && x.won == Some(ledger[id].attempt)
  }

  /** Whoever holds the attempt of a completed record is over, or is failing it. */
  ghost predicate DoneOk(ledger: Ledger, x: Runner) {
    Holds(ledger, x, x.turnId) && ledger[x.turnId].status.Completed? ==>
      !Live(x.pc) || (x.pc.Failing? && x.turn.assistant == ledger[x.turnId].assistant)
  }

  ghost predicate ReplayOk(ledger: Ledger, x: Runner) { StatusOk(x) && DoneOk(ledger, x) }

  ghost predicate ReplayInv(s: State) {
    Inv(s) && forall i :: 0 <= i < |s.runners| ==> ReplayOk(s.ledger, s.runners[i])
  }

  // ---- every step keeps it ----

  /** Runners that do not move are kept by a ledger that completes nothing new under them. */
  lemma StillOk(a: Ledger, b: Ledger, x: Runner)
    requires ReplayOk(a, x)
    requires Holds(b, x, x.turnId) && b[x.turnId].status.Completed? ==>
               Holds(a, x, x.turnId) && a[x.turnId].status.Completed? && a[x.turnId].assistant == b[x.turnId].assistant
    ensures ReplayOk(b, x)
  {
  }

  lemma ClaimKeeps(s: State, r: nat, i: nat)
    requires ReplayInv(s) && Enabled(s, ClaimL(r)) && i < |s.runners|
    ensures var t := Apply(s, ClaimL(r)); ReplayOk(t.ledger, t.runners[i])
  {
    var x := s.runners[i];
    assert RunnerOk(s.ledger, x) && ReplayOk(s.ledger, x) && RunnerOk(s.ledger, s.runners[r]);
    if i != r { StillOk2(s, r, i); }
  }

  /** A claim completes a record only when it names its message, and then its holder is over or failing. */
  lemma StillOk2(s: State, r: nat, i: nat)
    requires ReplayInv(s) && Enabled(s, ClaimL(r)) && i < |s.runners| && i != r
    ensures ReplayOk(Apply(s, ClaimL(r)).ledger, s.runners[i])
  {
    var x := s.runners[i];
    assert RunnerOk(s.ledger, x) && ReplayOk(s.ledger, x);
  }

  lemma SaveKeeps(s: State, l: Label, i: nat)
    requires ReplayInv(s) && Enabled(s, l) && l.SaveL? && i < |s.runners|
    ensures var t := Apply(s, l); ReplayOk(t.ledger, t.runners[i])
  {
    var x, y := s.runners[i], s.runners[l.r];
    assert RunnerOk(s.ledger, x) && ReplayOk(s.ledger, x) && RunnerOk(s.ledger, y) && ReplayOk(s.ledger, y);
    if i != l.r && x.turnId == y.turnId && x.won.Some? && y.won.Some? { assert x.won != y.won; }
  }

  lemma LocalKeeps(s: State, l: Label, i: nat)
    requires ReplayInv(s) && Enabled(s, l) && i < |s.runners|
    requires !l.Deliver? && !l.RecoverL? && !l.ClaimL? && !l.SaveL?
    ensures var t := Apply(s, l); i < |t.runners| && ReplayOk(t.ledger, t.runners[i])
  {
    assert RunnerOk(s.ledger, s.runners[i]) && ReplayOk(s.ledger, s.runners[i]);
  }

  lemma RecoverKeeps(s: State, owner: string, i: nat)
    requires ReplayInv(s) && Enabled(s, RecoverL(owner)) && i < |s.runners|
    ensures ReplayOk(Recover(s.ledger, owner), s.runners[i])
  {
    assert ReplayOk(s.ledger, s.runners[i]);
    StillOk(s.ledger, Recover(s.ledger, owner), s.runners[i]);
  }

  lemma ReplayStep(s: State, l: Label)
    requires ReplayInv(s) && Enabled(s, l)
    ensures ReplayInv(Apply(s, l))
  {
    InvStep(s, l);
    var t := Apply(s, l);
    forall i | 0 <= i < |t.runners| ensures ReplayOk(t.ledger, t.runners[i]) {
      match l
      case Deliver(_, _, _, _) => if i < |s.runners| { assert ReplayOk(s.ledger, s.runners[i]); }
      case RecoverL(owner) => RecoverKeeps(s, owner, i);
      case ClaimL(r) => ClaimKeeps(s, r, i);
      case SaveL(_, _, _) => SaveKeeps(s, l, i);
      case _ => LocalKeeps(s, l, i);
    }
  }

  lemma {:induction false} RunReplayInv(states: seq<State>, labels: seq<Label>, i: nat)
    requires IsRun(states, labels) && i < |states|
    ensures ReplayInv(states[i])
  {
    if i > 0 {
      RunReplayInv(states, labels, i - 1);
      assert Next(states[i - 1], labels[i - 1], states[i]);
      ReplayStep(states[i - 1], labels[i - 1]);
    }
  }

  // ---- what can still be lost ----

  /** A runner that is failing the turn's current attempt. */
  ghost predicate FailsTurn(s: State, id: string, r: nat) {
    r < |s.runners| && s.runners[r].pc.Failing? && Holds(s.ledger, s.runners[r], id)
  }

  ghost predicate Unfailing(s: State, id: string) {
    forall r: nat :: !FailsTurn(s, id, r)
  }

  /** A claim of the turn answers it as completed with this text. */
  predicate AnswersWith(ledger: Ledger, id: string, text: string) {
    id in ledger && ClaimAnswer(ledger, id) == Answered && ledger[id].response == text
  }

  /** A completed record that nobody is failing does not change. */
  lemma UnfailingStep(s: State, l: Label, id: string)
    requires ReplayInv(s) && Enabled(s, l) && id in s.ledger && s.ledger[id].status.Completed? && Unfailing(s, id)
    ensures var t := Apply(s, l); id in t.ledger && t.ledger[id] == s.ledger[id]
  {
    if l.SaveL? {
      assert RunnerOk(s.ledger, s.runners[l.r]) && ReplayOk(s.ledger, s.runners[l.r]);
      assert !FailsTurn(s, id, l.r);
    }
  }

  lemma UnfailingKept(s: State, l: Label, id: string)
    requires ReplayInv(s) && Enabled(s, l) && id in s.ledger && s.ledger[id].status.Completed? && Unfailing(s, id)
    ensures Unfailing(Apply(s, l), id)
  {
    UnfailingStep(s, l, id);
    var t := Apply(s, l);
    forall r: nat ensures !FailsTurn(t, id, r) {
      assert !FailsTurn(s, id, r);
      if r < |s.runners| { NoNewFailure(s, l, id, r); }
    }
  }

  /** The holder of a completed record that is not failing it is over, and stays so. */
  lemma NoNewFailure(s: State, l: Label, id: string, r: nat)
    requires ReplayInv(s) && Enabled(s, l) && id in s.ledger && s.ledger[id].status.Completed? && r < |s.runners| && !FailsTurn(s, id, r)
    requires id in Apply(s, l).ledger && Apply(s, l).ledger[id] == s.ledger[id]
    ensures !FailsTurn(Apply(s, l), id, r)
  {
    assert RunnerOk(s.ledger, s.runners[r]) && ReplayOk(s.ledger, s.runners[r]);
  }

  /** A run that goes on from a state. */
  ghost predicate GoesOn(s: State, states: seq<State>, labels: seq<Label>) {
    && |states| == |labels| + 1 && states[0] == s
    && forall i :: 0 <= i < |labels| ==> Next(states[i], labels[i], states[i + 1])
  }

  /** However the run goes on, the turn is answered with this text. */
  ghost predicate AnswersForEver(s: State, id: string, text: string) {
    forall states: seq<State>, labels: seq<Label> :: GoesOn(s, states, labels) ==> AnswersWith(states[|labels|].ledger, id, text)
  }

  lemma {:induction false} UnfailingForEver(s: State, states: seq<State>, labels: seq<Label>, id: string, i: nat)
    requires ReplayInv(s) && GoesOn(s, states, labels) && i < |states|
    requires id in s.ledger && s.ledger[id].status.Completed? && Unfailing(s, id)
    ensures ReplayInv(states[i]) && Unfailing(states[i], id) && id in states[i].ledger && states[i].ledger[id] == s.ledger[id]
  {
    if i > 0 {
      UnfailingForEver(s, states, labels, id, i - 1);
      assert Next(states[i - 1], labels[i - 1], states[i]);
      UnfailingStep(states[i - 1], labels[i - 1], id);
      UnfailingKept(states[i - 1], labels[i - 1], id);
      ReplayStep(states[i - 1], labels[i - 1]);
    }
  }

  lemma {:induction false} NamedForEver(s: State, states: seq<State>, labels: seq<Label>, id: string, i: nat)
    requires ReplayInv(s) && GoesOn(s, states, labels) && i < |states| && id in s.ledger && s.ledger[id].assistant != ""
    ensures ReplayInv(states[i]) && id in states[i].ledger && RecordAdvances(s.ledger[id], states[i].ledger[id])
  {
    if i > 0 {
      NamedForEver(s, states, labels, id, i - 1);
      assert Next(states[i - 1], labels[i - 1], states[i]);
      InvStep(states[i - 1], labels[i - 1]);
      assert RecordAdvances(states[i - 1].ledger[id], states[i].ledger[id]);
      ReplayStep(states[i - 1], labels[i - 1]);
    }
  }

  /** failTurn's save takes the answer of a replay back: the next claim is granted a new attempt. */
  lemma FailureReopens(s: State, id: string, r: nat)
    requires ReplayInv(s) && FailsTurn(s, id, r) && s.ledger[id].status.Completed? && s.ledger[id].assistant == ""
    ensures Enabled(s, SaveL(r, Done, false)) && ClaimAnswer(Apply(s, SaveL(r, Done, false)).ledger, id) == Owned
  {
    assert RunnerOk(s.ledger, s.runners[r]) && ReplayOk(s.ledger, s.runners[r]);
  }

  /** A completed answer is final if and only if the record names its message or nobody is failing the attempt. */
  lemma CompletedFinalIff(s: State, id: string)
    requires ReplayInv(s) && id in s.ledger && s.ledger[id].status.Completed?
    ensures AnswersForEver(s, id, s.ledger[id].response) <==> s.ledger[id].assistant != "" || Unfailing(s, id)
  {
    if s.ledger[id].assistant != "" || Unfailing(s, id) {
      forall states: seq<State>, labels: seq<Label> | GoesOn(s, states, labels)
        ensures AnswersWith(states[|labels|].ledger, id, s.ledger[id].response)
      {
        StaysAnswered(s, states, labels, id);
      }
    } else {
      var r: nat :| FailsTurn(s, id, r);
      FailureReopens(s, id, r);
      var l := SaveL(r, Done, false);
      assert GoesOn(s, [s, Apply(s, l)], [l]);
      assert !AnswersWith([s, Apply(s, l)][|[l]|].ledger, id, s.ledger[id].response);
    }
  }

  lemma StaysAnswered(s: State, states: seq<State>, labels: seq<Label>, id: string)
    requires ReplayInv(s) && id in s.ledger && s.ledger[id].status.Completed? && GoesOn(s, states, labels)
    requires s.ledger[id].assistant != "" || Unfailing(s, id)
    ensures AnswersWith(states[|labels|].ledger, id, s.ledger[id].response)
  {
    if s.ledger[id].assistant != "" {
      NamedForEver(s, states, labels, id, |labels|);
      assert RecordOk(states[|labels|].ledger[id]);
    } else {
      UnfailingForEver(s, states, labels, id, |labels|);
    }
  }

  /** Over every run: from any point on, a completed answer is final exactly under that condition. */
  lemma RunCompletedFinalIff(states: seq<State>, labels: seq<Label>, i: nat, id: string)
    requires IsRun(states, labels) && i < |states| && id in states[i].ledger && states[i].ledger[id].status.Completed?
    ensures AnswersForEver(states[i], id, states[i].ledger[id].response)
            <==> states[i].ledger[id].assistant != "" || Unfailing(states[i], id)
  {
    RunReplayInv(states, labels, i);
    CompletedFinalIff(states[i], id);
  }

  /** There is a run that ends with a completed answer that can still be lost: a replay whose save was applied and reported as failed. */
  lemma ReplayCanBeLost(id: string, owner: string, text: string) returns (states: seq<State>, labels: seq<Label>)
    requires id != "" && text != ""
    ensures IsRun(states, labels)
    ensures var t := states[|labels|];
            AnswersWith(t.ledger, id, text) && !AnswersForEver(t, id, text)
  {
    var s0 := State(map[], []);
    var deliver := Deliver(id, "s", "m", owner);
    var turn := Turn("s", "m", Running, 1, owner, "", "", "", "");
    var s1, s2 := ClaimedOnce(id, owner, s0, deliver, turn);
    var s3, s4, s5 := ReplayedOnce(id, text, turn, s2);
    states := [s0, s1, s2, s3, s4, s5];
    labels := [deliver, ClaimL(0), HistoryL(0, true, false), PriorL(0, text), SaveL(0, AppliedButFailed, false)];
    RunCompletedFinalIff(states, labels, 5, id);
  }

  /** A delivered turn is claimed. */
  lemma ClaimedOnce(id: string, owner: string, s0: State, deliver: Label, turn: Turn) returns (s1: State, s2: State)
    requires id != "" && s0 == State(map[], []) && deliver == Deliver(id, "s", "m", owner)
    requires turn == Turn("s", "m", Running, 1, owner, "", "", "", "")
    ensures Next(s0, deliver, s1) && Next(s1, ClaimL(0), s2)
    ensures s2 == State(map[id := turn], [Runner(id, turn, Some(1), "", LoadingHistory)])
  {
    s1 := Apply(s0, deliver);
    assert s1.runners == [Runner(id, Turn("s", "m", Accepted, 0, owner, "", "", "", ""), None, "", Claiming)];
    s2 := Apply(s1, ClaimL(0));
  }

  /** It is answered from an earlier reply, and the save of that answer is applied and reported as failed. */
  lemma ReplayedOnce(id: string, text: string, turn: Turn, s2: State) returns (s3: State, s4: State, s5: State)
    requires text != "" && turn.attempt == 1 && turn.assistant == "" && s2 == State(map[id := turn], [Runner(id, turn, Some(1), "", LoadingHistory)])
    ensures Next(s2, HistoryL(0, true, false), s3) && Next(s3, PriorL(0, text), s4) && Next(s4, SaveL(0, AppliedButFailed, false), s5)
    ensures AnswersWith(s5.ledger, id, text) && s5.ledger[id].assistant == "" && s5.ledger[id].status.Completed? && FailsTurn(s5, id, 0)
  {
    s3 := Apply(s2, HistoryL(0, true, false));
    s4 := Apply(s3, PriorL(0, text));
    var done := turn.(status := Completed, response := text, error := "");
    assert s4 == State(map[id := turn], [Runner(id, done, Some(1), "", SavingReplay)]);
    s5 := Apply(s4, SaveL(0, AppliedButFailed, false));
    assert s5.ledger == map[id := done];
  }
}
