/** Fencing and replay of chat turns, over every interleaving of runners, crashes and recoveries. */
module TurnFencing {
  import opened Options
  import opened Turns

  /** The copy of a runner that can still save agrees with what the record can no longer lose. */
  ghost predicate CopyOk(record: Turn, x: Runner) {
    match x.pc
    case Finished => true
    case Crashed => true
    case Failing => record.assistant != "" ==> x.turn.assistant == record.assistant && x.turn.response == record.response
    case SavingReply => record.assistant == ""
    case _ => record.assistant == ""
  }

  /** A runner that won an attempt of a recorded turn holds that attempt, and is the owner while it is current. */
  ghost predicate RunnerOk(ledger: Ledger, x: Runner) {
    match x.won
    case None => (x.pc.Claiming? || !Live(x.pc)) && (x.pc.Claiming? ==> x.turn.assistant == "")
    case Some(n) =>
      && !x.pc.Claiming?
      && x.turn.attempt == n
      && x.turnId in ledger
      && 1 <= n <= ledger[x.turnId].attempt
      && (n == ledger[x.turnId].attempt ==> x.turn.owner == ledger[x.turnId].owner && CopyOk(ledger[x.turnId], x))
      && (Live(x.pc) && x.turn.assistant != "" ==> (x.pc.SavingReply? || x.pc.Failing?) && !Recoverable(x.turn))
  }

  /** A record that names its assistant message is never recoverable or claimable again. */
  ghost predicate RecordOk(t: Turn) {
    t.attempt >= 1 && (t.assistant != "" ==> !Recoverable(t))
  }

  /** No attempt of a turn is won twice. */
  ghost predicate Unique(runners: seq<Runner>) {
    forall i, j :: 0 <= i < j < |runners| && runners[i].won.Some? && runners[j].won.Some? && runners[i].turnId == runners[j].turnId ==>
      runners[i].won != runners[j].won
  }

  ghost predicate Inv(s: State) {
    && (forall id :: id in s.ledger ==> RecordOk(s.ledger[id]))
    && (forall i :: 0 <= i < |s.runners| ==> RunnerOk(s.ledger, s.runners[i]))
    && Unique(s.runners)
  }

  /** A record moves on: its attempt never falls, and a named reply is fixed. */
  ghost predicate RecordAdvances(a: Turn, b: Turn) {
    && a.attempt <= b.attempt
    && (a.attempt == b.attempt ==> a.owner == b.owner)
    && (a.assistant != "" ==> b.attempt == a.attempt && b.assistant == a.assistant && b.response == a.response)
  }

  ghost predicate Advances(a: Ledger, b: Ledger) {
    forall id :: id in a ==> id in b && RecordAdvances(a[id], b[id])
  }

  /** A runner's standing survives a change of the ledger that gives its attempt no reply it does not know. */
  lemma RunnerFrame(a: Ledger, b: Ledger, x: Runner)
    requires RunnerOk(a, x) && Advances(a, b)
    requires x.won.Some? && a[x.turnId].attempt == b[x.turnId].attempt == x.turn.attempt ==> a[x.turnId].assistant == b[x.turnId].assistant
    ensures RunnerOk(b, x)
  {
    if x.won.Some? { assert RecordAdvances(a[x.turnId], b[x.turnId]); }
  }

  lemma StepRecover(s: State, owner: string)
    requires Inv(s) && Enabled(s, RecoverL(owner))
    ensures Inv(Apply(s, RecoverL(owner))) && Advances(s.ledger, Apply(s, RecoverL(owner)).ledger)
  {
    var t := Apply(s, RecoverL(owner));
    forall i | 0 <= i < |t.runners| ensures RunnerOk(t.ledger, t.runners[i]) { RunnerFrame(s.ledger, t.ledger, s.runners[i]); }
  }

  lemma StepDeliver(s: State, l: Label)
    requires Inv(s) && Enabled(s, l) && l.Deliver?
    ensures Inv(Apply(s, l)) && Advances(s.ledger, Apply(s, l).ledger)
  {
    var t := Apply(s, l);
    forall i | 0 <= i < |t.runners| ensures RunnerOk(t.ledger, t.runners[i]) {
      if i < |s.runners| { assert RunnerOk(s.ledger, s.runners[i]); }
    }
  }

  lemma StepClaim(s: State, r: nat)
    requires Inv(s) && Enabled(s, ClaimL(r))
    ensures Inv(Apply(s, ClaimL(r))) && Advances(s.ledger, Apply(s, ClaimL(r)).ledger)
  {
    var t := Apply(s, ClaimL(r));
    var x := s.runners[r];
    assert RunnerOk(s.ledger, x);
    forall i | 0 <= i < |t.runners| ensures RunnerOk(t.ledger, t.runners[i]) {
      if i != r {
        assert RunnerOk(s.ledger, s.runners[i]);
        RunnerFrame(s.ledger, t.ledger, s.runners[i]);
      }
    }
    ClaimUnique(s, r);
  }

  /** A granted claim gets an attempt that nobody has won. */
  lemma ClaimUnique(s: State, r: nat)
    requires Inv(s) && Enabled(s, ClaimL(r))
    ensures Unique(Apply(s, ClaimL(r)).runners)
  {
    var t := Apply(s, ClaimL(r));
    forall i, j | 0 <= i < j < |t.runners| && t.runners[i].won.Some? && t.runners[j].won.Some? && t.runners[i].turnId == t.runners[j].turnId
      ensures t.runners[i].won != t.runners[j].won
    {
      assert RunnerOk(s.ledger, s.runners[i]) && RunnerOk(s.ledger, s.runners[j]);
    }
  }

  /** The runner that saves keeps its standing. */
  lemma SaverOk(s: State, l: Label)
    requires Inv(s) && Enabled(s, l) && l.SaveL?
    ensures RunnerOk(LedgerAfter(s, l), Advance(s, l)) && Advances(s.ledger, LedgerAfter(s, l))
  {
    assert RunnerOk(s.ledger, s.runners[l.r]);
  }

  /** A save of another runner does not touch a runner's standing. */
  lemma BystanderOk(s: State, l: Label, i: nat)
    requires Inv(s) && Enabled(s, l) && l.SaveL? && i < |s.runners| && i != l.r
    ensures RunnerOk(LedgerAfter(s, l), s.runners[i])
  {
    var x, y := s.runners[l.r], s.runners[i];
    assert RunnerOk(s.ledger, x) && RunnerOk(s.ledger, y);
    assert x.turnId == y.turnId && x.won.Some? && y.won.Some? ==> x.won != y.won;
    SaverOk(s, l);
    RunnerFrame(s.ledger, LedgerAfter(s, l), y);
  }

  /** The record a runner saves is in order. */
  lemma SavedOk(s: State, l: Label)
    requires Inv(s) && Enabled(s, l) && l.SaveL?
    ensures forall id :: id in LedgerAfter(s, l) ==> RecordOk(LedgerAfter(s, l)[id])
  {
    assert RunnerOk(s.ledger, s.runners[l.r]);
  }

  lemma StepSave(s: State, l: Label)
    requires Inv(s) && Enabled(s, l) && l.SaveL?
    ensures Inv(Apply(s, l)) && Advances(s.ledger, Apply(s, l).ledger)
  {
    var t := Apply(s, l);
    SaverOk(s, l);
    SavedOk(s, l);
    forall i | 0 <= i < |t.runners| ensures RunnerOk(t.ledger, t.runners[i]) {
      if i != l.r { BystanderOk(s, l, i); }
    }
  }

  lemma StepLocal(s: State, l: Label)
    requires Inv(s) && Enabled(s, l)
    requires !l.Deliver? && !l.RecoverL? && !l.ClaimL? && !l.SaveL?
    ensures Inv(Apply(s, l)) && Advances(s.ledger, Apply(s, l).ledger)
  {
    var t := Apply(s, l);
    forall i | 0 <= i < |t.runners| ensures RunnerOk(t.ledger, t.runners[i]) { LocalRunner(s, l, i); }
    LocalUnique(s, l);
  }

  lemma LocalRunner(s: State, l: Label, i: nat)
    requires Inv(s) && Enabled(s, l) && i < |s.runners|
    requires !l.Deliver? && !l.RecoverL? && !l.ClaimL? && !l.SaveL?
    ensures var t := Apply(s, l); i < |t.runners| && RunnerOk(t.ledger, t.runners[i])
  {
    assert RunnerOk(s.ledger, s.runners[i]);
    if i == l.r { MoverOk(s, l); }
  }

  /** A runner that only moves on keeps its standing. */
  lemma MoverOk(s: State, l: Label)
    requires Enabled(s, l) && !l.Deliver? && !l.RecoverL? && !l.ClaimL? && !l.SaveL? && RunnerOk(s.ledger, s.runners[l.r])
    ensures RunnerOk(s.ledger, Advance(s, l))
  {
  }

  lemma LocalUnique(s: State, l: Label)
    requires Inv(s) && Enabled(s, l)
    requires !l.Deliver? && !l.RecoverL? && !l.ClaimL? && !l.SaveL?
    ensures var t := Apply(s, l); t.ledger == s.ledger && |t.runners| == |s.runners| && Unique(t.runners)
  {
  }

  /** Every step keeps the invariant and only advances records. */
  lemma InvStep(s: State, l: Label)
    requires Inv(s) && Enabled(s, l)
    ensures Inv(Apply(s, l)) && Advances(s.ledger, Apply(s, l).ledger)
  {
    match l
    case Deliver(_, _, _, _) => StepDeliver(s, l);
    case RecoverL(owner) => StepRecover(s, owner);
    case ClaimL(r) => StepClaim(s, r);
    case SaveL(_, _, _) => StepSave(s, l);
    case _ => StepLocal(s, l);
  }

  lemma {:induction false} RunInv(states: seq<State>, labels: seq<Label>, i: nat)
    requires IsRun(states, labels) && i < |states|
    ensures Inv(states[i])
  {
    if i > 0 {
      RunInv(states, labels, i - 1);
      assert Next(states[i - 1], labels[i - 1], states[i]);
      InvStep(states[i - 1], labels[i - 1]);
    }
  }

  lemma {:induction false} RunAdvances(states: seq<State>, labels: seq<Label>, i: nat, j: nat)
    requires IsRun(states, labels) && i <= j < |states|
    ensures Advances(states[i].ledger, states[j].ledger)
    decreases j - i
  {
    if i < j {
      RunAdvances(states, labels, i, j - 1);
      RunInv(states, labels, j - 1);
      assert Next(states[j - 1], labels[j - 1], states[j]);
      InvStep(states[j - 1], labels[j - 1]);
      forall id | id in states[i].ledger ensures id in states[j].ledger && RecordAdvances(states[i].ledger[id], states[j].ledger[id]) {
        assert RecordAdvances(states[i].ledger[id], states[j - 1].ledger[id]);
        assert RecordAdvances(states[j - 1].ledger[id], states[j].ledger[id]);
      }
    }
  }

  // ---- the theorems ----

  /** In every run, each attempt of a turn is won by at most one claim, and no claim lowers an attempt. */
  lemma AttemptsAreFenced(states: seq<State>, labels: seq<Label>, i: nat, a: nat, b: nat)
    requires IsRun(states, labels) && i < |states|
    requires a < |states[i].runners| && b < |states[i].runners| && a != b
    requires states[i].runners[a].won.Some? && states[i].runners[b].won.Some?
    requires states[i].runners[a].turnId == states[i].runners[b].turnId
    ensures states[i].runners[a].won != states[i].runners[b].won
  {
    RunInv(states, labels, i);
  }

  /** A claim of a recorded turn that is granted gets a strictly higher attempt than any claim before it. */
  lemma ClaimsStrictlyIncrease(states: seq<State>, labels: seq<Label>, i: nat, r: nat, other: nat)
    requires IsRun(states, labels) && i < |labels| && labels[i] == ClaimL(r)
    requires r < |states[i + 1].runners| && states[i + 1].runners[r].won.Some?
    requires other < |states[i].runners| && states[i].runners[other].won.Some?
    requires states[i].runners[other].turnId == states[i + 1].runners[r].turnId
    ensures states[i].runners[other].won.value < states[i + 1].runners[r].won.value
  {
    RunInv(states, labels, i);
    assert Next(states[i], labels[i], states[i + 1]);
    assert RunnerOk(states[i].ledger, states[i].runners[r]);
    assert RunnerOk(states[i].ledger, states[i].runners[other]);
  }

  /** A superseded attempt is refused for ever: its saves leave every later ledger as it was. */
  lemma StaleSavesRefused(states: seq<State>, labels: seq<Label>, i: nat, j: nat, r: nat, how: Save, cancelled: bool)
    requires IsRun(states, labels) && i <= j < |labels| && labels[j] == SaveL(r, how, cancelled)
    requires r < |states[j].runners| && states[j].runners[r].won.Some?
    requires var x := states[j].runners[r];
             x.turnId in states[i].ledger && x.won.value < states[i].ledger[x.turnId].attempt
    ensures states[j + 1].ledger == states[j].ledger
  {
    var x := states[j].runners[r];
    RunInv(states, labels, j);
    RunAdvances(states, labels, i, j);
    assert RecordAdvances(states[i].ledger[x.turnId], states[j].ledger[x.turnId]);
    assert RunnerOk(states[j].ledger, x);
    assert Next(states[j], labels[j], states[j + 1]);
  }

  /**
   Once a record names its assistant message, every later claim answers it as
   completed with the same text: however many saves were applied and reported
   as failed, whoever crashed and whoever recovered in between.
   */
  lemma RepliesAreFinal(states: seq<State>, labels: seq<Label>, i: nat, j: nat, id: string, initial: Turn)
    requires IsRun(states, labels) && i <= j < |states|
    requires id in states[i].ledger && states[i].ledger[id].assistant != ""
    ensures id in states[j].ledger
    ensures ClaimAnswer(states[j].ledger, id) == Answered
    ensures ClaimRecord(states[j].ledger, id, initial).response == states[i].ledger[id].response
    ensures ClaimRecord(states[j].ledger, id, initial).assistant == states[i].ledger[id].assistant
  {
    RunAdvances(states, labels, i, j);
    assert RecordAdvances(states[i].ledger[id], states[j].ledger[id]);
    RunInv(states, labels, j);
    assert RecordOk(states[j].ledger[id]);
  }

  /** Of all the runners of a turn, at most one can still pass the fence. */
  lemma OneWriter(states: seq<State>, labels: seq<Label>, i: nat, a: nat, b: nat)
    requires IsRun(states, labels) && i < |states|
    requires a < |states[i].runners| && b < |states[i].runners|
    requires var x, y := states[i].runners[a], states[i].runners[b];
             && x.turnId == y.turnId && Saving(x.pc) && Saving(y.pc)
             && Fenced(states[i].ledger, x.turnId, x.turn) && Fenced(states[i].ledger, y.turnId, y.turn)
    ensures a == b
  {
    RunInv(states, labels, i);
    assert RunnerOk(states[i].ledger, states[i].runners[a]);
    assert RunnerOk(states[i].ledger, states[i].runners[b]);
  }
}
