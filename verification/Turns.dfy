/**
 Durable chat turns: the ledger's three operations on turn records, and the
 turn runners that use them. Timestamps, tool activity and message bodies are
 left out of the record; none of the branches depends on them.
 */
module Turns {
  import opened Options

  datatype Status = Accepted | Running | Partial | Completed | Failed | Cancelled

  datatype Turn = Turn(session: string, source: string, status: Status, attempt: int, owner: string,
                       input: string, assistant: string, response: string, error: string)

  datatype Claim = Owned | InProgress | Answered

  type Ledger = map<string, Turn>

  /** The id of the one assistant message of a turn: a name-based UUID, injective in the turn id. */
  function AssistantId(turnId: string): (id: string)
    ensures id != ""
  {
    "assistant:" + turnId
  }

  lemma AssistantIdInjective(a: string, b: string)
    requires AssistantId(a) == AssistantId(b)
    ensures a == b
  {
    assert a == AssistantId(a)[10..] && b == AssistantId(b)[10..];
  }

  /** prepareInitialTurn, for an id that is not empty. */
  function PrepareInitial(initial: Turn): (r: Turn) {
    initial.(status := Running, attempt := 1)
  }

  /** The record ClaimTurn leaves behind. */
  function ClaimRecord(ledger: Ledger, turnId: string, initial: Turn): (r: Turn) {
    if turnId !in ledger then PrepareInitial(initial)
    else
      var turn := ledger[turnId];
      if turn.status.Failed? || turn.status.Cancelled? then
        if turn.assistant != "" then turn.(status := Completed, error := "")
        else turn.(status := Running, attempt := turn.attempt + 1, owner := initial.owner, error := "")
      else turn
  }

  /** What ClaimTurn answers. */
  function ClaimAnswer(ledger: Ledger, turnId: string): (c: Claim) {
    if turnId !in ledger then Owned
    else
      var turn := ledger[turnId];
      if turn.status.Completed? then Answered
      else if turn.status.Failed? || turn.status.Cancelled? then
        if turn.assistant != "" then Answered else Owned
      else InProgress
  }

  predicate Recoverable(t: Turn) {
    t.status.Accepted? || t.status.Running? || t.status.Partial?
  }

  const RECOVERED := "recovered after process restart"

  function RecoverRecord(t: Turn, owner: string): (r: Turn) {
    if Recoverable(t) && t.owner != owner then t.(status := Failed, error := RECOVERED) else t
  }

  /** RecoverTurns, for an owner that is not empty. */
  function Recover(ledger: Ledger, owner: string): (r: Ledger) {
    map id | id in ledger :: RecoverRecord(ledger[id], owner)
  }

  /** SaveTurn passes the fence: the record exists and carries the same attempt and owner. */
  predicate Fenced(ledger: Ledger, turnId: string, turn: Turn) {
    turnId in ledger && ledger[turnId].attempt == turn.attempt && ledger[turnId].owner == turn.owner
  }

  // ---- runners ----

  /**
   Where a delivery's Run is: each value is the next call it makes. `Finished`
   is a return, with or without a reply; `Crashed` is a process that stopped.
   */
  datatype PC =
    | Claiming | LoadingHistory | Replaying | SavingReplay | RecordingInput | SavingInput
    | Generating | SavingMessage | SavingReply | Failing | Finished | Crashed

  /** `turn` is the runner's copy of the record, `won` the attempt its claim was granted, `draft` the generated text. */
  datatype Runner = Runner(turnId: string, turn: Turn, won: Option<int>, draft: string, pc: PC)

  datatype State = State(ledger: Ledger, runners: seq<Runner>)

  /** A save that passes the fence may still be lost, or be applied and reported as failed. */
  datatype Save = Done | Lost | AppliedButFailed

  datatype Label =
    | Deliver(turnId: string, session: string, source: string, owner: string)
    | RecoverL(owner: string)
    | ClaimL(r: nat)
    | HistoryL(r: nat, ok: bool, cancelled: bool)
    | PriorL(r: nat, prior: string)
    | PriorFailedL(r: nat, cancelled: bool)
    | InputL(r: nat, id: string, ok: bool, cancelled: bool)
    | GenerateL(r: nat, text: string, ok: bool, cancelled: bool)
    | MessageL(r: nat, ok: bool, cancelled: bool)
    | SaveL(r: nat, how: Save, cancelled: bool)
    | CrashL(r: nat)

  predicate Saving(pc: PC) {
    pc.SavingReplay? || pc.SavingInput? || pc.SavingReply? || pc.Failing?
  }

  predicate Live(pc: PC) { !pc.Finished? && !pc.Crashed? }

  predicate Enabled(s: State, l: Label) {
    match l
    case Deliver(turnId, _, _, _) => turnId != ""
    case RecoverL(owner) => owner != ""
    case _ =>
      && l.r < |s.runners|
      && var pc := s.runners[l.r].pc;
         match l
         case ClaimL(_) => pc.Claiming?
         case HistoryL(_, _, _) => pc.LoadingHistory?
         case PriorL(_, _) => pc.Replaying?
         case PriorFailedL(_, _) => pc.Replaying?
         case InputL(_, id, _, _) => pc.RecordingInput? && id != ""
         case GenerateL(_, _, _, _) => pc.Generating?
         case MessageL(_, _, _) => pc.SavingMessage?
         case SaveL(_, _, _) => Saving(pc)
         case CrashL(_) => Live(pc)
         case _ => false
  }

  /** failTurn's edit of the runner's copy; the cause's text is left out. */
  function FailCopy(x: Runner, cancelled: bool): (r: Runner) {
    x.(turn := x.turn.(status := if cancelled then Cancelled else Failed, error := "failed"), pc := Failing)
  }

  function ClaimStep(ledger: Ledger, x: Runner): (r: Runner) {
    var record := ClaimRecord(ledger, x.turnId, x.turn);
    match ClaimAnswer(ledger, x.turnId)
    case Owned => x.(turn := record, won := Some(record.attempt), pc := LoadingHistory)
    case Answered => x.(turn := record, pc := Finished)
    case InProgress => x.(pc := Finished)
  }

  function SaveStep(x: Runner, stored: bool, how: Save, cancelled: bool): (r: Runner) {
    if x.pc.Failing? || (stored && how.Done?) then
      x.(pc := if x.pc.SavingInput? && stored && how.Done? then Generating else Finished)
    else FailCopy(x, cancelled)
  }

  function Advance(s: State, l: Label): (r: Runner)
    requires Enabled(s, l) && !l.Deliver? && !l.RecoverL?
  {
    var x := s.runners[l.r];
    match l
    case ClaimL(_) => ClaimStep(s.ledger, x)
    case HistoryL(_, ok, cancelled) => if ok then x.(pc := Replaying) else FailCopy(x, cancelled)
    case PriorL(_, prior) =>
      if prior == "" then x.(pc := RecordingInput)
      else x.(turn := x.turn.(status := Completed, response := prior, error := ""), pc := SavingReplay)
    case PriorFailedL(_, cancelled) => FailCopy(x, cancelled)
    case InputL(_, id, ok, cancelled) =>
      if x.turn.input != "" then x.(pc := Generating)
      else if ok then x.(turn := x.turn.(input := id), pc := SavingInput)
      else FailCopy(x, cancelled)
    case GenerateL(_, text, ok, cancelled) =>
      if ok then x.(draft := text, pc := SavingMessage) else FailCopy(x, cancelled)
    case MessageL(_, ok, cancelled) =>
      if ok then
        x.(turn := x.turn.(status := Completed, assistant := AssistantId(x.turnId), response := x.draft, error := ""),
           pc := SavingReply)
      else FailCopy(x, cancelled)
    case SaveL(_, how, cancelled) => SaveStep(x, Fenced(s.ledger, x.turnId, x.turn), how, cancelled)
    case CrashL(_) => x.(pc := Crashed)
    case _ => x
  }

  function LedgerAfter(s: State, l: Label): (r: Ledger)
    requires Enabled(s, l)
  {
    match l
    case RecoverL(owner) => Recover(s.ledger, owner)
    case ClaimL(r) => s.ledger[s.runners[r].turnId := ClaimRecord(s.ledger, s.runners[r].turnId, s.runners[r].turn)]
    case SaveL(r, how, _) =>
      var x := s.runners[r];
      if Fenced(s.ledger, x.turnId, x.turn) && !how.Lost? then s.ledger[x.turnId := x.turn] else s.ledger
    case _ => s.ledger
  }

  function Apply(s: State, l: Label): (t: State)
    requires Enabled(s, l)
  {
    State(LedgerAfter(s, l),
          match l
          case Deliver(turnId, session, source, owner) =>
            s.runners + [Runner(turnId, Turn(session, source, Accepted, 0, owner, "", "", "", ""), None, "", Claiming)]
          case RecoverL(_) => s.runners
          case _ => s.runners[l.r := Advance(s, l)])
  }

  predicate Next(s: State, l: Label, t: State) {
    Enabled(s, l) && t == Apply(s, l)
  }

  predicate IsRun(states: seq<State>, labels: seq<Label>) {
    && |states| == |labels| + 1
    && states[0] == State(map[], [])
    && forall i :: 0 <= i < |labels| ==> Next(states[i], labels[i], states[i + 1])
  }
}
