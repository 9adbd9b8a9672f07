/** The store's message operations over all sessions, and what every run of them keeps. */
module SessionHistory {
  import opened History
  import T = Turns

  datatype Store = Store(logs: map<string, Log>, seqno: nat)

  /** A message on its way into the store, with the clock reading and the new id it would get. */
  datatype Arrival = Arrival(msg: Message, now: int, newId: string)

  function LogOf(s: Store, session: string): (log: Log) {
    if session in s.logs then s.logs[session] else []
  }

  function SaveOne(s: Store, session: string, a: Arrival, clamp: bool): (r: Store) {
    var log := LogOf(s, session);
    if HasId(log, HomeOf(log, session, a.msg, a.newId)) then s
    else Store(s.logs[session := Save(log, s.seqno, session, a.msg, a.now, a.newId, clamp)], s.seqno + 1)
  }

  /** SaveMessages, and with `clamp` false the writes of ReplaceMessages. */
  function SaveAll(s: Store, session: string, msgs: seq<Arrival>, clamp: bool): (r: Store) {
    if |msgs| == 0 then s else SaveOne(SaveAll(s, session, msgs[..|msgs| - 1], clamp), session, msgs[|msgs| - 1], clamp)
  }

  /** The ids the written messages live under. */
  function Survivors(s: Store, session: string, msgs: seq<Arrival>): (r: set<string>) {
    if |msgs| == 0 then {}
    else
      var n := |msgs| - 1;
      Survivors(s, session, msgs[..n])
      + {HomeOf(LogOf(SaveAll(s, session, msgs[..n], false), session), session, msgs[n].msg, msgs[n].newId)}
  }

  function IdSet(ids: seq<string>): (r: set<string>) { set id | id in ids }

  /** ReplaceMessages: write first, then remove what was superseded and did not survive. */
  function Replace(s: Store, session: string, msgs: seq<Arrival>, superseded: seq<string>): (r: Store) {
    var t := SaveAll(s, session, msgs, false);
    t.(logs := t.logs[session := Without(LogOf(t, session), IdSet(superseded) - Survivors(s, session, msgs))])
  }

  function DeleteRecent(s: Store, session: string, n: int): (r: Store) {
    if n <= 0 then s else s.(logs := s.logs[session := DropRecent(LogOf(s, session), n)])
  }

  datatype Op =
    | SaveOp(session: string, msgs: seq<Arrival>)
    | ReplaceOp(session: string, msgs: seq<Arrival>, superseded: seq<string>)
    | DeleteRecentOp(session: string, n: int)

  function Do(s: Store, op: Op): (r: Store) {
    match op
    case SaveOp(session, msgs) => SaveAll(s, session, msgs, true)
    case ReplaceOp(session, msgs, superseded) => Replace(s, session, msgs, superseded)
    case DeleteRecentOp(session, n) => DeleteRecent(s, session, n)
  }

  function DoAll(s: Store, ops: seq<Op>): (r: Store) {
    if |ops| == 0 then s else Do(DoAll(s, ops[..|ops| - 1]), ops[|ops| - 1])
  }

  /** One session of the store is in order. */
  ghost predicate LogValid(s: Store, session: string) {
    Valid(LogOf(s, session), s.seqno)
  }

  ghost predicate StoreValid(s: Store) {
    forall session {:trigger LogValid(s, session)} :: LogValid(s, session)
  }

  lemma EmptyValid()
    ensures StoreValid(Store(map[], 0))
  {
    var none := Store(map[], 0);
    forall session ensures LogValid(none, session) { }
  }

  /** A store that differs in one session only, whose sequence has not fallen, is in order if that session is. */
  lemma OneSession(s: Store, t: Store, session: string)
    requires StoreValid(s) && LogValid(t, session) && s.seqno <= t.seqno
    requires forall other :: other != session ==> LogOf(t, other) == LogOf(s, other)
    ensures StoreValid(t)
  {
    forall other ensures LogValid(t, other) { assert LogValid(s, other); }
  }

  lemma SaveOneKeeps(s: Store, session: string, a: Arrival, clamp: bool)
    requires StoreValid(s)
    ensures StoreValid(SaveOne(s, session, a, clamp))
    ensures HasId(LogOf(SaveOne(s, session, a, clamp), session), HomeOf(LogOf(s, session), session, a.msg, a.newId))
  {
    assert LogValid(s, session);
    SaveKeeps(LogOf(s, session), s.seqno, session, a.msg, a.now, a.newId, clamp);
    OneSession(s, SaveOne(s, session, a, clamp), session);
  }

  lemma {:induction false} SaveAllKeeps(s: Store, session: string, msgs: seq<Arrival>, clamp: bool)
    requires StoreValid(s)
    ensures StoreValid(SaveAll(s, session, msgs, clamp))
  {
    if |msgs| > 0 {
      var n := |msgs| - 1;
      SaveAllKeeps(s, session, msgs[..n], clamp);
      SaveOneKeeps(SaveAll(s, session, msgs[..n], clamp), session, msgs[n], clamp);
    }
  }

  lemma DoKeeps(s: Store, op: Op)
    requires StoreValid(s)
    ensures StoreValid(Do(s, op))
  {
    match op
    case SaveOp(session, msgs) => SaveAllKeeps(s, session, msgs, true);
    case ReplaceOp(session, msgs, superseded) =>
      SaveAllKeeps(s, session, msgs, false);
      var t := SaveAll(s, session, msgs, false);
      assert LogValid(t, session);
      WithoutKeeps(LogOf(t, session), t.seqno, IdSet(superseded) - Survivors(s, session, msgs));
      OneSession(t, Replace(s, session, msgs, superseded), session);
    case DeleteRecentOp(session, n) =>
      assert LogValid(s, session);
      OneSession(s, DeleteRecent(s, session, n), session);
  }

  /**
   After any run of saves, replacements and deletions, each session is strictly
   sorted by (timestamp, sequence) and no id is stored twice.
   */
  lemma {:induction false} EveryRunStaysSorted(ops: seq<Op>, session: string)
    ensures StoreValid(DoAll(Store(map[], 0), ops))
    ensures Sorted(LogOf(DoAll(Store(map[], 0), ops), session)) && UniqueIds(LogOf(DoAll(Store(map[], 0), ops), session))
  {
    if |ops| > 0 {
      EveryRunStaysSorted(ops[..|ops| - 1], session);
      DoKeeps(DoAll(Store(map[], 0), ops[..|ops| - 1]), ops[|ops| - 1]);
    } else {
      EmptyValid();
    }
    assert LogValid(DoAll(Store(map[], 0), ops), session);
  }

  /** Assistant messages of two turns are the same stored message exactly when the turns are the same. */
  lemma OneAssistantMessage(ops: seq<Op>, session: string, turn: string, other: string, i: nat, j: nat)
    requires var log := LogOf(DoAll(Store(map[], 0), ops), session);
             i < |log| && j < |log| && log[i].msg.id == T.AssistantId(turn) && log[j].msg.id == T.AssistantId(other)
    ensures i == j <==> turn == other
  {
    EveryRunStaysSorted(ops, session);
    if i == j { T.AssistantIdInjective(turn, other); }
  }

  /** SaveAll of one session leaves the others alone, and the sequence only grows. */
  lemma {:induction false} SaveAllFrame(s: Store, session: string, msgs: seq<Arrival>, clamp: bool, other: string)
    requires other != session
    ensures LogOf(SaveAll(s, session, msgs, clamp), other) == LogOf(s, other)
    ensures SaveAll(s, session, msgs, clamp).seqno >= s.seqno
  {
    if |msgs| > 0 { SaveAllFrame(s, session, msgs[..|msgs| - 1], clamp, other); }
  }
}
