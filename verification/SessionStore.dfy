/**
 The in-memory session store as an object: its maps are updated in place under
 its mutex, so one method is one critical section. Each method is proved
 against the functions of `SessionHistory` and `Turns`. The library sort is
 stated as insertion, which `History.InsertIsSort` shows to be its only result.
 */
module SessionStore {
  import opened Options
  import opened History
  import opened SessionHistory
  import T = Turns

  datatype SaveError = IdRequired | NotFound | OwnershipLost

  class MemorySessionStore {
    var messages: map<string, Log>
    var turns: T.Ledger
    var seqno: nat

    ghost function Contents(): (s: Store)
      reads this
    {
      Store(messages, seqno)
    }

    constructor ()
      ensures Contents() == Store(map[], 0) && turns == map[]
    {
      messages, turns, seqno := map[], map[], 0;
    }

    method IndexOf(session: string, id: string) returns (found: bool)
      ensures found == HasId(LogOf(Contents(), session), id)
    {
      var log := if session in messages then messages[session] else [];
      for i := 0 to |log|
        invariant forall k :: 0 <= k < i ==> log[k].msg.id != id
      {
        if log[i].msg.id == id { return true; }
      }
      return false;
    }

    /** saveMessage: returns the id the message lives under. */
    method SaveMessageLocked(session: string, a: Arrival, clamp: bool) returns (home: string)
      modifies this`messages, this`seqno
      ensures Contents() == SaveOne(old(Contents()), session, a, clamp)
      ensures home == HomeOf(old(LogOf(Contents(), session)), session, a.msg, a.newId)
    {
      var id, legacy := Ids(session, a);
      if legacy != "" {
        var found := IndexOf(session, legacy);
        if found { return legacy; }
      }
      var found := IndexOf(session, id);
      if found { return id; }
      Write(session, a, id, clamp);
      return id;
    }

    /** The id a message is saved under, and the older form of it to look for first. */
    static method Ids(session: string, a: Arrival) returns (id: string, legacy: string)
      ensures id == IdOf(session, a.msg, a.newId) && legacy == LegacyOf(session, a.msg, a.newId)
    {
      id, legacy := a.msg.id, "";
      if a.msg.source == "" {
        if id == "" { id := a.newId; }
      } else {
        var current := CanonicalId(session, a.msg.source);
        if id == "" { id := current; }
        if id == current { legacy := CompatibleLegacyId(session, a.msg.source); }
      }
    }

    /** The last lines of saveMessage: a record nobody has stored yet. */
    method Write(session: string, a: Arrival, id: string, clamp: bool)
      requires id == HomeOf(LogOf(Contents(), session), session, a.msg, a.newId) == IdOf(session, a.msg, a.newId)
      requires !HasId(LogOf(Contents(), session), id)
      modifies this`messages, this`seqno
      ensures Contents() == SaveOne(old(Contents()), session, a, clamp)
    {
      var history := if session in messages then messages[session] else [];
      var ts := Stamp(a.msg, a.now);
      if clamp { ts := ClampLoop(history, ts); }
      seqno := seqno + 1;
      var role := if a.msg.role == "" then "user" else a.msg.role;
      messages := messages[session := Insert(history, Stored(seqno, ts, a.msg.(id := id, role := role, at := None)))];
    }

    /** The clamping loop of saveMessage. */
    static method ClampLoop(history: Log, at: int) returns (ts: int)
      ensures ts == Clamp(history, at)
      ensures forall i :: 0 <= i < |history| ==> history[i].ts < ts
    {
      ts := at;
      for i := 0 to |history|
        invariant ts == Clamp(history[..i], at)
      {
        assert history[..i + 1][..i] == history[..i];
        if history[i].ts >= ts { ts := history[i].ts + 1; }
      }
      assert history[..|history|] == history;
    }

    method SaveMessages(session: string, msgs: seq<Arrival>)
      modifies this`messages, this`seqno
      ensures Contents() == SaveAll(old(Contents()), session, msgs, true)
    {
      for i := 0 to |msgs|
        invariant Contents() == SaveAll(old(Contents()), session, msgs[..i], true)
      {
        assert msgs[..i + 1][..i] == msgs[..i];
        var _ := SaveMessageLocked(session, msgs[i], true);
      }
      assert msgs[..|msgs|] == msgs;
    }

    /** The writing half of ReplaceMessages. */
    method WriteReplacement(session: string, msgs: seq<Arrival>) returns (survivors: set<string>)
      modifies this`messages, this`seqno
      ensures Contents() == SaveAll(old(Contents()), session, msgs, false)
      ensures survivors == Survivors(old(Contents()), session, msgs)
    {
      survivors := {};
      for i := 0 to |msgs|
        invariant Contents() == SaveAll(old(Contents()), session, msgs[..i], false)
        invariant survivors == Survivors(old(Contents()), session, msgs[..i])
      {
        assert msgs[..i + 1][..i] == msgs[..i];
        var home := SaveMessageLocked(session, msgs[i], false);
        survivors := survivors + {home};
      }
      assert msgs[..|msgs|] == msgs;
    }

    static method DoomedIds(superseded: seq<string>, survivors: set<string>) returns (doomed: set<string>)
      ensures doomed == IdSet(superseded) - survivors
    {
      doomed := {};
      for i := 0 to |superseded|
        invariant doomed == IdSet(superseded[..i]) - survivors
      {
        assert superseded[..i + 1] == superseded[..i] + [superseded[i]];
        if superseded[i] !in survivors { doomed := doomed + {superseded[i]}; }
      }
      assert superseded[..|superseded|] == superseded;
    }

    method ReplaceMessages(session: string, msgs: seq<Arrival>, superseded: seq<string>)
      modifies this`messages, this`seqno
      ensures Contents() == Replace(old(Contents()), session, msgs, superseded)
    {
      var survivors := WriteReplacement(session, msgs);
      var doomed := DoomedIds(superseded, survivors);
      var history := if session in messages then messages[session] else [];
      var kept := DeleteIds(history, doomed);
      messages := messages[session := kept];
    }

    static method DeleteIds(history: Log, doomed: set<string>) returns (kept: Log)
      ensures kept == Without(history, doomed)
    {
      kept := [];
      for i := 0 to |history|
        invariant kept == Without(history[..i], doomed)
      {
        assert history[..i + 1][..i] == history[..i];
        if history[i].msg.id !in doomed { kept := kept + [history[i]]; }
      }
      assert history[..|history|] == history;
    }

    method MessageCount(session: string) returns (n: nat)
      ensures n == |LogOf(Contents(), session)|
    {
      n := if session in messages then |messages[session]| else 0;
    }

    method RecentMessages(session: string, n: int) returns (out: seq<Message>)
      ensures out == ReadAll(Recent(LogOf(Contents(), session), n))
    {
      if n <= 0 { return []; }
      var history := if session in messages then messages[session] else [];
      var log := if |history| <= n then history else history[|history| - n..];
      out := [];
      for i := 0 to |log|
        invariant out == ReadAll(log[..i])
      {
        out := out + [Read(log[i])];
      }
      assert log[..|log|] == log;
    }

    method DeleteRecentMessages(session: string, n: int) returns (deleted: int)
      modifies this`messages
      ensures Contents() == DeleteRecent(old(Contents()), session, n)
      ensures deleted == |LogOf(old(Contents()), session)| - |LogOf(Contents(), session)|
    {
      if n <= 0 { return 0; }
      var history := if session in messages then messages[session] else [];
      deleted := if n < |history| then n else |history|;
      messages := messages[session := history[..|history| - deleted]];
      assert |history| <= n ==> history[..0] == [];
    }

    // ---- turns ----

    method ClaimTurn(turnId: string, initial: T.Turn) returns (answer: Option<(T.Turn, T.Claim)>)
      modifies this`turns
      ensures turnId == "" ==> answer.None? && turns == old(turns)
      ensures turnId != "" ==>
                && answer == Some((T.ClaimRecord(old(turns), turnId, initial), T.ClaimAnswer(old(turns), turnId)))
                && turns == old(turns)[turnId := T.ClaimRecord(old(turns), turnId, initial)]
    {
      if turnId == "" { return None; }
      var first := T.PrepareInitial(initial);
      if turnId !in turns {
        turns := turns[turnId := first];
        return Some((first, T.Owned));
      }
      var turn := turns[turnId];
      assert turns[turnId := turn] == turns;
      match turn.status
      case Completed => return Some((turn, T.Answered));
      case Failed | Cancelled =>
        if turn.assistant != "" {
          turn := turn.(status := T.Completed, error := "");
          turns := turns[turnId := turn];
          return Some((turn, T.Answered));
        }
        turn := turn.(status := T.Running, attempt := turn.attempt + 1, owner := first.owner, error := "");
        turns := turns[turnId := turn];
        return Some((turn, T.Owned));
      case _ => return Some((turn, T.InProgress));
    }

    method RecoverTurns(ownerId: string) returns (ok: bool)
      modifies this`turns
      ensures ok == (ownerId != "")
      ensures turns == if ok then T.Recover(old(turns), ownerId) else old(turns)
    {
      if ownerId == "" { return false; }
      var todo := turns.Keys;
      while todo != {}
        invariant todo <= turns.Keys == old(turns).Keys
        invariant forall id :: id in turns ==>
                    turns[id] == if id in todo then old(turns)[id] else T.RecoverRecord(old(turns)[id], ownerId)
        decreases |todo|
      {
        var id :| id in todo;
        var turn := turns[id];
        if T.Recoverable(turn) && turn.owner != ownerId {
          turns := turns[id := turn.(status := T.Failed, error := T.RECOVERED)];
        }
        todo := todo - {id};
      }
      return true;
    }

    method SaveTurn(turnId: string, turn: T.Turn) returns (error: Option<SaveError>)
      modifies this`turns
      ensures error.None? <==> turnId != "" && T.Fenced(old(turns), turnId, turn)
      ensures turns == if error.None? then old(turns)[turnId := turn] else old(turns)
      ensures error == if turnId == "" then Some(IdRequired) else if turnId !in old(turns) then Some(NotFound)
                       else if !T.Fenced(old(turns), turnId, turn) then Some(OwnershipLost) else None
    {
      if turnId == "" { return Some(IdRequired); }
      if turnId !in turns { return Some(NotFound); }
      var current := turns[turnId];
      if current.attempt != turn.attempt || current.owner != turn.owner { return Some(OwnershipLost); }
      turns := turns[turnId := turn];
      return None;
    }
  }
}
