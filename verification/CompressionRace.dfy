/**
 Compressing a stored conversation while messages keep arriving. The session is
 counted, its last `count` messages are read, a summary is computed, and the
 result replaces exactly the messages that were read. Messages may be appended
 to any session between those steps.
 */
module CompressionRace {
  import opened Options
  import opened History
  import opened SessionHistory
  import opened CompressionReplace

  datatype Append = Append(session: string, arrival: Arrival)

  function AppendAll(s: Store, xs: seq<Append>): (r: Store) {
    if |xs| == 0 then s
    else SaveOne(AppendAll(s, xs[..|xs| - 1]), xs[|xs| - 1].session, xs[|xs| - 1].arrival, true)
  }

  /** `after` is `before` and entries strictly later than all of it. */
  ghost predicate Extends(before: Log, after: Log) {
    before <= after && forall i, j {:trigger LaterAt(before, after, i, j)} :: LaterAt(before, after, i, j)
  }

  ghost predicate LaterAt(before: Log, after: Log, i: int, j: int) {
    0 <= i < |before| <= j < |after| ==> before[i].ts < after[j].ts
  }

  lemma ExtendsOn(a: Log, b: Log, c: Log)
    requires Extends(a, b) && Extends(b, c)
    ensures Extends(a, c)
  {
    forall i, j ensures LaterAt(a, c, i, j) {
      assert LaterAt(a, b, i, j) && LaterAt(b, c, i, j);
      if 0 <= i < |a| <= j < |c| { assert c[..|b|] == b && b[i] == a[i]; }
    }
  }

  lemma OneAppendExtends(s: Store, x: Append, session: string)
    requires StoreValid(s)
    ensures var t := SaveOne(s, x.session, x.arrival, true);
            StoreValid(t) && Extends(LogOf(s, session), LogOf(t, session))
  {
    SaveOneKeeps(s, x.session, x.arrival, true);
    assert LogValid(s, x.session);
    AppendIsLast(LogOf(s, x.session), s.seqno, x.session, x.arrival.msg, x.arrival.now, x.arrival.newId);
    var a, b := LogOf(s, session), LogOf(SaveOne(s, x.session, x.arrival, true), session);
    forall i, j ensures LaterAt(a, b, i, j) { }
  }

  /** Concurrent appends only extend a session, with strictly later entries. */
  lemma {:induction false} AppendsExtend(s: Store, xs: seq<Append>, session: string)
    requires StoreValid(s)
    ensures StoreValid(AppendAll(s, xs)) && Extends(LogOf(s, session), LogOf(AppendAll(s, xs), session))
  {
    if |xs| > 0 {
      var n := |xs| - 1;
      AppendsExtend(s, xs[..n], session);
      OneAppendExtends(AppendAll(s, xs[..n]), xs[n], session);
      ExtendsOn(LogOf(s, session), LogOf(AppendAll(s, xs[..n]), session), LogOf(AppendAll(s, xs), session));
    }
  }

  // ---- the pieces of a session that has grown since it was read ----

  /** The pieces of a session when `read` of its messages were read at length `at` and it has grown since. */
  function Pieces(log: Log, at: nat, read: nat, head: nat, tail: nat): (p: Split)
    requires read <= at <= |log| && head + tail < read
    ensures Whole(p) == log && p.middle != []
  {
    var start := at - read;
    var p := Split(log[..start], log[start..start + head], log[start + head..at - tail], log[at - tail..at], log[at..]);
    assert log[..start] + log[start..start + head] == log[..start + head];
    assert log[..start + head] + log[start + head..at - tail] == log[..at - tail];
    assert log[..at - tail] + log[at - tail..at] == log[..at];
    p
  }

  /** The time of the summary of what was read. */
  function ReadSummaryTime(log1: Log, count: nat, head: nat, now: int): (ts: int)
    requires head < count <= |log1|
  {
    var first := log1[|log1| - count + head].ts;
    if first > now then now else first
  }

  /** The session as it should be then: nothing unread is gone, and one summary stands for the middle. */
  function NothingLost(s: Store, session: string, log1: Log, count: nat,
                       head: nat, tail: nat, identity: string, text: string, now: int, newId: string): (log: Log)
    requires head + tail < count <= |log1| <= |LogOf(s, session)|
  {
    var read := log1[|log1| - count..];
    var m := Stored(s.seqno + 1, ReadSummaryTime(log1, count, head, now), Message(newId, "", identity, "assistant", text, None));
    log1[..|log1| - count] + read[..head] + [m] + read[count - tail..] + LogOf(s, session)[|log1|..]
  }

  /**
   When the summary lands between the retained head and the retained tail: the
   last message kept before it is not ahead of the clock, and the first message of
   the retained tail is strictly later than it.
   */
  predicate LandsInPlace(log1: Log, count: nat, head: nat, tail: nat, now: int)
    requires head + tail < count <= |log1|
  {
    var start := |log1| - count + head;
    && (start > 0 ==> log1[start - 1].ts <= now)
    && (tail > 0 ==> ReadSummaryTime(log1, count, head, now) < log1[|log1| - tail].ts)
  }

  /** The session after the messages `read` were replaced by their compressed history. */
  function ReadReplaced(s: Store, session: string, read: seq<Message>,
                        head: nat, tail: nat, identity: string, text: string, now: int, newId: string): (log: Log)
    requires head + tail < |read|
  {
    LogOf(Replace(s, session, Arrivals(CompressedHistory(read, head, tail, identity, text), now, newId), Ids(read)), session)
  }

  /** The session after compressSessionHistory replaced the last `count` messages of `log1`, which it had read. */
  function AfterCompression(s: Store, session: string, log1: Log, count: nat,
                            head: nat, tail: nat, identity: string, text: string, now: int, newId: string): (log: Log)
    requires head + tail < count <= |log1|
  {
    ReadReplaced(s, session, ReadAll(log1[|log1| - count..]), head, tail, identity, text, now, newId)
  }

  lemma PiecesAre(log: Log, log1: Log, count: nat, head: nat, tail: nat) returns (p: Split)
    requires log1 <= log && head + tail < count <= |log1|
    ensures Whole(p) == log && p.middle != []
    ensures var read := log1[|log1| - count..];
            && p.unread == log1[..|log1| - count] && p.head == read[..head] && p.tail == read[count - tail..]
            && p.later == log[|log1|..] && p.middle[0] == read[head]
            && ReadPart(p) == read && |p.head| == head && |p.tail| == tail
  {
    var read := log1[|log1| - count..];
    assert log[..|log1|] == log1;
    assert read == read[..head] + read[head..count - tail] + read[count - tail..];
    p := Pieces(log, |log1|, count, head, tail);
    assert p.middle == read[head..count - tail];
    assert p.tail == read[count - tail..];
    assert p.head == read[..head];
  }

  /** The pieces are those of the messages that were read. */
  ghost predicate PiecesOf(s: Store, session: string, log1: Log, count: nat, p: Split, head: nat, tail: nat) {
    && head + tail < count <= |log1| <= |LogOf(s, session)|
    && ReadPart(p) == log1[|log1| - count..] && |p.head| == head && |p.tail| == tail
    && p.middle != [] && p.middle[0] == ReadPart(p)[head]
    && p.unread == log1[..|log1| - count] && p.head == ReadPart(p)[..head] && p.tail == ReadPart(p)[count - tail..]
    && p.later == LogOf(s, session)[|log1|..]
  }

  /** What should be left, on the pieces. */
  lemma NothingLostOnPieces(s: Store, session: string, log1: Log, count: nat, p: Split,
                            head: nat, tail: nat, identity: string, text: string, now: int, newId: string)
    requires PiecesOf(s, session, log1, count, p, head, tail)
    ensures NothingLost(s, session, log1, count, head, tail, identity, text, now, newId)
            == Compressed(p, SummaryRecord(p, s.seqno, identity, text, now, newId))
  {
    assert log1[|log1| - count..][head] == log1[|log1| - count + head];
  }

  /** What the replacement leaves, on the pieces. */
  lemma AfterOnPieces(s: Store, session: string, log1: Log, count: nat, p: Split,
                      head: nat, tail: nat, identity: string, text: string, now: int, newId: string)
    requires PiecesOf(s, session, log1, count, p, head, tail)
    ensures AfterCompression(s, session, log1, count, head, tail, identity, text, now, newId)
            == Replaced(s, session, p, identity, text, now, newId)
  {
  }

  /** The clock half of the condition, on the pieces. */
  lemma ClockOnPieces(s: Store, session: string, log1: Log, count: nat, p: Split, head: nat, tail: nat, now: int)
    requires PiecesOf(s, session, log1, count, p, head, tail)
    ensures var start := |log1| - count + head; ClockOk(p, now) <==> (start > 0 ==> log1[start - 1].ts <= now)
  {
    var pre, start := p.unread + p.head, |log1| - count + head;
    assert |pre| == start;
    if start > 0 { assert pre[start - 1] == log1[start - 1]; }
  }

  /** The other half: what arrived after the read is later than everything read. */
  lemma RoomOnPieces(s: Store, session: string, log1: Log, count: nat, p: Split, head: nat, tail: nat, now: int)
    requires PiecesOf(s, session, log1, count, p, head, tail) && Extends(log1, LogOf(s, session))
    ensures RoomAfter(p, now) <==> (tail > 0 ==> ReadSummaryTime(log1, count, head, now) < log1[|log1| - tail].ts)
  {
    var post, log := p.tail + p.later, LogOf(s, session);
    assert log1[|log1| - count..][head] == log1[|log1| - count + head];
    if tail > 0 {
      assert post[0] == log1[|log1| - count..][count - tail] == log1[|log1| - tail];
    } else if post != [] {
      assert post[0] == log[|log1|];
      assert LaterAt(log1, log, |log1| - count + head, |log1|);
    }
  }

  /**
   Nothing is lost: the session holds exactly what it should, sorted, and in the
   expected order if and only if the summary lands in place.
   */
  ghost predicate LosesNothing(s: Store, session: string, log1: Log, count: nat,
                               head: nat, tail: nat, identity: string, text: string, now: int, newId: string, result: Log)
    requires head + tail < count <= |log1| <= |LogOf(s, session)|
  {
    var expected := NothingLost(s, session, log1, count, head, tail, identity, text, now, newId);
    && Sorted(result) && multiset(result) == multiset(expected)
    && (result == expected <==> LandsInPlace(log1, count, head, tail, now))
  }

  /** The replacement, for a session that had `log1` when its last `count` messages were read. */
  lemma ReplaceAfterGrowth(s: Store, session: string, log1: Log, count: nat,
                           head: nat, tail: nat, identity: string, text: string, now: int, newId: string)
    requires StoreValid(s) && Extends(log1, LogOf(s, session)) && head + tail < count <= |log1|
    requires newId != "" && !HasId(LogOf(s, session), newId) && SeparatorFree(session, Recent(log1, count))
    ensures LosesNothing(s, session, log1, count, head, tail, identity, text, now, newId,
                         AfterCompression(s, session, log1, count, head, tail, identity, text, now, newId))
  {
    var p := PiecesAre(LogOf(s, session), log1, count, head, tail);
    assert PiecesOf(s, session, log1, count, p, head, tail);
    RecentIs(log1, count);
    NothingLostOnPieces(s, session, log1, count, p, head, tail, identity, text, now, newId);
    AfterOnPieces(s, session, log1, count, p, head, tail, identity, text, now, newId);
    ClockOnPieces(s, session, log1, count, p, head, tail, now);
    RoomOnPieces(s, session, log1, count, p, head, tail, now);
    ReplaceIff(s, session, p, identity, text, now, newId);
  }

  /**
   Compression loses nothing. `before` arrive between the count and the read,
   `between` between the read and the replacement. Whatever they are and whatever
   the clock says, the session ends with exactly the messages too old to be read,
   the retained head, one summary, the retained tail and everything that arrived
   after the read: what is gone is the middle that was read and summarised. They
   stand in that order if and only if the summary lands in place.
   */
  lemma CompressionLosesNothing(s0: Store, session: string, before: seq<Append>, between: seq<Append>, s1: Store, s2: Store,
                                head: nat, tail: nat, identity: string, text: string, now: int, newId: string)
    requires StoreValid(s0) && s1 == AppendAll(s0, before) && s2 == AppendAll(s1, between)
    requires head + tail < |LogOf(s0, session)|
    requires newId != "" && !HasId(LogOf(s2, session), newId)
    requires SeparatorFree(session, Recent(LogOf(s1, session), |LogOf(s0, session)|))
    ensures var count, log1 := |LogOf(s0, session)|, LogOf(s1, session);
            && LogOf(s0, session) <= log1 <= LogOf(s2, session)
            && LosesNothing(s2, session, log1, count, head, tail, identity, text, now, newId,
                            AfterCompression(s2, session, log1, count, head, tail, identity, text, now, newId))
  {
    AppendsExtend(s0, before, session);
    AppendsExtend(s1, between, session);
    ReplaceAfterGrowth(s2, session, LogOf(s1, session), |LogOf(s0, session)|, head, tail, identity, text, now, newId);
  }

  lemma RecentIs(log: Log, n: nat)
    requires 0 < n <= |log|
    ensures Recent(log, n) == log[|log| - n..]
  {
  }
}
