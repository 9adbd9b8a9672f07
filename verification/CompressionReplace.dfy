/**
 What compressSessionHistory does to a stored session: the messages it read are
 written back around one new summary, and those it did not keep are removed.
 */
module CompressionReplace {
  import opened Options
  import opened History
  import opened SessionHistory

  /** summaryInstant, for a middle that is not empty: the time of the first message replaced. */
  function SummaryMessage(original: seq<Message>, head: nat, identity: string, text: string): (m: Message)
    requires head < |original|
  {
    Message("", "", identity, "assistant", text, original[head].at)
  }

  /** compressedHistory: the retained records around the new summary. */
  function CompressedHistory(original: seq<Message>, head: nat, tail: nat, identity: string, text: string): (r: seq<Message>)
    requires head + tail < |original|
  {
    original[..head] + [SummaryMessage(original, head, identity, text)] + original[|original| - tail..]
  }

  /** The messages of one ReplaceMessages call, each saved under the same clock reading. */
  function Arrivals(msgs: seq<Message>, now: int, newId: string): (r: seq<Arrival>)
    ensures |r| == |msgs| && forall i :: 0 <= i < |msgs| ==> r[i] == Arrival(msgs[i], now, newId)
  {
    seq(|msgs|, i requires 0 <= i < |msgs| => Arrival(msgs[i], now, newId))
  }

  function Ids(msgs: seq<Message>): (r: seq<string>)
    ensures |r| == |msgs| && forall i :: 0 <= i < |msgs| ==> r[i] == msgs[i].id
  {
    seq(|msgs|, i requires 0 <= i < |msgs| => msgs[i].id)
  }

  // ---- retained records are found again ----

  /** The legacy id of a record is stored as another message, and saveMessage takes that one for it. */
  predicate Shadowed(log: Log, session: string, m: Message) {
    var legacy := LegacyOf(session, m, "");
    legacy != "" && HasId(log, legacy)
  }

  /** Writing a stored record back finds it under its own id exactly when it is not shadowed. */
  lemma FoundIffNotShadowed(log: Log, session: string, m: Message, newId: string)
    requires m.id != "" && HasId(log, m.id)
    ensures HomeOf(log, session, m, newId) == m.id <==> !Shadowed(log, session, m)
  {
    if Shadowed(log, session, m) {
      assert LegacyOf(session, m, "")[1] == '1' && PairId(session, m.source)[1] == '2';
    }
  }

  /** A stored record that writing back finds again. */
  predicate Findable(log: Log, session: string, m: Message) {
    m.id != "" && HasId(log, m.id) && !Shadowed(log, session, m)
  }

  function ArrivalIds(msgs: seq<Arrival>): (r: set<string>) {
    if |msgs| == 0 then {} else ArrivalIds(msgs[..|msgs| - 1]) + {msgs[|msgs| - 1].msg.id}
  }

  lemma {:induction false} ArrivalIdsAre(msgs: seq<Arrival>)
    ensures forall id :: id in ArrivalIds(msgs) <==> exists i :: 0 <= i < |msgs| && msgs[i].msg.id == id
  {
    if |msgs| > 0 {
      var n := |msgs| - 1;
      ArrivalIdsAre(msgs[..n]);
      forall id ensures id in ArrivalIds(msgs) <==> exists i :: 0 <= i < |msgs| && msgs[i].msg.id == id {
        if i :| 0 <= i < |msgs| && msgs[i].msg.id == id {
          if i < n { assert msgs[..n][i].msg.id == id; }
        }
      }
    }
  }

  /** Writing back stored records changes nothing, and their own ids survive. */
  lemma {:induction false} RewriteStored(s: Store, session: string, msgs: seq<Arrival>)
    requires forall i :: 0 <= i < |msgs| ==> Findable(LogOf(s, session), session, msgs[i].msg)
    ensures SaveAll(s, session, msgs, false) == s
    ensures Survivors(s, session, msgs) == ArrivalIds(msgs)
  {
    if |msgs| > 0 {
      var n := |msgs| - 1;
      RewriteStored(s, session, msgs[..n]);
      FoundIffNotShadowed(LogOf(s, session), session, msgs[n].msg, msgs[n].newId);
    }
  }

  lemma {:induction false} SaveAllConcat(s: Store, session: string, a: seq<Arrival>, b: seq<Arrival>)
    ensures SaveAll(s, session, a + b, false) == SaveAll(SaveAll(s, session, a, false), session, b, false)
    ensures Survivors(s, session, a + b) == Survivors(s, session, a) + Survivors(SaveAll(s, session, a, false), session, b)
  {
    if |b| == 0 {
      assert a + b == a;
    } else {
      var n := |b| - 1;
      SaveAllConcat(s, session, a, b[..n]);
      LastApart(a, b);
      SaveAllSnoc(s, session, a + b[..n], b[n]);
      SaveAllSnoc(SaveAll(s, session, a, false), session, b[..n], b[n]);
    }
  }

  lemma LastApart(a: seq<Arrival>, b: seq<Arrival>)
    requires |b| > 0
    ensures a + b == (a + b[..|b| - 1]) + [b[|b| - 1]] && b == b[..|b| - 1] + [b[|b| - 1]]
  {
  }

  /** One more message written. */
  lemma SaveAllSnoc(s: Store, session: string, msgs: seq<Arrival>, a: Arrival)
    ensures var t := SaveAll(s, session, msgs, false);
            && SaveAll(s, session, msgs + [a], false) == SaveOne(t, session, a, false)
            && Survivors(s, session, msgs + [a]) == Survivors(s, session, msgs) + {HomeOf(LogOf(t, session), session, a.msg, a.newId)}
  {
    assert (msgs + [a])[..|msgs|] == msgs;
  }

  // ---- the replacement ----

  /** The pieces of a session at the moment of the replacement. */
  datatype Split = Split(unread: Log, head: Log, middle: Log, tail: Log, later: Log)

  function Whole(p: Split): (log: Log) { p.unread + p.head + p.middle + p.tail + p.later }

  function ReadPart(p: Split): (log: Log) { p.head + p.middle + p.tail }

  /** The stored summary. */
  function SummaryRecord(p: Split, seqno: nat, identity: string, text: string, now: int, newId: string): (m: Stored)
    requires p.middle != []
  {
    Stored(seqno + 1, SummaryTime(p, now), Message(newId, "", identity, "assistant", text, None))
  }

  /** The session with the summary in the place of its middle. */
  function Compressed(p: Split, summary: Stored): (log: Log) { p.unread + p.head + [summary] + p.tail + p.later }

  function Replacement(p: Split, identity: string, text: string, now: int, newId: string): (r: seq<Arrival>)
    requires p.middle != []
  {
    Arrivals(CompressedHistory(ReadAll(ReadPart(p)), |p.head|, |p.tail|, identity, text), now, newId)
  }

  ghost predicate SeparatorFree(session: string, log: Log) {
    forall i :: 0 <= i < |log| ==> log[i].msg.id != "" && !HasSeparator(session, log[i].msg.source)
  }

  lemma FindableIn(log: Log, session: string, m: Stored, i: nat)
    requires i < |log| && log[i] == m && m.msg.id != "" && !HasSeparator(session, m.msg.source)
    ensures Findable(log, session, Read(m))
  {
    assert log[i].msg.id == Read(m).id;
  }

  ghost predicate Spared(log: Log, doomed: set<string>) {
    forall i :: 0 <= i < |log| ==> log[i].msg.id !in doomed
  }

  ghost predicate Gone(log: Log, doomed: set<string>) {
    forall i :: 0 <= i < |log| ==> log[i].msg.id in doomed
  }

  lemma WithoutBack(kept: Log, gone: Log, doomed: set<string>)
    requires Spared(kept, doomed) && Gone(gone, doomed)
    ensures Without(kept + gone, doomed) == kept
  {
    WithoutConcat(kept, gone, doomed);
    WithoutNone(kept, doomed);
    WithoutAll(gone, doomed);
  }

  lemma ArrivalsConcat(a: seq<Message>, b: seq<Message>, now: int, newId: string)
    ensures Arrivals(a + b, now, newId) == Arrivals(a, now, newId) + Arrivals(b, now, newId)
  {
  }

  lemma ReadEnds(p: Split)
    ensures var original := ReadAll(ReadPart(p));
            original[..|p.head|] == ReadAll(p.head) && original[|original| - |p.tail|..] == ReadAll(p.tail)
  {
  }

  lemma ReplacementParts(p: Split, identity: string, text: string, now: int, newId: string)
    requires p.middle != []
    ensures Replacement(p, identity, text, now, newId) ==
            Arrivals(ReadAll(p.head), now, newId)
            + [Arrival(SummaryMessage(ReadAll(ReadPart(p)), |p.head|, identity, text), now, newId)]
            + Arrivals(ReadAll(p.tail), now, newId)
  {
    ReadEnds(p);
    var m := SummaryMessage(ReadAll(ReadPart(p)), |p.head|, identity, text);
    ArrivalsConcat(ReadAll(p.head) + [m], ReadAll(p.tail), now, newId);
    ArrivalsConcat(ReadAll(p.head), [m], now, newId);
    assert Arrivals([m], now, newId) == [Arrival(m, now, newId)];
  }

  /** Every record of a part that is stored is found again. */
  lemma PartFindable(log: Log, session: string, part: Log, now: int, newId: string)
    requires SeparatorFree(session, part)
    requires forall i :: 0 <= i < |part| ==> part[i] in log
    ensures forall i :: 0 <= i < |part| ==> Findable(log, session, Arrivals(ReadAll(part), now, newId)[i].msg)
  {
    forall i | 0 <= i < |part| ensures Findable(log, session, Arrivals(ReadAll(part), now, newId)[i].msg) {
      var j :| 0 <= j < |log| && log[j] == part[i];
      FindableIn(log, session, part[i], j);
    }
  }

  lemma InsertContains(log: Log, m: Stored, part: Log)
    requires forall i :: 0 <= i < |part| ==> part[i] in log
    ensures forall i :: 0 <= i < |part| ==> part[i] in Insert(log, m)
  {
    InsertAdds(log, m);
    forall i | 0 <= i < |part| ensures part[i] in Insert(log, m) {
      assert part[i] in multiset(log) + multiset{m};
      assert part[i] in multiset(Insert(log, m));
    }
  }

  lemma PartsStored(p: Split)
    ensures forall i :: 0 <= i < |p.head| ==> p.head[i] in Whole(p)
    ensures forall i :: 0 <= i < |p.tail| ==> p.tail[i] in Whole(p)
  {
  }

  lemma PartsSeparatorFree(p: Split, session: string)
    requires SeparatorFree(session, ReadPart(p))
    ensures SeparatorFree(session, p.head) && SeparatorFree(session, p.tail)
  {
    forall i | 0 <= i < |p.head| ensures p.head[i].msg.id != "" && !HasSeparator(session, p.head[i].msg.source) {
      assert ReadPart(p)[i] == p.head[i];
    }
    forall i | 0 <= i < |p.tail| ensures p.tail[i].msg.id != "" && !HasSeparator(session, p.tail[i].msg.source) {
      assert ReadPart(p)[|p.head| + |p.middle| + i] == p.tail[i];
    }
  }

  /** Written between stored records, a summary is the only thing that changes the session. */
  lemma WriteThree(s: Store, session: string, a: seq<Arrival>, b: Arrival, c: seq<Arrival>, m: Stored)
    requires b.msg.id == "" && b.msg.source == "" && b.msg.role != "" && !HasId(LogOf(s, session), b.newId)
    requires m == Stored(s.seqno + 1, Stamp(b.msg, b.now), b.msg.(id := b.newId, at := None))
    requires forall i :: 0 <= i < |a| ==> Findable(LogOf(s, session), session, a[i].msg)
    requires forall i :: 0 <= i < |c| ==> Findable(Insert(LogOf(s, session), m), session, c[i].msg)
    ensures LogOf(SaveAll(s, session, a + [b] + c, false), session) == Insert(LogOf(s, session), m)
    ensures Survivors(s, session, a + [b] + c) == ArrivalIds(a) + {b.newId} + ArrivalIds(c)
  {
    SaveAllConcat(s, session, a + [b], c);
    SaveAllConcat(s, session, a, [b]);
    RewriteStored(s, session, a);
    SummaryWrite(s, session, b, m);
    RewriteStored(SaveAll(s, session, [b], false), session, c);
  }

  /** The writes of the replacement: only the summary is new, and it is inserted. */
  lemma ReplacementWrites(s: Store, session: string, p: Split, identity: string, text: string, now: int, newId: string)
    requires LogOf(s, session) == Whole(p) && p.middle != []
    requires SeparatorFree(session, ReadPart(p))
    requires newId != "" && !HasId(Whole(p), newId)
    ensures var msgs := Replacement(p, identity, text, now, newId);
            var m := SummaryRecord(p, s.seqno, identity, text, now, newId);
            && LogOf(SaveAll(s, session, msgs, false), session) == Insert(Whole(p), m)
            && Survivors(s, session, msgs) == ArrivalIds(Arrivals(ReadAll(p.head), now, newId)) + {newId}
                                              + ArrivalIds(Arrivals(ReadAll(p.tail), now, newId))
  {
    var a := Arrivals(ReadAll(p.head), now, newId);
    var b := Arrival(SummaryMessage(ReadAll(ReadPart(p)), |p.head|, identity, text), now, newId);
    var c := Arrivals(ReadAll(p.tail), now, newId);
    var m := SummaryRecord(p, s.seqno, identity, text, now, newId);
    ReplacementParts(p, identity, text, now, newId);
    PartsStored(p);
    PartsSeparatorFree(p, session);
    PartFindable(Whole(p), session, p.head, now, newId);
    InsertContains(Whole(p), m, p.tail);
    PartFindable(Insert(Whole(p), m), session, p.tail, now, newId);
    assert ReadPart(p)[|p.head|] == p.middle[0];
    WriteThree(s, session, a, b, c, m);
  }

  /** Writing an unsourced message with a new id inserts it. */
  lemma SummaryWrite(s: Store, session: string, b: Arrival, m: Stored)
    requires b.msg.id == "" && b.msg.source == "" && b.msg.role != "" && !HasId(LogOf(s, session), b.newId)
    requires m == Stored(s.seqno + 1, Stamp(b.msg, b.now), b.msg.(id := b.newId, at := None))
    ensures LogOf(SaveAll(s, session, [b], false), session) == Insert(LogOf(s, session), m)
    ensures Survivors(s, session, [b]) == {b.newId}
  {
    assert [b][..0] == [];
    assert SaveAll(s, session, [b][..0], false) == s;
    assert Survivors(s, session, [b][..0]) == {};
  }

  /** The ids a replacement removes. */
  function Doomed(p: Split, now: int, newId: string): (r: set<string>) {
    IdSet(Ids(ReadAll(ReadPart(p))))
    - (ArrivalIds(Arrivals(ReadAll(p.head), now, newId)) + {newId} + ArrivalIds(Arrivals(ReadAll(p.tail), now, newId)))
  }

  lemma InPart(part: Log, now: int, newId: string, id: string)
    ensures id in ArrivalIds(Arrivals(ReadAll(part), now, newId)) <==> HasId(part, id)
  {
    var xs := Arrivals(ReadAll(part), now, newId);
    ArrivalIdsAre(xs);
    if id in ArrivalIds(xs) {
      var i :| 0 <= i < |xs| && xs[i].msg.id == id;
      assert part[i].msg.id == id;
    }
    if HasId(part, id) {
      var i :| 0 <= i < |part| && part[i].msg.id == id;
      assert xs[i].msg.id == id;
    }
  }

  lemma InRead(part: Log, id: string)
    ensures id in IdSet(Ids(ReadAll(part))) <==> HasId(part, id)
  {
    if HasId(part, id) {
      var i :| 0 <= i < |part| && part[i].msg.id == id;
      assert Ids(ReadAll(part))[i] == id;
    }
  }

  /** A removed id was read, and is neither the summary's nor a retained one. */
  lemma DoomedIff(p: Split, now: int, newId: string, id: string)
    ensures id in Doomed(p, now, newId) <==> HasId(ReadPart(p), id) && !HasId(p.head, id) && !HasId(p.tail, id) && id != newId
  {
    InRead(ReadPart(p), id);
    InPart(p.head, now, newId, id);
    InPart(p.tail, now, newId, id);
  }

  /** Parts of a log with unique ids share none. */
  lemma PartsApart(a: Log, b: Log, c: Log, i: nat)
    requires UniqueIds(a + b + c) && i < |b|
    ensures !HasId(a, b[i].msg.id) && !HasId(c, b[i].msg.id)
  {
    var log := a + b + c;
    assert log[|a| + i] == b[i];
    forall j | 0 <= j < |a| ensures a[j].msg.id != b[i].msg.id { assert log[j] == a[j]; }
    forall j | 0 <= j < |c| ensures c[j].msg.id != b[i].msg.id { assert log[|a| + |b| + j] == c[j]; }
  }

  lemma NotInConcat(a: Log, b: Log, id: string)
    ensures HasId(a + b, id) <==> HasId(a, id) || HasId(b, id)
  {
    if HasId(a, id) { var j :| 0 <= j < |a| && a[j].msg.id == id; assert (a + b)[j].msg.id == id; }
    if HasId(b, id) { var j :| 0 <= j < |b| && b[j].msg.id == id; assert (a + b)[|a| + j].msg.id == id; }
  }

  lemma MiddleDoomed(p: Split, now: int, newId: string, i: nat)
    requires UniqueIds(Whole(p)) && !HasId(Whole(p), newId) && i < |p.middle|
    ensures p.middle[i].msg.id in Doomed(p, now, newId)
  {
    var id := p.middle[i].msg.id;
    var pre, post := p.unread + p.head, p.tail + p.later;
    assert Whole(p) == pre + p.middle + post;
    PartsApart(pre, p.middle, post, i);
    NotInConcat(p.unread, p.head, id);
    NotInConcat(p.tail, p.later, id);
    assert Whole(p)[|pre| + i] == p.middle[i];
    assert ReadPart(p)[|p.head| + i].msg.id == id;
    DoomedIff(p, now, newId, id);
  }

  /** What was not read is not removed. */
  lemma UnreadKept(p: Split, now: int, newId: string, i: nat)
    requires UniqueIds(Whole(p)) && i < |p.unread|
    ensures p.unread[i].msg.id !in Doomed(p, now, newId)
  {
    var id := p.unread[i].msg.id;
    DoomedIff(p, now, newId, id);
    assert Whole(p) == [] + p.unread + (ReadPart(p) + p.later);
    PartsApart([], p.unread, ReadPart(p) + p.later, i);
    NotInConcat(ReadPart(p), p.later, id);
  }

  lemma FrontKept(p: Split, now: int, newId: string, i: nat)
    requires UniqueIds(Whole(p)) && i < |p.unread + p.head|
    ensures (p.unread + p.head)[i].msg.id !in Doomed(p, now, newId)
  {
    if i < |p.unread| {
      UnreadKept(p, now, newId, i);
    } else {
      var id := (p.unread + p.head)[i].msg.id;
      DoomedIff(p, now, newId, id);
      assert p.head[i - |p.unread|].msg.id == id;
    }
  }

  lemma BackKept(p: Split, now: int, newId: string, i: nat)
    requires UniqueIds(Whole(p)) && i < |p.tail + p.later|
    ensures (p.tail + p.later)[i].msg.id !in Doomed(p, now, newId)
  {
    var id := (p.tail + p.later)[i].msg.id;
    DoomedIff(p, now, newId, id);
    if i < |p.tail| {
      assert p.tail[i].msg.id == id;
    } else {
      assert Whole(p) == (p.unread + ReadPart(p)) + p.later + [];
      PartsApart(p.unread + ReadPart(p), p.later, [], i - |p.tail|);
      NotInConcat(p.unread, ReadPart(p), id);
    }
  }

  lemma DoomedParts(p: Split, now: int, newId: string, pre: Log, post: Log)
    requires UniqueIds(Whole(p)) && !HasId(Whole(p), newId)
    requires pre == p.unread + p.head && post == p.tail + p.later
    ensures var doomed := Doomed(p, now, newId);
            Gone(p.middle, doomed) && Spared(pre, doomed) && Spared(post, doomed) && newId !in doomed
  {
    forall i | 0 <= i < |p.middle| ensures p.middle[i].msg.id in Doomed(p, now, newId) { MiddleDoomed(p, now, newId, i); }
    forall i | 0 <= i < |pre| ensures pre[i].msg.id !in Doomed(p, now, newId) { FrontKept(p, now, newId, i); }
    forall i | 0 <= i < |post| ensures post[i].msg.id !in Doomed(p, now, newId) { BackKept(p, now, newId, i); }
  }

  // ---- where the summary lands ----

  /** Everything but the middle. */
  function Kept(p: Split): (log: Log) { (p.unread + p.head) + (p.tail + p.later) }

  /** The removal takes exactly the middle. */
  lemma KeptOf(p: Split, now: int, newId: string)
    requires UniqueIds(Whole(p)) && !HasId(Whole(p), newId)
    ensures Without(Whole(p), Doomed(p, now, newId)) == Kept(p) && newId !in Doomed(p, now, newId)
  {
    var pre, post := p.unread + p.head, p.tail + p.later;
    DoomedParts(p, now, newId, pre, post);
    assert Whole(p) == (pre + p.middle) + post;
    WithoutConcat(pre + p.middle, post, Doomed(p, now, newId));
    WithoutBack(pre, p.middle, Doomed(p, now, newId));
    WithoutNone(post, Doomed(p, now, newId));
  }

  /** An entry that is not removed lands somewhere among those that are kept. */
  lemma {:induction false} WithoutInsert(log: Log, m: Stored, doomed: set<string>) returns (j: nat)
    requires m.msg.id !in doomed
    ensures var kept := Without(log, doomed);
            j <= |kept| && Without(Insert(log, m), doomed) == kept[..j] + [m] + kept[j..]
  {
    var kept := Without(log, doomed);
    if |log| == 0 || Before(log[|log| - 1], m) {
      assert (log + [m])[..|log|] == log;
      j := |kept|;
    } else {
      var n := |log| - 1;
      j := WithoutInsert(log[..n], m, doomed);
      var rest, front := Without(log[..n], doomed), Insert(log[..n], m);
      assert (front + [log[n]])[..|front|] == front;
      if log[n].msg.id !in doomed { LandBefore(rest, m, log[n], j); }
    }
  }

  lemma LandBefore(rest: Log, m: Stored, last: Stored, j: nat)
    requires j <= |rest|
    ensures var kept := rest + [last]; kept[..j] + [m] + kept[j..] == rest[..j] + [m] + rest[j..] + [last]
  {
  }

  lemma LandedContents(kept: Log, m: Stored, j: nat, pre: Log, post: Log)
    requires j <= |kept| && kept == pre + post
    ensures multiset(kept[..j] + [m] + kept[j..]) == multiset(pre + [m] + post)
  {
    var a, b := kept[..j], kept[j..];
    assert kept == a + b;
    assert multiset(a + [m] + b) == multiset(a + b) + multiset{m};
    assert multiset(pre + [m] + post) == multiset(pre + post) + multiset{m};
  }

  /** The time the summary is stored with: that of the first message it stands for, or the clock if that is ahead. */
  function SummaryTime(p: Split, now: int): (ts: int)
    requires p.middle != []
  {
    if p.middle[0].ts > now then now else p.middle[0].ts
  }

  /** No message kept before the summary has a time ahead of the clock. */
  predicate ClockOk(p: Split, now: int) {
    var pre := p.unread + p.head;
    pre != [] ==> pre[|pre| - 1].ts <= now
  }

  /** The first message kept after the summary is strictly later than it. */
  predicate RoomAfter(p: Split, now: int)
    requires p.middle != []
  {
    var post := p.tail + p.later;
    post != [] ==> SummaryTime(p, now) < post[0].ts
  }

  /** The record was stored after all others. */
  ghost predicate Newest(log: Log, m: Stored) {
    forall i :: 0 <= i < |log| ==> log[i].no < m.no
  }

  /** Everything kept before the summary sorts before it. */
  lemma FrontBefore(p: Split, m: Stored, now: int, i: nat)
    requires Sorted(Whole(p)) && p.middle != [] && ClockOk(p, now) && i < |p.unread + p.head|
    requires m.ts == SummaryTime(p, now) && Newest(Whole(p), m)
    ensures Before((p.unread + p.head)[i], m)
  {
    var pre, log := p.unread + p.head, Whole(p);
    var n := |pre|;
    assert log[i] == pre[i] && log[n - 1] == pre[n - 1] && log[n] == p.middle[0];
    assert i < n - 1 ==> Before(log[i], log[n - 1]);
    assert Before(log[i], log[n]);
  }

  /** Everything kept after the summary sorts after it. */
  lemma BackAfter(p: Split, m: Stored, now: int, i: nat)
    requires Sorted(Whole(p)) && p.middle != [] && RoomAfter(p, now) && i < |p.tail + p.later| && m.ts == SummaryTime(p, now)
    ensures Before(m, (p.tail + p.later)[i])
  {
    var post, log := p.tail + p.later, Whole(p);
    var n := |log| - |post|;
    assert log[n] == post[0] && log[n + i] == post[i];
    assert i > 0 ==> Before(log[n], log[n + i]);
  }

  lemma SortedParts(p: Split)
    requires Sorted(Whole(p))
    ensures Sorted(p.unread + p.head) && Sorted(p.tail + p.later)
    ensures forall i, j :: 0 <= i < |p.unread + p.head| && 0 <= j < |p.tail + p.later| ==> Before((p.unread + p.head)[i], (p.tail + p.later)[j])
  {
    var pre, post, log := p.unread + p.head, p.tail + p.later, Whole(p);
    var n := |log| - |post|;
    forall i, j | 0 <= i < j < |pre| ensures Before(pre[i], pre[j]) { assert log[i] == pre[i] && log[j] == pre[j]; }
    forall i, j | 0 <= i < j < |post| ensures Before(post[i], post[j]) { assert log[n + i] == post[i] && log[n + j] == post[j]; }
    forall i, j | 0 <= i < |pre| && 0 <= j < |post| ensures Before(pre[i], post[j]) { assert log[i] == pre[i] && log[n + j] == post[j]; }
  }

  lemma SortedAround(pre: Log, m: Stored, post: Log)
    requires Sorted(pre) && Sorted(post)
    requires forall i, j :: 0 <= i < |pre| && 0 <= j < |post| ==> Before(pre[i], post[j])
    requires forall i :: 0 <= i < |pre| ==> Before(pre[i], m)
    requires forall i :: 0 <= i < |post| ==> Before(m, post[i])
    ensures Sorted(pre + [m] + post)
  {
  }

  /** The summary in the place of its middle is in order exactly when it fits between its neighbours. */
  lemma CompressedSortedIff(p: Split, m: Stored, now: int)
    requires Sorted(Whole(p)) && p.middle != [] && m.ts == SummaryTime(p, now) && Newest(Whole(p), m)
    ensures Sorted(Compressed(p, m)) <==> ClockOk(p, now) && RoomAfter(p, now)
  {
    var pre, post, r := p.unread + p.head, p.tail + p.later, Compressed(p, m);
    assert r == pre + [m] + post;
    var n := |pre|;
    if ClockOk(p, now) && RoomAfter(p, now) {
      SortedParts(p);
      forall i | 0 <= i < n ensures Before(pre[i], m) { FrontBefore(p, m, now, i); }
      forall i | 0 <= i < |post| ensures Before(m, post[i]) { BackAfter(p, m, now, i); }
      SortedAround(pre, m, post);
    }
    if Sorted(r) { SortedNeeds(p, m, now); }
  }

  lemma SortedNeeds(p: Split, m: Stored, now: int)
    requires Sorted(Compressed(p, m)) && p.middle != [] && m.ts == SummaryTime(p, now) && Newest(Whole(p), m)
    ensures ClockOk(p, now) && RoomAfter(p, now)
  {
    var pre, post, r := p.unread + p.head, p.tail + p.later, Compressed(p, m);
    var n := |pre|;
    assert r[n] == m;
    if n > 0 { assert r[n - 1] == pre[n - 1] && Before(r[n - 1], r[n]); }
    if post != [] {
      assert r[n + 1] == post[0] && Before(r[n], r[n + 1]);
      assert Whole(p)[|Whole(p)| - |post|] == post[0];
    }
  }

  // ---- the theorem ----

  /** The session after the messages that were read are replaced. */
  function Replaced(s: Store, session: string, p: Split, identity: string, text: string, now: int, newId: string): (log: Log)
    requires p.middle != []
  {
    LogOf(Replace(s, session, Replacement(p, identity, text, now, newId), Ids(ReadAll(ReadPart(p)))), session)
  }

  /** What the replacement needs: a session split where it was read, a new id, and ids that writing back finds again. */
  ghost predicate Replaceable(s: Store, session: string, p: Split, newId: string) {
    && StoreValid(s) && LogOf(s, session) == Whole(p) && p.middle != []
    && newId != "" && !HasId(Whole(p), newId)
    && SeparatorFree(session, ReadPart(p))
  }

  lemma WholeValid(s: Store, session: string, p: Split, newId: string)
    requires Replaceable(s, session, p, newId)
    ensures Valid(Whole(p), s.seqno)
  {
    assert LogValid(s, session);
  }

  /** The replacement is the insertion of the summary and the removal of what was read and not kept. */
  lemma ReplacedIs(s: Store, session: string, p: Split, identity: string, text: string, now: int, newId: string)
    requires Replaceable(s, session, p, newId)
    ensures Replaced(s, session, p, identity, text, now, newId)
            == Without(Insert(Whole(p), SummaryRecord(p, s.seqno, identity, text, now, newId)), Doomed(p, now, newId))
  {
    ReplacementWrites(s, session, p, identity, text, now, newId);
  }

  lemma ReplacedSorted(s: Store, session: string, p: Split, identity: string, text: string, now: int, newId: string)
    requires Replaceable(s, session, p, newId)
    ensures Sorted(Replaced(s, session, p, identity, text, now, newId))
  {
    var op := ReplaceOp(session, Replacement(p, identity, text, now, newId), Ids(ReadAll(ReadPart(p))));
    DoKeeps(s, op);
    assert LogValid(Do(s, op), session);
  }

  /** Whatever the clock says, the summary lands among the kept messages, and nothing else moves. */
  lemma ReplaceLands(s: Store, session: string, p: Split, identity: string, text: string, now: int, newId: string) returns (j: nat)
    requires Replaceable(s, session, p, newId)
    ensures var kept := Kept(p);
            j <= |kept|
            && Replaced(s, session, p, identity, text, now, newId)
               == kept[..j] + [SummaryRecord(p, s.seqno, identity, text, now, newId)] + kept[j..]
  {
    WholeValid(s, session, p, newId);
    ReplacedIs(s, session, p, identity, text, now, newId);
    KeptOf(p, now, newId);
    j := WithoutInsert(Whole(p), SummaryRecord(p, s.seqno, identity, text, now, newId), Doomed(p, now, newId));
  }

  /**
   Replacing what was read. The result always holds exactly the messages that were
   not read, the retained head, one summary, the retained tail and what arrived
   later, sorted; it holds them in that order if and only if no message kept before
   the summary is ahead of the clock and the first one kept after it is strictly
   later than it.
   */
  lemma ReplaceIff(s: Store, session: string, p: Split, identity: string, text: string, now: int, newId: string)
    requires Replaceable(s, session, p, newId)
    ensures var result := Replaced(s, session, p, identity, text, now, newId);
            var expected := Compressed(p, SummaryRecord(p, s.seqno, identity, text, now, newId));
            && Sorted(result) && multiset(result) == multiset(expected)
            && (result == expected <==> ClockOk(p, now) && RoomAfter(p, now))
  {
    var m := SummaryRecord(p, s.seqno, identity, text, now, newId);
    var result := Replaced(s, session, p, identity, text, now, newId);
    ReplacedSorted(s, session, p, identity, text, now, newId);
    WholeValid(s, session, p, newId);
    var j := ReplaceLands(s, session, p, identity, text, now, newId);
    LandedIs(p, m, j, result);
    CompressedSortedIff(p, m, now);
    SameIffSorted(result, Compressed(p, m));
  }

  lemma LandedIs(p: Split, m: Stored, j: nat, result: Log)
    requires j <= |Kept(p)| && result == Kept(p)[..j] + [m] + Kept(p)[j..]
    ensures multiset(result) == multiset(Compressed(p, m))
  {
    LandedContents(Kept(p), m, j, p.unread + p.head, p.tail + p.later);
    assert (p.unread + p.head) + [m] + (p.tail + p.later) == Compressed(p, m);
  }

  lemma SameIffSorted(result: Log, expected: Log)
    requires Sorted(result) && multiset(result) == multiset(expected)
    ensures result == expected <==> Sorted(expected)
  {
    if Sorted(expected) {
      assert |result| == |multiset(result)| == |multiset(expected)| == |expected|;
      SortedUnique(result, expected, |result|);
    }
  }

  // ---- distinct timestamps ----

  /** Timestamps rise strictly. */
  ghost predicate Rising(log: Log) {
    forall i, j :: 0 <= i < j < |log| ==> log[i].ts < log[j].ts
  }

  lemma KeptRises(p: Split)
    requires Rising(Whole(p))
    ensures Rising(Kept(p))
  {
    var log, r, n := Whole(p), Kept(p), |p.unread + p.head|;
    forall i, j | 0 <= i < j < |r| ensures r[i].ts < r[j].ts {
      var i', j' := if i < n then i else i + |p.middle|, if j < n then j else j + |p.middle|;
      assert r[i] == log[i'] && r[j] == log[j'];
    }
  }

  lemma LandedRisesIff(kept: Log, m: Stored, j: nat)
    requires Rising(kept) && j <= |kept| && Sorted(kept[..j] + [m] + kept[j..])
    ensures Rising(kept[..j] + [m] + kept[j..]) <==> forall i :: 0 <= i < |kept| ==> kept[i].ts != m.ts
  {
    var r := kept[..j] + [m] + kept[j..];
    assert r[j] == m;
    forall i | 0 <= i < j ensures r[i] == kept[i] && kept[i].ts <= m.ts { assert Before(r[i], r[j]); }
    forall i | j <= i < |kept| ensures r[i + 1] == kept[i] && m.ts <= kept[i].ts { assert Before(r[j], r[i + 1]); }
    if Rising(r) {
      forall i | 0 <= i < |kept| ensures kept[i].ts != m.ts {
        if i < j { assert r[i].ts < r[j].ts; } else { assert r[j].ts < r[i + 1].ts; }
      }
    }
    if forall i :: 0 <= i < |kept| ==> kept[i].ts != m.ts {
      forall a, b | 0 <= a < b < |r| ensures r[a].ts < r[b].ts { LandedPair(kept, m, j, a, b); }
    }
  }

  lemma LandedPair(kept: Log, m: Stored, j: nat, a: nat, b: nat)
    requires Rising(kept) && j <= |kept| && a < b <= |kept|
    requires forall i :: 0 <= i < j ==> kept[i].ts < m.ts
    requires forall i :: j <= i < |kept| ==> m.ts < kept[i].ts
    ensures var r := kept[..j] + [m] + kept[j..]; r[a].ts < r[b].ts
  {
    var r := kept[..j] + [m] + kept[j..];
    assert a < j ==> r[a] == kept[a];
    assert b < j ==> r[b] == kept[b];
    assert a > j ==> r[a] == kept[a - 1];
    assert b > j ==> r[b] == kept[b - 1];
  }

  /** Distinct timestamps stay distinct exactly when no kept message has the summary's. */
  lemma StaysRisingIff(s: Store, session: string, p: Split, identity: string, text: string, now: int, newId: string)
    requires Replaceable(s, session, p, newId) && Rising(Whole(p))
    ensures Rising(Replaced(s, session, p, identity, text, now, newId))
            <==> forall i :: 0 <= i < |Kept(p)| ==> Kept(p)[i].ts != SummaryTime(p, now)
  {
    KeptRises(p);
    ReplacedSorted(s, session, p, identity, text, now, newId);
    var j := ReplaceLands(s, session, p, identity, text, now, newId);
    LandedRisesIff(Kept(p), SummaryRecord(p, s.seqno, identity, text, now, newId), j);
  }
}
