/**
 Two sessions the store reaches in which a summary does not land in place: one
 saved faster than its clock advances, and one that an earlier compression left
 with two equal timestamps.
 */
module CompressionWitnesses {
  import opened Options
  import opened History
  import opened SessionHistory
  import opened CompressionReplace

  /** The session, three messages of a user, and the new ids of two summaries. */
  datatype Names = Names(session: string, a: string, b: string, c: string, n1: string, n2: string)

  ghost predicate Good(x: Names) {
    && SEPARATOR !in x.session
    && x.a != "" && x.b != "" && x.c != "" && x.n1 != "" && x.n2 != ""
    && x.a != x.b && x.a != x.c && x.b != x.c
    && x.n1 != x.a && x.n1 != x.b && x.n1 != x.c
    && x.n2 != x.a && x.n2 != x.b && x.n2 != x.c && x.n2 != x.n1
  }

  lemma GoodNames()
    ensures Good(Names("s", "a", "b", "c", "n", "m"))
  {
    assert "a"[0] != "b"[0] && "a"[0] != "c"[0] && "b"[0] != "c"[0];
    assert "n"[0] !in {'a', 'b', 'c'} && "m"[0] !in {'a', 'b', 'c', 'n'};
  }

  function Text(id: string): (m: Message) { Message(id, "", "u", "user", "hello", None) }

  function Saved(no: nat, ts: int, id: string): (m: Stored) { Stored(no, ts, Text(id)) }

  /** Three messages saved while the clock reads 5. */
  function Saves(x: Names): (ops: seq<Op>) {
    [SaveOp(x.session, [Arrival(Text(x.a), 5, ""), Arrival(Text(x.b), 5, ""), Arrival(Text(x.c), 5, "")])]
  }

  function Three(x: Names): (log: Log) { [Saved(1, 5, x.a), Saved(2, 6, x.b), Saved(3, 7, x.c)] }

  lemma SaveText(s: Store, session: string, id: string, log: Log, ts: int)
    requires id != "" && StoreValid(s) && LogOf(s, session) == log && !HasId(log, id) && Clamp(log, 5) == ts
    ensures var t := SaveOne(s, session, Arrival(Text(id), 5, ""), true);
            LogOf(t, session) == log + [Saved(s.seqno + 1, ts, id)] && t.seqno == s.seqno + 1 && StoreValid(t)
  {
    SaveOneKeeps(s, session, Arrival(Text(id), 5, ""), true);
    assert LogValid(s, session);
    AppendIsLast(log, s.seqno, session, Text(id), 5, "");
  }

  lemma ClampOnce(log: Log, last: Stored, ts: int)
    ensures Clamp(log + [last], ts) == var before := Clamp(log, ts); if last.ts >= before then last.ts + 1 else before
  {
    assert (log + [last])[..|log|] == log;
  }

  lemma SaveAllThree(s: Store, session: string, a: Arrival, b: Arrival, c: Arrival)
    ensures SaveAll(s, session, [a, b, c], true) == SaveOne(SaveOne(SaveOne(s, session, a, true), session, b, true), session, c, true)
  {
    assert [a, b, c][..2] == [a, b] && [a, b][..1] == [a] && [a][..0] == [];
    assert SaveAll(s, session, [], true) == s;
    assert SaveAll(s, session, [a], true) == SaveOne(s, session, a, true);
    assert SaveAll(s, session, [a, b], true) == SaveOne(SaveOne(s, session, a, true), session, b, true);
  }

  lemma ClampThree(x: Names)
    ensures Clamp([Saved(1, 5, x.a)], 5) == 6 && Clamp([Saved(1, 5, x.a), Saved(2, 6, x.b)], 5) == 7
  {
    var one := [Saved(1, 5, x.a)];
    assert [] + one == one && one + [Saved(2, 6, x.b)] == [Saved(1, 5, x.a), Saved(2, 6, x.b)];
    ClampOnce([], Saved(1, 5, x.a), 5);
    ClampOnce(one, Saved(2, 6, x.b), 5);
  }

  lemma SaveOneText(x: Names, s0: Store)
    requires Good(x) && s0 == Store(map[], 0)
    ensures var s := SaveOne(s0, x.session, Arrival(Text(x.a), 5, ""), true);
            StoreValid(s) && LogOf(s, x.session) == [Saved(1, 5, x.a)] && s.seqno == 1
  {
    EmptyValid();
    SaveText(s0, x.session, x.a, [], 5);
  }

  lemma SaveTwoTexts(x: Names, s1: Store)
    requires Good(x) && StoreValid(s1) && LogOf(s1, x.session) == [Saved(1, 5, x.a)] && s1.seqno == 1
    ensures var s := SaveOne(s1, x.session, Arrival(Text(x.b), 5, ""), true);
            StoreValid(s) && LogOf(s, x.session) == [Saved(1, 5, x.a), Saved(2, 6, x.b)] && s.seqno == 2
  {
    ClampThree(x);
    SaveText(s1, x.session, x.b, [Saved(1, 5, x.a)], 6);
  }

  lemma SaveThreeTexts(x: Names, s2: Store)
    requires Good(x) && StoreValid(s2) && LogOf(s2, x.session) == [Saved(1, 5, x.a), Saved(2, 6, x.b)] && s2.seqno == 2
    ensures var s := SaveOne(s2, x.session, Arrival(Text(x.c), 5, ""), true);
            StoreValid(s) && LogOf(s, x.session) == Three(x) && s.seqno == 3
  {
    ClampThree(x);
    SaveText(s2, x.session, x.c, [Saved(1, 5, x.a), Saved(2, 6, x.b)], 7);
  }

  lemma SaveThree(x: Names, s0: Store)
    requires Good(x) && s0 == Store(map[], 0)
    ensures var s := SaveAll(s0, x.session, [Arrival(Text(x.a), 5, ""), Arrival(Text(x.b), 5, ""), Arrival(Text(x.c), 5, "")], true);
            StoreValid(s) && LogOf(s, x.session) == Three(x) && s.seqno == 3
  {
    var a, b, c := Arrival(Text(x.a), 5, ""), Arrival(Text(x.b), 5, ""), Arrival(Text(x.c), 5, "");
    SaveAllThree(s0, x.session, a, b, c);
    SaveOneText(x, s0);
    SaveTwoTexts(x, SaveOne(s0, x.session, a, true));
    SaveThreeTexts(x, SaveOne(SaveOne(s0, x.session, a, true), x.session, b, true));
  }

  /** The clamp spreads them over three timestamps, two of them ahead of the clock. */
  lemma ThreeSaves(x: Names)
    requires Good(x)
    ensures var s := DoAll(Store(map[], 0), Saves(x)); StoreValid(s) && LogOf(s, x.session) == Three(x) && s.seqno == 3
  {
    SaveThree(x, Store(map[], 0));
    assert DoAll(Store(map[], 0), Saves(x)[..0]) == Store(map[], 0);
  }

  // ---- the clock lags behind what is kept ----

  function Late(x: Names): (p: Split) { Split([], [Saved(1, 5, x.a), Saved(2, 6, x.b)], [Saved(3, 7, x.c)], [], []) }

  lemma ThreeReplaceable(s: Store, x: Names, p: Split)
    requires Good(x) && StoreValid(s) && LogOf(s, x.session) == Three(x) && Whole(p) == ReadPart(p) == Three(x) && p.middle != []
    ensures Replaceable(s, x.session, p, x.n1)
  {
  }

  /** Compressed at clock 5 behind a head that reaches 6, the summary does not land behind that head. */
  lemma ClockCanLag(x: Names)
    requires Good(x)
    ensures var s := DoAll(Store(map[], 0), Saves(x));
            && Replaceable(s, x.session, Late(x), x.n1) && !ClockOk(Late(x), 5) && RoomAfter(Late(x), 5)
            && Replaced(s, x.session, Late(x), "bot", "sum", 5, x.n1)
               != Compressed(Late(x), SummaryRecord(Late(x), s.seqno, "bot", "sum", 5, x.n1))
  {
    ThreeSaves(x);
    LateResult(DoAll(Store(map[], 0), Saves(x)), x);
  }

  lemma LateResult(s: Store, x: Names)
    requires Good(x) && StoreValid(s) && LogOf(s, x.session) == Three(x)
    ensures Replaceable(s, x.session, Late(x), x.n1) && !ClockOk(Late(x), 5) && RoomAfter(Late(x), 5)
    ensures Replaced(s, x.session, Late(x), "bot", "sum", 5, x.n1)
            != Compressed(Late(x), SummaryRecord(Late(x), s.seqno, "bot", "sum", 5, x.n1))
  {
    LateFits(x);
    ThreeReplaceable(s, x, Late(x));
    ReplaceIff(s, x.session, Late(x), "bot", "sum", 5, x.n1);
  }

  lemma LateFits(x: Names)
    ensures Whole(Late(x)) == Three(x) && ReadPart(Late(x)) == Three(x) && !ClockOk(Late(x), 5) && RoomAfter(Late(x), 5)
  {
  }

  // ---- two equal timestamps ----

  function First(x: Names): (p: Split) { Split([], [Saved(1, 5, x.a)], [Saved(2, 6, x.b)], [Saved(3, 7, x.c)], []) }

  function Summary1(x: Names): (m: Stored) { Stored(4, 5, Message(x.n1, "", "bot", "assistant", "one", None)) }

  function Equal(x: Names): (log: Log) { [Saved(1, 5, x.a), Summary1(x), Saved(3, 7, x.c)] }

  function FirstReplacement(x: Names): (op: Op) {
    ReplaceOp(x.session, Replacement(First(x), "bot", "one", 5, x.n1), Ids(ReadAll(ReadPart(First(x)))))
  }

  /** The saves, then a compression at the same clock that keeps one message on either side. */
  function Lagging(x: Names): (ops: seq<Op>) { Saves(x) + [FirstReplacement(x)] }

  lemma FirstInPlace(s: Store, x: Names)
    requires Good(x) && StoreValid(s) && LogOf(s, x.session) == Three(x) && s.seqno == 3
    ensures Replaced(s, x.session, First(x), "bot", "one", 5, x.n1) == Equal(x)
  {
    FirstFits(x);
    ThreeReplaceable(s, x, First(x));
    ReplaceIff(s, x.session, First(x), "bot", "one", 5, x.n1);
  }

  lemma FirstFits(x: Names)
    ensures Whole(First(x)) == Three(x) && ReadPart(First(x)) == Three(x)
    ensures ClockOk(First(x), 5) && RoomAfter(First(x), 5)
    ensures Compressed(First(x), SummaryRecord(First(x), 3, "bot", "one", 5, x.n1)) == Equal(x)
  {
  }

  lemma FirstLands(x: Names)
    requires Good(x)
    ensures var s := DoAll(Store(map[], 0), Lagging(x)); StoreValid(s) && LogOf(s, x.session) == Equal(x)
  {
    ThreeSaves(x);
    FirstInPlace(DoAll(Store(map[], 0), Saves(x)), x);
    assert Lagging(x)[..1] == Saves(x) && Lagging(x)[1] == FirstReplacement(x);
    EveryRunStaysSorted(Lagging(x), x.session);
  }

  function Second(x: Names): (p: Split) { Split([], [], [Saved(1, 5, x.a)], [Summary1(x), Saved(3, 7, x.c)], []) }

  lemma EqualReplaceable(s: Store, x: Names)
    requires Good(x) && StoreValid(s) && LogOf(s, x.session) == Equal(x)
    ensures Replaceable(s, x.session, Second(x), x.n2)
  {
    assert Whole(Second(x)) == Equal(x) && ReadPart(Second(x)) == Equal(x);
  }

  /** The next compression, at a clock ahead of everything, does not put its summary before the first one. */
  lemma EqualTimesMoveSummary(x: Names)
    requires Good(x)
    ensures var s := DoAll(Store(map[], 0), Lagging(x));
            && Replaceable(s, x.session, Second(x), x.n2) && (forall i :: 0 <= i < |Whole(Second(x))| ==> Whole(Second(x))[i].ts <= 100)
            && ClockOk(Second(x), 100) && !RoomAfter(Second(x), 100)
            && Replaced(s, x.session, Second(x), "bot", "two", 100, x.n2)
               != Compressed(Second(x), SummaryRecord(Second(x), s.seqno, "bot", "two", 100, x.n2))
  {
    FirstLands(x);
    SecondResult(DoAll(Store(map[], 0), Lagging(x)), x);
  }

  lemma SecondResult(s: Store, x: Names)
    requires Good(x) && StoreValid(s) && LogOf(s, x.session) == Equal(x)
    ensures Replaceable(s, x.session, Second(x), x.n2) && (forall i :: 0 <= i < |Whole(Second(x))| ==> Whole(Second(x))[i].ts <= 100)
    ensures ClockOk(Second(x), 100) && !RoomAfter(Second(x), 100)
    ensures Replaced(s, x.session, Second(x), "bot", "two", 100, x.n2)
            != Compressed(Second(x), SummaryRecord(Second(x), s.seqno, "bot", "two", 100, x.n2))
  {
    EqualReplaceable(s, x);
    SecondFits(x);
    ReplaceIff(s, x.session, Second(x), "bot", "two", 100, x.n2);
  }

  lemma SecondFits(x: Names)
    ensures (forall i :: 0 <= i < |Whole(Second(x))| ==> Whole(Second(x))[i].ts <= 100)
    ensures ClockOk(Second(x), 100) && !RoomAfter(Second(x), 100)
  {
    assert Whole(Second(x)) == Equal(x);
  }
}
