/**
 A session's stored conversation: messages ordered by (timestamp, sequence),
 identified by canonical ids. Times are milliseconds; a message with no time of
 its own has `at == None`. `now` and the ids of unsourced messages come from
 outside.
 */
module History {
  import opened Options

  datatype Message = Message(id: string, source: string, sender: string, role: string, text: string, at: Option<int>)

  datatype Stored = Stored(no: nat, ts: int, msg: Message)

  type Log = seq<Stored>

  const SEPARATOR := '\0'

  /** The legacy id: a name-based UUID of the pair joined by the separator. */
  function LegacyId(session: string, source: string): (id: string) {
    "v1:" + session + [SEPARATOR] + source
  }

  function Length(n: nat): (s: string)
    decreases n
  {
    if n == 0 then "" else Length(n - 1) + "i"
  }

  /** The id for inputs that contain the separator: a UUID of the length-prefixed pair, in another namespace. */
  function PairId(session: string, source: string): (id: string) {
    "v2:" + Length(|session|) + ":" + session + source
  }

  predicate HasSeparator(session: string, source: string) {
    SEPARATOR in session || SEPARATOR in source
  }

  /** canonicalMessageIDs: the current id, and the legacy id where it differs. */
  function CanonicalId(session: string, source: string): (id: string) {
    if HasSeparator(session, source) then PairId(session, source) else LegacyId(session, source)
  }

  function CompatibleLegacyId(session: string, source: string): (id: string) {
    if HasSeparator(session, source) then LegacyId(session, source) else ""
  }

  /** The id saveMessage gives a message. */
  function IdOf(session: string, msg: Message, newId: string): (id: string) {
    if msg.id != "" then msg.id
    else if msg.source == "" then newId
    else CanonicalId(session, msg.source)
  }

  /** The legacy id saveMessage also looks for. */
  function LegacyOf(session: string, msg: Message, newId: string): (id: string) {
    if msg.source != "" && IdOf(session, msg, newId) == CanonicalId(session, msg.source)
    then CompatibleLegacyId(session, msg.source) else ""
  }

  predicate HasId(log: Log, id: string) {
    exists i :: 0 <= i < |log| && log[i].msg.id == id
  }

  /** The id a message lives under once it is saved. */
  function HomeOf(log: Log, session: string, msg: Message, newId: string): (id: string) {
    var legacy := LegacyOf(session, msg, newId);
    if legacy != "" && HasId(log, legacy) then legacy else IdOf(session, msg, newId)
  }

  /** stamp: a missing or future time becomes now. */
  function Stamp(msg: Message, now: int): (ts: int) {
    if msg.at.None? || msg.at.value > now then now else msg.at.value
  }

  /** The append path's timestamp: past every stored one. */
  function Clamp(log: Log, ts: int): (r: int)
    ensures r >= ts
    ensures forall i :: 0 <= i < |log| ==> log[i].ts < r
    ensures (forall i :: 0 <= i < |log| ==> log[i].ts < ts) ==> r == ts
  {
    if |log| == 0 then ts
    else
      var before := Clamp(log[..|log| - 1], ts);
      if log[|log| - 1].ts >= before then log[|log| - 1].ts + 1 else before
  }

  predicate Before(a: Stored, b: Stored) {
    a.ts < b.ts || (a.ts == b.ts && a.no < b.no)
  }

  ghost predicate Sorted(log: Log) {
    forall i, j :: 0 <= i < j < |log| ==> Before(log[i], log[j])
  }

  ghost predicate UniqueIds(log: Log) {
    forall i, j :: 0 <= i < j < |log| ==> log[i].msg.id != log[j].msg.id
  }

  ghost predicate SeqsUpTo(log: Log, seqno: nat) {
    forall i :: 0 <= i < |log| ==> log[i].no <= seqno
  }

  ghost predicate Valid(log: Log, seqno: nat) {
    Sorted(log) && UniqueIds(log) && SeqsUpTo(log, seqno)
  }

  /** The sorted log with one more entry: what sorting the appended log gives. */
  function Insert(log: Log, m: Stored): (r: Log)
    ensures |r| == |log| + 1
  {
    if |log| == 0 || Before(log[|log| - 1], m) then log + [m]
    else Insert(log[..|log| - 1], m) + [log[|log| - 1]]
  }

  /** The record saveMessage builds for a message it has not stored. */
  function Record(log: Log, seqno: nat, session: string, msg: Message, now: int, newId: string, clamp: bool): (m: Stored) {
    var ts := Stamp(msg, now);
    Stored(seqno + 1, if clamp then Clamp(log, ts) else ts,
           msg.(id := IdOf(session, msg, newId), role := if msg.role == "" then "user" else msg.role, at := None))
  }

  /** saveMessage: a message whose home is already taken changes nothing. */
  function Save(log: Log, seqno: nat, session: string, msg: Message, now: int, newId: string, clamp: bool): (r: Log) {
    if HasId(log, HomeOf(log, session, msg, newId)) then log
    else Insert(log, Record(log, seqno, session, msg, now, newId, clamp))
  }

  function SeqAfter(log: Log, seqno: nat, session: string, msg: Message, newId: string): (r: nat) {
    if HasId(log, HomeOf(log, session, msg, newId)) then seqno else seqno + 1
  }

  /** Everything except the doomed ids. */
  function Without(log: Log, doomed: set<string>): (r: Log) {
    if |log| == 0 then []
    else
      var rest := Without(log[..|log| - 1], doomed);
      if log[|log| - 1].msg.id in doomed then rest else rest + [log[|log| - 1]]
  }

  function Recent(log: Log, n: int): (r: Log) {
    if n <= 0 then [] else if |log| <= n then log else log[|log| - n..]
  }

  function DropRecent(log: Log, n: int): (r: Log) {
    if n <= 0 then log else if |log| <= n then [] else log[..|log| - n]
  }

  /** A stored message as it is read back. */
  function Read(m: Stored): (r: Message) { m.msg.(at := Some(m.ts)) }

  function ReadAll(log: Log): (r: seq<Message>)
    ensures |r| == |log| && forall i :: 0 <= i < |log| ==> r[i] == Read(log[i])
  {
    seq(|log|, i requires 0 <= i < |log| => Read(log[i]))
  }

  // ---- insertion ----

  /** Insertion puts an entry exactly between what is before it and what is after it. */
  lemma {:induction false} InsertAt(log: Log, m: Stored, k: nat)
    requires k <= |log|
    requires k > 0 ==> Before(log[k - 1], m)
    requires forall i :: k <= i < |log| ==> Before(m, log[i])
    ensures Insert(log, m) == log[..k] + [m] + log[k..]
  {
    if k < |log| {
      var n := |log| - 1;
      InsertAt(log[..n], m, k);
      assert log[..n][..k] == log[..k];
      assert log[..n][k..] + [log[n]] == log[k..];
      calc {
        Insert(log, m);
        Insert(log[..n], m) + [log[n]];
        log[..k] + [m] + log[..n][k..] + [log[n]];
        log[..k] + [m] + (log[..n][k..] + [log[n]]);
        log[..k] + [m] + log[k..];
      }
    } else {
      assert log[..k] == log && log[k..] == [];
    }
  }

  /** A new entry has a place in every sorted log. */
  lemma {:induction false} Slot(log: Log, m: Stored) returns (k: nat)
    requires Sorted(log) && forall i :: 0 <= i < |log| ==> log[i].no < m.no
    ensures k <= |log|
    ensures forall i :: 0 <= i < k ==> Before(log[i], m)
    ensures forall i :: k <= i < |log| ==> Before(m, log[i])
  {
    k := |log|;
    while k > 0 && !Before(log[k - 1], m)
      invariant k <= |log|
      invariant forall i :: k <= i < |log| ==> Before(m, log[i])
    {
      k := k - 1;
    }
  }

  /** Sorted logs of the same entries end alike. */
  lemma SameLast(a: Log, b: Log, n: nat)
    requires Sorted(a) && Sorted(b) && |a| == |b| == n + 1
    requires a[n] in b && b[n] in a
    ensures a[n] == b[n]
  {
    var i :| 0 <= i <= n && b[i] == a[n];
    var j :| 0 <= j <= n && a[j] == b[n];
    assert i == n || Before(b[i], b[n]);
    assert j == n || Before(a[j], a[n]);
  }

  lemma DropLast(a: Log, n: nat)
    requires |a| == n + 1
    ensures multiset(a[..n]) == multiset(a) - multiset{a[n]}
  {
    assert a == a[..n] + [a[n]];
  }

  /** Dropping the last entries of sorted logs of the same entries leaves such logs. */
  lemma PeelLast(a: Log, b: Log, n: nat)
    requires Sorted(a) && Sorted(b) && multiset(a) == multiset(b) && |a| == |b| == n + 1
    ensures a[n] == b[n] && Sorted(a[..n]) && Sorted(b[..n]) && multiset(a[..n]) == multiset(b[..n])
  {
    assert a[n] in multiset(b) && b[n] in multiset(a);
    SameLast(a, b, n);
    DropLast(a, n);
    DropLast(b, n);
  }

  /** Sorting has one result, so any sort of the appended log is the insertion. */
  lemma {:induction false} SortedUnique(a: Log, b: Log, n: nat)
    requires Sorted(a) && Sorted(b) && multiset(a) == multiset(b) && |a| == |b| == n
    ensures a == b
    decreases n
  {
    if n > 0 {
      PeelLast(a, b, n - 1);
      SortedUnique(a[..n - 1], b[..n - 1], n - 1);
      assert a == a[..n - 1] + [a[n - 1]] == b[..n - 1] + [b[n - 1]] == b;
    }
  }

  lemma InsertSorted(log: Log, m: Stored)
    requires Sorted(log) && forall i :: 0 <= i < |log| ==> log[i].no < m.no
    ensures Sorted(Insert(log, m))
  {
    var k := Slot(log, m);
    InsertAt(log, m, k);
  }

  lemma {:induction false} InsertAdds(log: Log, m: Stored)
    ensures multiset(Insert(log, m)) == multiset(log) + multiset{m}
  {
    if |log| > 0 && !Before(log[|log| - 1], m) {
      var n := |log| - 1;
      InsertAdds(log[..n], m);
      assert log == log[..n] + [log[n]];
    }
  }

  /** The store sorts after appending; on a sorted log that is insertion. */
  lemma InsertIsSort(log: Log, m: Stored, sorted: Log)
    requires Sorted(log) && forall i :: 0 <= i < |log| ==> log[i].no < m.no
    requires Sorted(sorted) && multiset(sorted) == multiset(log) + multiset{m}
    ensures sorted == Insert(log, m)
  {
    InsertSorted(log, m);
    InsertAdds(log, m);
    assert |sorted| == |multiset(sorted)| == |multiset(Insert(log, m))| == |log| + 1;
    SortedUnique(sorted, Insert(log, m), |log| + 1);
  }

  // ---- what every operation keeps ----

  lemma SaveKeeps(log: Log, seqno: nat, session: string, msg: Message, now: int, newId: string, clamp: bool)
    requires Valid(log, seqno)
    ensures var r := Save(log, seqno, session, msg, now, newId, clamp);
            && Valid(r, SeqAfter(log, seqno, session, msg, newId))
            && HasId(r, HomeOf(log, session, msg, newId))
  {
    if !HasId(log, HomeOf(log, session, msg, newId)) {
      InsertValid(log, seqno, Record(log, seqno, session, msg, now, newId, clamp));
    }
  }

  /** A record with the next sequence number and an id that is not stored keeps a log in order. */
  lemma InsertValid(log: Log, seqno: nat, m: Stored)
    requires Valid(log, seqno) && m.no == seqno + 1 && !HasId(log, m.msg.id)
    ensures Valid(Insert(log, m), seqno + 1) && HasId(Insert(log, m), m.msg.id)
  {
    var k := Slot(log, m);
    InsertAt(log, m, k);
    ValidAround(log, seqno, m, k);
  }

  lemma ValidAround(log: Log, seqno: nat, m: Stored, k: nat)
    requires Valid(log, seqno) && m.no == seqno + 1 && !HasId(log, m.msg.id) && k <= |log|
    requires forall i :: 0 <= i < k ==> Before(log[i], m)
    requires forall i :: k <= i < |log| ==> Before(m, log[i])
    ensures Valid(log[..k] + [m] + log[k..], seqno + 1) && HasId(log[..k] + [m] + log[k..], m.msg.id)
  {
    var r := log[..k] + [m] + log[k..];
    assert r[k].msg.id == m.msg.id;
    forall i | 0 <= i < |log| ensures log[i].msg.id != m.msg.id { }
  }

  /** An append that stores anything stores it after everything else. */
  lemma AppendIsLast(log: Log, seqno: nat, session: string, msg: Message, now: int, newId: string)
    requires Valid(log, seqno)
    ensures var r := Save(log, seqno, session, msg, now, newId, true);
            if HasId(log, HomeOf(log, session, msg, newId)) then r == log
            else r == log + [Record(log, seqno, session, msg, now, newId, true)]
                 && forall i :: 0 <= i < |log| ==> log[i].ts < r[|log|].ts
  {
  }

  /** A message that is still stored under the id it was given is not stored again, whatever happened since. */
  lemma RedeliveryChangesNothing(log: Log, session: string, msg: Message, newId: string,
                                 later: Log, seqno: nat, now: int, newId': string, clamp: bool)
    requires msg.source != ""
    requires HasId(later, HomeOf(log, session, msg, newId))
    ensures Save(later, seqno, session, msg, now, newId', clamp) == later
  {
  }

  lemma {:induction false} WithoutIs(log: Log, doomed: set<string>)
    ensures forall i :: 0 <= i < |Without(log, doomed)| ==>
              Without(log, doomed)[i] in log && Without(log, doomed)[i].msg.id !in doomed
    ensures forall i :: 0 <= i < |log| && log[i].msg.id !in doomed ==> log[i] in Without(log, doomed)
  {
    if |log| > 0 { WithoutIs(log[..|log| - 1], doomed); }
  }

  lemma {:induction false} WithoutKeeps(log: Log, seqno: nat, doomed: set<string>)
    requires Valid(log, seqno)
    ensures Valid(Without(log, doomed), seqno)
  {
    if |log| > 0 {
      var n := |log| - 1;
      WithoutKeeps(log[..n], seqno, doomed);
      WithoutIs(log[..n], doomed);
      var rest := Without(log[..n], doomed);
      forall i | 0 <= i < |rest| ensures Before(rest[i], log[n]) && rest[i].msg.id != log[n].msg.id {
        assert rest[i] in log[..n];
      }
    }
  }

  lemma {:induction false} WithoutConcat(a: Log, b: Log, doomed: set<string>)
    ensures Without(a + b, doomed) == Without(a, doomed) + Without(b, doomed)
  {
    if |b| == 0 {
      assert a + b == a;
    } else {
      var n := |b| - 1;
      WithoutConcat(a, b[..n], doomed);
      assert (a + b)[..|a + b| - 1] == a + b[..n];
    }
  }

  lemma {:induction false} WithoutAll(log: Log, doomed: set<string>)
    requires forall i :: 0 <= i < |log| ==> log[i].msg.id in doomed
    ensures Without(log, doomed) == []
  {
    if |log| > 0 { WithoutAll(log[..|log| - 1], doomed); }
  }

  lemma {:induction false} WithoutNone(log: Log, doomed: set<string>)
    requires forall i :: 0 <= i < |log| ==> log[i].msg.id !in doomed
    ensures Without(log, doomed) == log
  {
    if |log| > 0 { WithoutNone(log[..|log| - 1], doomed); }
  }
}
