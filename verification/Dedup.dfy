/**
 The message deduplicator: a map of live deliveries and a FIFO eviction queue,
 proved to answer as a plain history of admissions would.
 */
module Dedup {

  /** Five minutes, in nanoseconds. */
  const DefaultTtl: int := 300_000_000_000
  const DefaultCapacity: nat := 1024

  datatype Key = Key(platform: string, conversation: string, source: string)

  datatype Admission = Admission(key: Key, at: int)

  /** The history's answer: admitted less than `ttl` ago, with fewer than `cap` admissions since. */
  ghost predicate Refused(history: seq<Admission>, key: Key, at: int, ttl: int, cap: nat) {
    exists i :: 0 <= i < |history| && history[i].key == key && at - history[i].at < ttl && |history| - 1 - i < cap
  }

  /** The clock does not go back. */
  ghost predicate Chronological(history: seq<Admission>) {
    forall i, j :: 0 <= i < j < |history| ==> history[i].at <= history[j].at
  }

  ghost predicate Past(history: seq<Admission>, clock: int) {
    forall i :: 0 <= i < |history| ==> history[i].at <= clock
  }

  ghost predicate Distinct(s: seq<Key>) {
    forall i, j {:trigger Differ(s, i, j)} :: Differ(s, i, j)
  }

  ghost predicate Differ(s: seq<Key>, i: int, j: int) {
    0 <= i < j < |s| ==> s[i] != s[j]
  }

  /** The last key of a duplicate-free listing is not among the others, which are duplicate-free too. */
  lemma DistinctLast(s: seq<Key>, n: nat)
    requires Distinct(s) && n < |s|
    ensures s[n] !in s[..n] && Distinct(s[..n])
  {
    forall i | 0 <= i < n ensures s[..n][i] != s[n] { assert Differ(s, i, n); }
    forall i, j ensures Differ(s[..n], i, j) { assert Differ(s, i, j); }
  }

  lemma DistinctSnoc(s: seq<Key>, key: Key)
    requires Distinct(s) && key !in s
    ensures Distinct(s + [key])
  {
    forall i, j ensures Differ(s + [key], i, j) { assert Differ(s, i, j); }
  }

  function Elements(s: seq<Key>): (r: set<Key>) { set key | key in s }

  /** The map and the queue list the same keys, the queue without duplicates. */
  ghost predicate Listed(order: seq<Key>, entries: map<Key, int>) {
    Distinct(order) && entries.Keys == Elements(order)
  }

  /** The keys of a run of admissions, and the time of each. */
  function KeysOf(q: seq<Admission>): (r: seq<Key>)
  {
    seq(|q|, i requires 0 <= i < |q| => q[i].key)
  }

  function TimesOf(q: seq<Admission>): (r: map<Key, int>)
    ensures r.Keys == Elements(KeysOf(q))
  {
    if |q| == 0 then map[]
    else
      var n := |q| - 1;
      assert KeysOf(q) == KeysOf(q[..n]) + [q[n].key];
      TimesOf(q[..n])[q[n].key := q[n].at]
  }

  lemma {:induction false} TimesAt(q: seq<Admission>, i: nat)
    requires Distinct(KeysOf(q)) && i < |q|
    ensures q[i].key in TimesOf(q) && TimesOf(q)[q[i].key] == q[i].at
  {
    var n := |q| - 1;
    if i < n {
      assert Differ(KeysOf(q), i, n);
      KeysOfPart(q, 0, n);
      assert q[0..n] == q[..n];
      TimesAt(q[..n], i);
    }
  }

  lemma {:induction false} KeysOfPart(q: seq<Admission>, lo: nat, hi: nat)
    requires Distinct(KeysOf(q)) && lo <= hi <= |q|
    ensures KeysOf(q[lo..hi]) == KeysOf(q)[lo..hi] && Distinct(KeysOf(q[lo..hi]))
  {
    var r := KeysOf(q[lo..hi]);
    assert r == KeysOf(q)[lo..hi];
    forall j, k ensures Differ(r, j, k) {
      assert Differ(KeysOf(q), lo + j, lo + k);
      if 0 <= j < k < |r| { assert r[j] == KeysOf(q)[lo + j] && r[k] == KeysOf(q)[lo + k]; }
    }
  }

  /** The end of a queue. */
  lemma {:induction false} KeysOfEnd(q: seq<Admission>, e: nat)
    requires Distinct(KeysOf(q)) && e <= |q|
    ensures KeysOf(q[e..]) == KeysOf(q)[e..] && Distinct(KeysOf(q[e..]))
  {
    KeysOfPart(q, e, |q|);
    assert q[e..|q|] == q[e..] && KeysOf(q)[e..|q|] == KeysOf(q)[e..];
  }

  /** Evicting the oldest of the queue. */
  lemma {:induction false} TimesOfTail(q: seq<Admission>)
    requires Distinct(KeysOf(q)) && |q| > 0
    ensures KeysOf(q[1..]) == KeysOf(q)[1..] && KeysOf(q)[0] == q[0].key && Distinct(KeysOf(q[1..]))
    ensures TimesOf(q[1..]) == TimesOf(q) - {q[0].key} && |TimesOf(q)| == |q|
  {
    KeysOfEnd(q, 1);
    assert KeysOf(q)[0] == q[0].key;
    DistinctSize(KeysOf(q));
    assert |TimesOf(q)| == |TimesOf(q).Keys|;
    forall i | 0 < i < |q| ensures q[i].key in TimesOf(q) && q[i].key != q[0].key {
      TimesAt(q, i);
      assert Differ(KeysOf(q), 0, i);
    }
    SameTimes(q, 1, TimesOf(q) - {q[0].key});
  }

  /** A map with the keys and times of the queue's end is its map. */
  lemma {:induction false} SameTimes(q: seq<Admission>, e: nat, m: map<Key, int>)
    requires Distinct(KeysOf(q)) && e <= |q|
    requires forall key :: key in m ==> EndEntry(q, e, key) && m[key] == TimesOf(q)[key]
    requires forall i :: e <= i < |q| ==> q[i].key in m
    ensures m == TimesOf(q[e..])
  {
    var r := q[e..];
    forall key | key in m ensures key in TimesOf(r) && m[key] == TimesOf(r)[key] {
      EndTime(q, e, key);
    }
    forall j | 0 <= j < |r| ensures KeysOf(r)[j] in m {
      assert q[e + j] == r[j];
    }
    assert TimesOf(r).Keys <= m.Keys;
  }

  ghost predicate EndEntry(q: seq<Admission>, e: nat, key: Key) {
    key in TimesOf(q) && e <= |q| && forall i :: 0 <= i < e ==> q[i].key != key
  }

  /** A key of the queue that is not in its front has its time in the end. */
  lemma {:induction false} EndTime(q: seq<Admission>, e: nat, key: Key)
    requires Distinct(KeysOf(q)) && EndEntry(q, e, key)
    ensures key in TimesOf(q[e..]) && TimesOf(q[e..])[key] == TimesOf(q)[key]
  {
    var i :| 0 <= i < |q| && KeysOf(q)[i] == key;
    assert q[i].key == key;
    TimesAt(q, i);
    KeysOfEnd(q, e);
    assert q[e..][i - e] == q[i];
    TimesAt(q[e..], i - e);
  }

  /** The map and the queue hold the deliveries of `q`, oldest first. */
  ghost predicate Queued(q: seq<Admission>, order: seq<Key>, entries: map<Key, int>) {
    Distinct(order) && order == KeysOf(q) && entries == TimesOf(q)
  }

  /** The queue is the end of the history. */
  ghost predicate Ends(history: seq<Admission>, q: seq<Admission>) {
    |q| <= |history| && q == history[|history| - |q|..]
  }

  /** What left the queue is too old, or will have `cap` admissions behind it after `coming` more. */
  ghost predicate Forgotten(history: seq<Admission>, lo: nat, clock: int, ttl: int, cap: nat, coming: nat) {
    forall i :: 0 <= i < lo && i < |history| ==> clock - history[i].at >= ttl || |history| - 1 - i + coming >= cap
  }

  // ---- the filters ----

  function Unexpired(order: seq<Key>, entries: map<Key, int>, at: int, ttl: int): (r: seq<Key>) {
    if |order| == 0 then []
    else
      var rest := Unexpired(order[..|order| - 1], entries, at, ttl);
      var key := order[|order| - 1];
      if key in entries && at - entries[key] < ttl then rest + [key] else rest
  }

  function Without(order: seq<Key>, key: Key): (r: seq<Key>) {
    if |order| == 0 then []
    else
      var rest := Without(order[..|order| - 1], key);
      if order[|order| - 1] == key then rest else rest + [order[|order| - 1]]
  }

  lemma {:induction false} WithoutIs(order: seq<Key>, key: Key)
    requires Distinct(order)
    ensures Distinct(Without(order, key)) && forall x :: x in Without(order, key) <==> x in order && x != key
  {
    if |order| > 0 {
      var n := |order| - 1;
      DistinctLast(order, n);
      WithoutIs(order[..n], key);
      assert order == order[..n] + [order[n]];
      if order[n] != key { DistinctSnoc(Without(order[..n], key), order[n]); }
    }
  }

  /** Dropping an expired key first makes no difference to the sweep. */
  lemma {:induction false} SweepAfterDrop(order: seq<Key>, entries: map<Key, int>, key: Key, at: int, ttl: int)
    requires key in entries ==> at - entries[key] >= ttl
    ensures Unexpired(Without(order, key), entries - {key}, at, ttl) == Unexpired(order, entries, at, ttl)
  {
    if |order| > 0 {
      var n := |order| - 1;
      SweepAfterDrop(order[..n], entries, key, at, ttl);
      var rest := Without(order[..n], key);
      if order[n] != key { assert (rest + [order[n]])[..|rest|] == rest; }
    }
  }

  /** Times rise along the queue, so what is unexpired is its end. */
  lemma {:induction false} UnexpiredIsEnd(q: seq<Admission>, n: nat, entries: map<Key, int>, at: int, ttl: int)
    returns (e: nat)
    requires n <= |q| && Chronological(q)
    requires forall i :: 0 <= i < |q| ==> q[i].key in entries && entries[q[i].key] == q[i].at
    ensures e <= n && Unexpired(KeysOf(q)[..n], entries, at, ttl) == KeysOf(q)[..n][e..]
    ensures forall i :: 0 <= i < e ==> at - q[i].at >= ttl
    ensures forall i :: e <= i < n ==> at - q[i].at < ttl
  {
    if n == 0 {
      e := 0;
    } else {
      e := UnexpiredIsEnd(q, n - 1, entries, at, ttl);
      var keys := KeysOf(q)[..n];
      assert keys[..n - 1] == KeysOf(q)[..n - 1] && keys[n - 1] == q[n - 1].key;
      if at - q[n - 1].at >= ttl {
        forall i | 0 <= i < n ensures at - q[i].at >= ttl { assert i < n - 1 ==> q[i].at <= q[n - 1].at; }
        e := n;
      } else {
        assert KeysOf(q)[..n - 1][e..] + [keys[n - 1]] == keys[e..];
      }
    }
  }

  /** The live deliveries the sweep leaves. */
  function LiveAt(entries: map<Key, int>, at: int, ttl: int): (r: map<Key, int>) {
    map key | key in entries && at - entries[key] < ttl :: entries[key]
  }

  /** The live deliveries when only the front of the queue has been swept. */
  function LivePast(entries: map<Key, int>, front: seq<Key>, at: int, ttl: int): (r: map<Key, int>) {
    map key | key in entries && (key in front ==> at - entries[key] < ttl) :: entries[key]
  }

  lemma LiveStep(entries: map<Key, int>, order: seq<Key>, i: nat, at: int, ttl: int)
    requires Distinct(order) && i < |order| && order[i] in entries
    ensures var live, next := LivePast(entries, order[..i], at, ttl), LivePast(entries, order[..i + 1], at, ttl);
            && order[i] in live && live[order[i]] == entries[order[i]]
            && next == if at - entries[order[i]] < ttl then live else live - {order[i]}
  {
    assert order[..i + 1] == order[..i] + [order[i]];
    DistinctLast(order, i);
  }

  lemma LiveDone(entries: map<Key, int>, order: seq<Key>, at: int, ttl: int)
    requires Listed(order, entries)
    ensures LivePast(entries, order, at, ttl) == LiveAt(entries, at, ttl)
  {
  }

  /** The sweep leaves the end of a queue. */
  lemma {:induction false} SweepOfQueue(q: seq<Admission>, at: int, ttl: int) returns (e: nat)
    requires Distinct(KeysOf(q)) && Chronological(q)
    ensures e <= |q| && Unexpired(KeysOf(q), TimesOf(q), at, ttl) == KeysOf(q[e..])
    ensures LiveAt(TimesOf(q), at, ttl) == TimesOf(q[e..])
    ensures Distinct(KeysOf(q[e..])) && forall i :: 0 <= i < e ==> at - q[i].at >= ttl
  {
    forall i | 0 <= i < |q| ensures q[i].key in TimesOf(q) && TimesOf(q)[q[i].key] == q[i].at { TimesAt(q, i); }
    e := UnexpiredIsEnd(q, |q|, TimesOf(q), at, ttl);
    assert KeysOf(q)[..|q|] == KeysOf(q);
    KeysOfEnd(q, e);
    SameTimes(q, e, LiveAt(TimesOf(q), at, ttl));
  }

  ghost predicate Expired(gone: seq<Admission>, at: int, ttl: int) {
    forall i :: 0 <= i < |gone| ==> at - gone[i].at >= ttl
  }

  /** Dropping an expired key and sweeping leaves the end of the queue, and forgets only what is too old. */
  lemma SweepResult(q: seq<Admission>, order: seq<Key>, entries: map<Key, int>, key: Key, at: int, ttl: int,
                    swept: seq<Key>, live: map<Key, int>) returns (gone: seq<Admission>, rest: seq<Admission>)
    requires Queued(q, order, entries) && Chronological(q) && (key in entries ==> at - entries[key] >= ttl)
    requires swept == Unexpired(Without(order, key), entries - {key}, at, ttl) && live == LiveAt(entries - {key}, at, ttl)
    ensures q == gone + rest && Queued(rest, swept, live) && key !in live && Expired(gone, at, ttl)
  {
    SweepAfterDrop(order, entries, key, at, ttl);
    LiveAfterDrop(entries, key, at, ttl);
    var n := SweepOfQueue(q, at, ttl);
    gone, rest := q[..n], q[n..];
  }

  lemma LiveAfterDrop(entries: map<Key, int>, key: Key, at: int, ttl: int)
    requires key in entries ==> at - entries[key] >= ttl
    ensures LiveAt(entries - {key}, at, ttl) == LiveAt(entries, at, ttl) && key !in LiveAt(entries, at, ttl)
  {
  }

  /** The map without the first `n` keys of the queue. */
  function DropFront(entries: map<Key, int>, order: seq<Key>, n: nat): (r: map<Key, int>)
    requires n <= |order|
  {
    if n == 0 then entries else DropFront(entries, order, n - 1) - {order[n - 1]}
  }

  lemma {:induction false} DropFrontKeys(entries: map<Key, int>, order: seq<Key>, n: nat)
    requires n <= |order|
    ensures DropFront(entries, order, n).Keys == entries.Keys - Elements(order[..n])
  {
    if n > 0 {
      DropFrontKeys(entries, order, n - 1);
      assert order[..n] == order[..n - 1] + [order[n - 1]];
    }
  }

  lemma DropFrontHas(entries: map<Key, int>, order: seq<Key>, n: nat)
    requires Listed(order, entries) && n < |order|
    ensures order[n] in DropFront(entries, order, n)
  {
    DropFrontKeys(entries, order, n);
    DistinctLast(order, n);
    assert order[n] in Elements(order);
  }

  /** Each key of the queue that is dropped was in the map. */
  lemma {:induction false} DropFrontSize(entries: map<Key, int>, order: seq<Key>, n: nat)
    requires Listed(order, entries) && n <= |order|
    ensures |DropFront(entries, order, n)| == |order| - n
  {
    if n == 0 {
      ListedSize(order, entries);
    } else {
      DropFrontSize(entries, order, n - 1);
      DropFrontHas(entries, order, n - 1);
      SizeLess(DropFront(entries, order, n - 1), order[n - 1]);
    }
  }

  ghost predicate FrontSize(entries: map<Key, int>, order: seq<Key>, n: nat) {
    n <= |order| ==> |DropFront(entries, order, n)| == |order| - n
  }

  /** Every key of the queue is in the map until it is dropped. */
  ghost predicate FrontSizes(entries: map<Key, int>, order: seq<Key>) {
    forall n: nat {:trigger FrontSize(entries, order, n)} :: FrontSize(entries, order, n)
  }

  lemma ListedSizes(order: seq<Key>, entries: map<Key, int>)
    requires Listed(order, entries)
    ensures FrontSizes(entries, order)
  {
    forall n: nat ensures FrontSize(entries, order, n) { if n <= |order| { DropFrontSize(entries, order, n); } }
  }

  lemma SizeLess(m: map<Key, int>, key: Key)
    requires key in m
    ensures |m - {key}| == |m| - 1
  {
    assert (m - {key}).Keys == m.Keys - {key};
    assert |m| == |m.Keys| && |m - {key}| == |(m - {key}).Keys|;
  }

  /** Dropping from the front leaves the end of the queue. */
  lemma {:induction false} DropFrontIs(q: seq<Admission>, n: nat)
    requires Distinct(KeysOf(q)) && n <= |q|
    ensures DropFront(TimesOf(q), KeysOf(q), n) == TimesOf(q[n..])
  {
    if n == 0 {
      assert q[0..] == q;
    } else {
      DropFrontIs(q, n - 1);
      KeysOfEnd(q, n - 1);
      TimesOfTail(q[n - 1..]);
      TailOfEnd(q, n - 1);
    }
  }

  lemma TailOfEnd(q: seq<Admission>, n: nat)
    requires n < |q|
    ensures q[n..][1..] == q[n + 1..] && q[n..][0] == q[n] && KeysOf(q)[n] == q[n].key
  {
  }

  /** What the trim leaves is the end of the queue. */
  lemma TrimResult(q: seq<Admission>, order: seq<Key>, entries: map<Key, int>, n: nat, queue: seq<Key>, live: map<Key, int>)
    returns (gone: seq<Admission>, rest: seq<Admission>)
    requires Queued(q, order, entries) && n <= |order| && queue == order[n..] && live == DropFront(entries, order, n)
    ensures q == gone + rest && |gone| == n && Queued(rest, queue, live) && live.Keys <= entries.Keys
  {
    DropFrontIs(q, n);
    KeysOfEnd(q, n);
    DropFrontKeys(entries, order, n);
    gone, rest := q[..n], q[n..];
  }

  lemma QueueListed(q: seq<Admission>, order: seq<Key>, entries: map<Key, int>)
    requires Queued(q, order, entries)
    ensures Listed(order, entries)
  {
  }

  lemma QueueSizes(q: seq<Admission>, order: seq<Key>, entries: map<Key, int>)
    requires Queued(q, order, entries)
    ensures FrontSizes(entries, order) && |order| == |q|
  {
    QueueListed(q, order, entries);
    ListedSizes(order, entries);
  }

  /** What has left a queue of `size` is too old, or has `cap` admissions behind it once one more has come. */
  ghost predicate Spent(gone: seq<Admission>, size: nat, at: int, ttl: int, cap: nat) {
    forall i :: 0 <= i < |gone| ==> at - gone[i].at >= ttl || size - i >= cap
  }

  lemma BothSpent(a: seq<Admission>, b: seq<Admission>, rest: seq<Admission>, at: int, ttl: int, cap: nat)
    requires Expired(a, at, ttl) && (|b| > 0 ==> |rest| >= cap - 1)
    ensures Spent(a + b, |a + b + rest|, at, ttl, cap)
  {
  }

  lemma {:induction false} DistinctSize(s: seq<Key>)
    requires Distinct(s)
    ensures |Elements(s)| == |s|
  {
    if |s| > 0 {
      var n := |s| - 1;
      DistinctLast(s, n);
      DistinctSize(s[..n]);
      assert Elements(s) == Elements(s[..n]) + {s[n]};
    }
  }

  lemma ListedSize(order: seq<Key>, entries: map<Key, int>)
    requires Listed(order, entries)
    ensures |entries| == |order|
  {
    assert |entries| == |entries.Keys|;
    DistinctSize(order);
  }

  /** The queue is what the history still needs at this clock. */
  ghost predicate Kept(history: seq<Admission>, q: seq<Admission>, clock: int, ttl: int, cap: nat) {
    && Ends(history, q) && Forgotten(history, |history| - |q|, clock, ttl, cap, 0)
    && Chronological(history) && Past(history, clock)
  }

  lemma KeptLater(history: seq<Admission>, q: seq<Admission>, clock: int, later: int, ttl: int, cap: nat)
    requires Kept(history, q, clock, ttl, cap) && clock <= later
    ensures Kept(history, q, later, ttl, cap)
  {
  }

  /** What the history refuses is still in the queue. */
  lemma RefusedIsQueued(history: seq<Admission>, q: seq<Admission>, clock: int, key: Key, at: int, ttl: int, cap: nat)
    requires Kept(history, q, clock, ttl, cap) && clock <= at && Refused(history, key, at, ttl, cap)
    ensures exists k :: 0 <= k < |q| && q[k].key == key && at - q[k].at < ttl
  {
    var i :| 0 <= i < |history| && history[i].key == key && at - history[i].at < ttl && |history| - 1 - i < cap;
    var lo := |history| - |q|;
    assert i >= lo;
    assert history[i] == q[i - lo];
  }

  /** What is in a queue of at most `cap` is refused while it lives. */
  lemma QueuedIsRefused(history: seq<Admission>, q: seq<Admission>, k: nat, at: int, ttl: int, cap: nat)
    requires Ends(history, q) && k < |q| <= cap && at - q[k].at < ttl
    ensures Refused(history, q[k].key, at, ttl, cap)
  {
    var i := |history| - |q| + k;
    assert history[i] == q[k];
  }

  /** A live entry is a delivery in the queue. */
  lemma EntryIsQueued(q: seq<Admission>, order: seq<Key>, entries: map<Key, int>, key: Key) returns (k: nat)
    requires Queued(q, order, entries) && key in entries
    ensures k < |q| && q[k].key == key && q[k].at == entries[key]
  {
    k :| 0 <= k < |q| && KeysOf(q)[k] == key;
    TimesAt(q, k);
  }

  lemma QueuedIsEntry(q: seq<Admission>, order: seq<Key>, entries: map<Key, int>, k: nat)
    requires Queued(q, order, entries) && k < |q|
    ensures q[k].key in entries && entries[q[k].key] == q[k].at && |order| == |q|
  {
    TimesAt(q, k);
  }

  class MessageDeduplicator {
    const ttl: int
    const cap: nat
    var entries: map<Key, int>
    var order: seq<Key>
    ghost var history: seq<Admission>
    /** The admissions still in the queue. */
    ghost var q: seq<Admission>
    ghost var clock: int

    ghost predicate Valid()
      reads this
    {
      ttl > 0 && cap > 0 && Kept(history, q, clock, ttl, cap) && Queued(q, order, entries) && |order| <= cap
    }

    /** NewMessageDeduplicator; a zero or negative setting selects the default. */
    constructor (ttl: int, capacity: int, now: int)
      ensures Valid() && history == [] && clock == now
      ensures (this.ttl == if ttl <= 0 then DefaultTtl else ttl) && (cap == if capacity <= 0 then DefaultCapacity else capacity)
    {
      this.ttl := if ttl <= 0 then DefaultTtl else ttl;
      cap := if capacity <= 0 then DefaultCapacity else capacity;
      entries, order, history, q, clock := map[], [], [], [], now;
    }

    /** The queue is a duplicate-free listing of the live keys, never more than `cap`. */
    lemma OrderListsEntries()
      requires Valid()
      ensures Distinct(order) && Elements(order) == entries.Keys && |entries| == |order| <= cap
    {
      ListedSize(order, entries);
    }

    /** A live entry answers exactly as the history would. */
    lemma LiveIffRefused(key: Key, at: int)
      requires Valid() && at >= clock
      ensures (key in entries && at - entries[key] < ttl) <==> Refused(history, key, at, ttl, cap)
    {
      if key in entries && at - entries[key] < ttl {
        var k := EntryIsQueued(q, order, entries, key);
        QueuedIsEntry(q, order, entries, k);
        QueuedIsRefused(history, q, k, at, ttl, cap);
      }
      if Refused(history, key, at, ttl, cap) {
        RefusedIsQueued(history, q, clock, key, at, ttl, cap);
        var k :| 0 <= k < |q| && q[k].key == key && at - q[k].at < ttl;
        QueuedIsEntry(q, order, entries, k);
      }
    }

    /** Drop the queue slots of a key. */
    static method DropKey(order: seq<Key>, key: Key) returns (kept: seq<Key>)
      ensures kept == Without(order, key)
    {
      kept := [];
      for i := 0 to |order|
        invariant kept == Without(order[..i], key)
      {
        assert order[..i + 1][..i] == order[..i];
        if order[i] != key { kept := kept + [order[i]]; }
      }
      assert order[..|order|] == order;
    }

    /** The sweep of evictLocked: drop every expired delivery, oldest first. */
    static method Sweep(order: seq<Key>, entries: map<Key, int>, at: int, ttl: int) returns (kept: seq<Key>, live: map<Key, int>)
      requires Listed(order, entries)
      ensures kept == Unexpired(order, entries, at, ttl) && live == LiveAt(entries, at, ttl)
    {
      kept, live := [], entries;
      assert live == LivePast(entries, order[..0], at, ttl);
      for i := 0 to |order|
        invariant kept == Unexpired(order[..i], entries, at, ttl)
        invariant live == LivePast(entries, order[..i], at, ttl)
      {
        var key := order[i];
        LiveStep(entries, order, i, at, ttl);
        assert order[..i + 1][..i] == order[..i];
        if at - live[key] < ttl { kept := kept + [key]; } else { live := live - {key}; }
      }
      assert order[..|order|] == order;
      LiveDone(entries, order, at, ttl);
    }

    /** The rest of evictLocked: evict the `n` oldest live deliveries, each while there was no room for one more. */
    static method Trim(order: seq<Key>, entries: map<Key, int>, cap: nat) returns (queue: seq<Key>, live: map<Key, int>, ghost n: nat)
      requires cap > 0 && FrontSizes(entries, order)
      ensures n <= |order| && queue == order[n..] && live == DropFront(entries, order, n)
      ensures |queue| < cap && (n > 0 ==> |queue| >= cap - 1)
    {
      queue, live, n := order, entries, 0;
      assert FrontSize(entries, order, 0);
      while |live| >= cap
        invariant n <= |order| && queue == order[n..] && live == DropFront(entries, order, n) && FrontSize(entries, order, n)
        invariant n > 0 ==> |queue| >= cap - 1
        decreases |queue|
      {
        queue, live := queue[1..], live - {queue[0]};
        n := n + 1;
        assert FrontSize(entries, order, n);
      }
    }

    /** The re-arm of an expired key and the sweep of evictLocked. */
    static method DropExpired(order: seq<Key>, entries: map<Key, int>, ttl: int, key: Key, at: int, ghost q: seq<Admission>)
      returns (queue: seq<Key>, live: map<Key, int>, ghost gone: seq<Admission>, ghost rest: seq<Admission>)
      requires Queued(q, order, entries) && Chronological(q) && (key in entries ==> at - entries[key] >= ttl)
      ensures q == gone + rest && Queued(rest, queue, live) && key !in live && Expired(gone, at, ttl)
    {
      QueueListed(q, order, entries);
      queue, live := DropStale(order, entries, key);
      queue, live := Sweep(queue, live, at, ttl);
      gone, rest := SweepResult(q, order, entries, key, at, ttl, queue, live);
    }

    /** The eviction of evictLocked, on the queue that is left. */
    static method TrimQueue(order: seq<Key>, entries: map<Key, int>, cap: nat, ghost q: seq<Admission>)
      returns (queue: seq<Key>, live: map<Key, int>, ghost gone: seq<Admission>, ghost rest: seq<Admission>)
      requires cap > 0 && Queued(q, order, entries)
      ensures q == gone + rest && Queued(rest, queue, live) && |queue| == |rest| < cap && (|gone| > 0 ==> |rest| >= cap - 1)
      ensures live.Keys <= entries.Keys
    {
      QueueSizes(q, order, entries);
      ghost var n;
      queue, live, n := Trim(order, entries, cap);
      gone, rest := TrimResult(q, order, entries, n, queue, live);
    }

    /** Room for one more delivery: what leaves the queue is spent. */
    static method MakeRoom(order: seq<Key>, entries: map<Key, int>, cap: nat, ttl: int, key: Key, at: int, ghost q: seq<Admission>)
      returns (queue: seq<Key>, live: map<Key, int>, ghost gone: seq<Admission>, ghost rest: seq<Admission>)
      requires cap > 0 && Queued(q, order, entries) && Chronological(q) && (key in entries ==> at - entries[key] >= ttl)
      ensures q == gone + rest && Queued(rest, queue, live) && |queue| < cap && key !in live && Spent(gone, |q|, at, ttl, cap)
    {
      ghost var a, b, c;
      queue, live, a, c := DropExpired(order, entries, ttl, key, at, q);
      queue, live, b, rest := TrimQueue(queue, live, cap, c);
      gone := a + b;
      BothSpent(a, b, rest, at, ttl, cap);
    }

    /** An expired key is re-armed from its fresh delivery. */
    static method DropStale(order: seq<Key>, entries: map<Key, int>, key: Key) returns (queue: seq<Key>, live: map<Key, int>)
      requires Listed(order, entries)
      ensures queue == Without(order, key) && live == entries - {key} && Listed(queue, live)
    {
      WithoutIs(order, key);
      queue, live := order, entries;
      if key in entries {
        queue := DropKey(order, key);
        live := live - {key};
      } else {
        WithoutAbsent(order, key);
        assert entries - {key} == entries;
      }
    }

    /** Admit; a message with no source id passes without a record. */
    method Admit(key: Key, at: int) returns (admitted: bool)
      requires Valid() && at >= clock
      modifies this
      ensures Valid() && clock == at
      ensures admitted == (key.source == "" || !Refused(old(history), key, at, ttl, cap))
      ensures history == if admitted && key.source != "" then old(history) + [Admission(key, at)] else old(history)
      ensures key.source == "" ==> entries == old(entries) && order == old(order)
    {
      if key.source == "" {
        KeptLater(history, q, clock, at, ttl, cap);
        clock := at;
        return true;
      }
      LiveIffRefused(key, at);
      if key in entries && at - entries[key] < ttl {
        KeptLater(history, q, clock, at, ttl, cap);
        clock := at;
        return false;
      }
      order, entries, q := Record(order, entries, cap, ttl, key, at, history, q, clock);
      history, clock := history + [Admission(key, at)], at;
      return true;
    }

    /** The last lines of Admit: the delivery is recorded behind what is left of the queue. */
    static method Record(order: seq<Key>, entries: map<Key, int>, cap: nat, ttl: int, key: Key, at: int,
                         ghost history: seq<Admission>, ghost q: seq<Admission>, ghost clock: int)
      returns (queue: seq<Key>, live: map<Key, int>, ghost end: seq<Admission>)
      requires cap > 0 && Kept(history, q, clock, ttl, cap) && Queued(q, order, entries) && clock <= at
      requires key in entries ==> at - entries[key] >= ttl
      ensures Kept(history + [Admission(key, at)], end, at, ttl, cap) && Queued(end, queue, live) && |queue| <= cap
    {
      ChronologicalEnd(history, q);
      ghost var gone, rest;
      queue, live, gone, rest := MakeRoom(order, entries, cap, ttl, key, at, q);
      AdmissionKept(history, q, gone, rest, clock, key, at, ttl, cap);
      QueuedRecord(rest, queue, live, key, at);
      queue, live, end := queue + [key], live[key := at], rest + [Admission(key, at)];
    }
  }

  lemma ChronologicalEnd(history: seq<Admission>, q: seq<Admission>)
    requires Chronological(history) && Ends(history, q)
    ensures Chronological(q)
  {
    var lo := |history| - |q|;
    forall i, j | 0 <= i < j < |q| ensures q[i].at <= q[j].at { assert q[i] == history[lo + i] && q[j] == history[lo + j]; }
  }

  /** A delivery recorded at the back of the queue. */
  lemma QueuedRecord(q: seq<Admission>, order: seq<Key>, entries: map<Key, int>, key: Key, at: int)
    requires Queued(q, order, entries) && key !in entries
    ensures Queued(q + [Admission(key, at)], order + [key], entries[key := at])
  {
    var q' := q + [Admission(key, at)];
    assert q'[..|q|] == q;
    assert key !in order;
    DistinctSnoc(order, key);
  }

  /** The history with one more admission, once the front of the queue is spent. */
  lemma AdmissionKept(history: seq<Admission>, q: seq<Admission>, gone: seq<Admission>, rest: seq<Admission>,
                      clock: int, key: Key, at: int, ttl: int, cap: nat)
    requires Kept(history, q, clock, ttl, cap) && q == gone + rest && clock <= at && Spent(gone, |q|, at, ttl, cap)
    ensures Kept(history + [Admission(key, at)], rest + [Admission(key, at)], at, ttl, cap)
  {
    var now, end := history + [Admission(key, at)], rest + [Admission(key, at)];
    var lo := |history| - |q|;
    assert end == now[lo + |gone|..];
    forall i | 0 <= i < lo + |gone| ensures at - now[i].at >= ttl || |now| - 1 - i >= cap {
      if i >= lo { assert history[i] == q[i - lo] == gone[i - lo]; }
    }
  }

  lemma {:induction false} WithoutAbsent(order: seq<Key>, key: Key)
    requires key !in order
    ensures Without(order, key) == order
  {
    if |order| > 0 { WithoutAbsent(order[..|order| - 1], key); }
  }
}
