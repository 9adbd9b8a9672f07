/**
 The sliding-window limiter: the pruned hit logs of every key answer as a full log of
 the allowed requests would, so evicting a stale key is never seen.
 */
module RateLimit {

  datatype Key = Key(platform: string, user: string)

  datatype Hit = Hit(key: Key, at: int)

  /** The hits strictly after the cutoff, in order. */
  function After(hits: seq<int>, cutoff: int): (r: seq<int>) {
    if |hits| == 0 then []
    else
      var rest := After(hits[..|hits| - 1], cutoff);
      if hits[|hits| - 1] > cutoff then rest + [hits[|hits| - 1]] else rest
  }

  /** hasHitAfter. */
  predicate HasHit(hits: seq<int>, cutoff: int) {
    exists i :: 0 <= i < |hits| && hits[i] > cutoff
  }

  function LogOf(hits: map<Key, seq<int>>, key: Key): (r: seq<int>) {
    if key in hits then hits[key] else []
  }

  // ---- one call, on values ----

  /** Allow: prune the key's log to the window, then record the request if there is room. */
  function Request(hits: map<Key, seq<int>>, key: Key, now: int, window: int, max: int): (r: (map<Key, seq<int>>, bool)) {
    var live := After(LogOf(hits, key), now - window);
    if |live| >= max then (hits[key := live], false) else (hits[key := live + [now]], true)
  }

  /** EvictStale: only keys with a hit in the window stay. */
  function Evict(hits: map<Key, seq<int>>, now: int, window: int): (r: map<Key, seq<int>>) {
    map key | key in hits && HasHit(hits[key], now - window) :: hits[key]
  }

  // ---- whole runs against a full log ----

  datatype Call = Allow(key: Key, now: int) | EvictStale(now: int)

  /** The clock does not go back. */
  ghost predicate Chronological(calls: seq<Call>, clock: int) {
    calls != [] ==> calls[0].now >= clock && Chronological(calls[1..], calls[0].now)
  }

  /** The answers the limiter gives, request by request. */
  function Answers(hits: map<Key, seq<int>>, calls: seq<Call>, window: int, max: int): (r: seq<bool>)
    decreases |calls|
  {
    if calls == [] then []
    else match calls[0]
      case EvictStale(now) => Answers(Evict(hits, now, window), calls[1..], window, max)
      case Allow(key, now) =>
        var next := Request(hits, key, now, window, max);
        [next.1] + Answers(next.0, calls[1..], window, max)
  }

  /** How many requests of the key were allowed in (from, to]. */
  function Allowed(log: seq<Hit>, key: Key, from: int, to: int): (n: nat) {
    if log == [] then 0
    else
      var last := log[|log| - 1];
      Allowed(log[..|log| - 1], key, from, to) + if last.key == key && from < last.at <= to then 1 else 0
  }

  /** The answers of the specification, which keeps every allowed request and knows no eviction. */
  function SpecAnswers(log: seq<Hit>, calls: seq<Call>, window: int, max: int): (r: seq<bool>)
    decreases |calls|
  {
    if calls == [] then []
    else match calls[0]
      case EvictStale(_) => SpecAnswers(log, calls[1..], window, max)
      case Allow(key, now) =>
        var ok := Allowed(log, key, now - window, now) < max;
        [ok] + SpecAnswers(LogAfter(log, key, now, window, max), calls[1..], window, max)
  }

  /** The full log of one key. */
  function TimesFor(log: seq<Hit>, key: Key): (r: seq<int>) {
    if log == [] then []
    else
      var last := log[|log| - 1];
      TimesFor(log[..|log| - 1], key) + if last.key == key then [last.at] else []
  }

  ghost predicate Past(log: seq<Hit>, clock: int) {
    forall i :: 0 <= i < |log| ==> log[i].at <= clock
  }

  /** For every key, the kept hits after the cutoff are those of the full log. */
  ghost predicate Agree(hits: map<Key, seq<int>>, log: seq<Hit>, cutoff: int) {
    forall key: Key :: AgreeOn(hits, log, key, cutoff)
  }

  ghost predicate AgreeOn(hits: map<Key, seq<int>>, log: seq<Hit>, key: Key, cutoff: int) {
    After(LogOf(hits, key), cutoff) == After(TimesFor(log, key), cutoff)
  }

  // ---- facts about the filter ----

  lemma {:induction false} AfterAppend(s: seq<int>, x: int, cutoff: int)
    ensures After(s + [x], cutoff) == After(s, cutoff) + if x > cutoff then [x] else []
  {
    assert (s + [x])[..|s|] == s;
  }

  lemma {:induction false} AfterAfter(s: seq<int>, early: int, late: int)
    requires early <= late
    ensures After(After(s, early), late) == After(s, late)
  {
    if |s| > 0 {
      var n := |s| - 1;
      AfterAfter(s[..n], early, late);
      AfterAppend(After(s[..n], early), s[n], late);
    }
  }

  /** The length of the pruned full log is the number of allowed requests in the window. */
  lemma {:induction false} AfterCounts(log: seq<Hit>, key: Key, from: int, to: int)
    requires Past(log, to)
    ensures |After(TimesFor(log, key), from)| == Allowed(log, key, from, to)
  {
    if log != [] {
      var n := |log| - 1;
      AfterCounts(log[..n], key, from, to);
      var times := TimesFor(log[..n], key);
      AfterAppend(times, log[n].at, from);
      assert log[n].key != key ==> TimesFor(log, key) == times;
    }
  }

  lemma {:induction false} AgreeLater(hits: map<Key, seq<int>>, log: seq<Hit>, early: int, late: int)
    requires Agree(hits, log, early) && early <= late
    ensures Agree(hits, log, late)
  {
    forall key: Key ensures AgreeOn(hits, log, key, late) {
      assert AgreeOn(hits, log, key, early);
      AfterAfter(LogOf(hits, key), early, late);
      AfterAfter(TimesFor(log, key), early, late);
    }
  }

  /** Evicting a key without a live hit changes nothing after the cutoff. */
  lemma EvictAgrees(hits: map<Key, seq<int>>, log: seq<Hit>, now: int, window: int)
    requires Agree(hits, log, now - window)
    ensures Agree(Evict(hits, now, window), log, now - window)
  {
    var cutoff, left := now - window, Evict(hits, now, window);
    forall key: Key ensures AgreeOn(left, log, key, cutoff) {
      assert AgreeOn(hits, log, key, cutoff);
      HasHitIs(LogOf(hits, key), cutoff);
    }
  }

  /** The eviction test asks exactly whether pruning would leave nothing. */
  lemma {:induction false} HasHitIs(s: seq<int>, cutoff: int)
    ensures HasHit(s, cutoff) <==> After(s, cutoff) != []
  {
    if |s| > 0 {
      var n := |s| - 1;
      HasHitIs(s[..n], cutoff);
      if i :| 0 <= i < |s| && s[i] > cutoff { assert i < n ==> s[..n][i] > cutoff; }
    }
  }

  /** One request: the answer counts the window of the full log, and the agreement is kept. */
  lemma {:induction false} RequestAgrees(hits: map<Key, seq<int>>, log: seq<Hit>, key: Key, now: int, window: int, max: int)
    requires Agree(hits, log, now - window) && Past(log, now)
    ensures var r := Request(hits, key, now, window, max);
            && r.1 == (Allowed(log, key, now - window, now) < max)
            && Agree(r.0, if r.1 then log + [Hit(key, now)] else log, now - window)
  {
    var r := Request(hits, key, now, window, max);
    var cutoff := now - window;
    var was := LogOf(hits, key);
    var log' := if r.1 then log + [Hit(key, now)] else log;
    assert AgreeOn(hits, log, key, cutoff);
    AfterCounts(log, key, cutoff, now);
    forall k: Key ensures AgreeOn(r.0, log', k, cutoff) {
      assert AgreeOn(hits, log, k, cutoff);
      assert (log + [Hit(key, now)])[..|log|] == log;
      if k == key {
        AfterAfter(was, cutoff, cutoff);
        AfterAppend(After(was, cutoff), now, cutoff);
        AfterAppend(TimesFor(log, key), now, cutoff);
      } else {
        assert TimesFor(log', k) == TimesFor(log, k);
      }
    }
  }

  /** The pruned logs stand for the full log at this clock. */
  ghost predicate Follows(hits: map<Key, seq<int>>, log: seq<Hit>, clock: int, window: int) {
    Agree(hits, log, clock - window) && Past(log, clock)
  }

  /** The full log after a request. */
  function LogAfter(log: seq<Hit>, key: Key, now: int, window: int, max: int): (r: seq<Hit>) {
    if Allowed(log, key, now - window, now) < max then log + [Hit(key, now)] else log
  }

  lemma EvictFollows(hits: map<Key, seq<int>>, log: seq<Hit>, clock: int, now: int, window: int)
    requires Follows(hits, log, clock, window) && clock <= now
    ensures Follows(Evict(hits, now, window), log, now, window)
  {
    AgreeLater(hits, log, clock - window, now - window);
    EvictAgrees(hits, log, now, window);
  }

  lemma RequestFollows(hits: map<Key, seq<int>>, log: seq<Hit>, clock: int, key: Key, now: int, window: int, max: int)
    requires Follows(hits, log, clock, window) && clock <= now
    ensures var r := Request(hits, key, now, window, max);
            && r.1 == (Allowed(log, key, now - window, now) < max)
            && Follows(r.0, LogAfter(log, key, now, window, max), now, window)
  {
    AgreeLater(hits, log, clock - window, now - window);
    RequestAgrees(hits, log, key, now, window, max);
  }

  /** Every run answers as the full log does. */
  lemma {:induction false} RunMeetsSpec(hits: map<Key, seq<int>>, log: seq<Hit>, calls: seq<Call>, clock: int, window: int, max: int)
    requires Follows(hits, log, clock, window) && Chronological(calls, clock)
    ensures Answers(hits, calls, window, max) == SpecAnswers(log, calls, window, max)
    decreases |calls|
  {
    if calls != [] {
      var now, rest := calls[0].now, calls[1..];
      match calls[0]
      case EvictStale(_) =>
        EvictFollows(hits, log, clock, now, window);
        RunMeetsSpec(Evict(hits, now, window), log, rest, now, window, max);
      case Allow(key, _) =>
        RequestFollows(hits, log, clock, key, now, window, max);
        RunMeetsSpec(Request(hits, key, now, window, max).0, LogAfter(log, key, now, window, max), rest, now, window, max);
    }
  }

  /** The requests of a run. */
  function Requests(calls: seq<Call>): (r: seq<Call>) {
    if calls == [] then []
    else if calls[0].Allow? then [calls[0]] + Requests(calls[1..]) else Requests(calls[1..])
  }

  lemma {:induction false} SpecSeesRequests(log: seq<Hit>, calls: seq<Call>, window: int, max: int)
    ensures SpecAnswers(log, calls, window, max) == SpecAnswers(log, Requests(calls), window, max)
    decreases |calls|
  {
    if calls != [] {
      var rest := Requests(calls[1..]);
      assert ([calls[0]] + rest)[1..] == rest;
      match calls[0]
      case EvictStale(_) => SpecSeesRequests(log, calls[1..], window, max);
      case Allow(key, now) =>
        SpecSeesRequests(LogAfter(log, key, now, window, max), calls[1..], window, max);
    }
  }

  lemma NothingAgrees(cutoff: int)
    ensures Agree(map[], [], cutoff)
  {
    var none: map<Key, seq<int>>, empty: seq<Hit> := map[], [];
    forall key: Key ensures AgreeOn(none, empty, key, cutoff) { }
  }

  /** Two runs with the same requests, whatever their evictions, give the same answers. */
  lemma EvictionIsInvisible(a: seq<Call>, b: seq<Call>, clock: int, window: int, max: int)
    requires Chronological(a, clock) && Chronological(b, clock) && Requests(a) == Requests(b)
    ensures Answers(map[], a, window, max) == Answers(map[], b, window, max)
  {
    NothingAgrees(clock - window);
    RunMeetsSpec(map[], [], a, clock, window, max);
    RunMeetsSpec(map[], [], b, clock, window, max);
    SpecSeesRequests([], a, window, max);
    SpecSeesRequests([], b, window, max);
  }

  // ---- the bound on any window ----

  /** A log every entry of which was within the limit when it was added, on a clock that does not go back. */
  ghost predicate Earned(log: seq<Hit>, window: int, max: int) {
    log != [] ==>
      var rest, last := log[..|log| - 1], log[|log| - 1];
      Earned(rest, window, max) && Past(rest, last.at) && Allowed(rest, last.key, last.at - window, last.at) < max
  }

  /** The log a run of the specification leaves. */
  function SpecLog(log: seq<Hit>, calls: seq<Call>, window: int, max: int): (r: seq<Hit>)
    decreases |calls|
  {
    if calls == [] then log
    else match calls[0]
      case EvictStale(_) => SpecLog(log, calls[1..], window, max)
      case Allow(key, now) =>
        SpecLog(LogAfter(log, key, now, window, max), calls[1..], window, max)
  }

  lemma {:induction false} SpecLogEarned(log: seq<Hit>, calls: seq<Call>, clock: int, window: int, max: int)
    requires Earned(log, window, max) && Past(log, clock) && Chronological(calls, clock)
    ensures Earned(SpecLog(log, calls, window, max), window, max)
    decreases |calls|
  {
    if calls != [] {
      var now := calls[0].now;
      match calls[0]
      case EvictStale(_) => SpecLogEarned(log, calls[1..], now, window, max);
      case Allow(key, _) =>
        var more := log + [Hit(key, now)];
        assert more[..|log|] == log;
        SpecLogEarned(if Allowed(log, key, now - window, now) < max then more else log, calls[1..], now, window, max);
    }
  }

  lemma {:induction false} WiderCountsMore(log: seq<Hit>, key: Key, from: int, to: int, from': int, to': int)
    requires from' <= from && Past(log, to')
    ensures Allowed(log, key, from, to) <= Allowed(log, key, from', to')
  {
    if log != [] { WiderCountsMore(log[..|log| - 1], key, from, to, from', to'); }
  }

  /** No half-open interval of the window's length holds more than `max` allowed requests of a key. */
  lemma {:induction false} AnyWindowBounded(log: seq<Hit>, key: Key, t: int, window: int, max: int)
    requires Earned(log, window, max)
    ensures Allowed(log, key, t - window, t) <= if max > 0 then max else 0
  {
    if log != [] {
      var rest, last := log[..|log| - 1], log[|log| - 1];
      AnyWindowBounded(rest, key, t, window, max);
      if last.key == key && t - window < last.at <= t {
        WiderCountsMore(rest, key, t - window, t, last.at - window, last.at);
      }
    }
  }

  /** The requests of a run that were answered yes. */
  function Granted(calls: seq<Call>, answers: seq<bool>): (r: seq<Hit>) {
    if calls == [] || answers == [] then []
    else match calls[0]
      case EvictStale(_) => Granted(calls[1..], answers)
      case Allow(key, now) => (if answers[0] then [Hit(key, now)] else []) + Granted(calls[1..], answers[1..])
  }

  lemma {:induction false} GrantedIsLog(log: seq<Hit>, calls: seq<Call>, window: int, max: int)
    ensures log + Granted(calls, SpecAnswers(log, calls, window, max)) == SpecLog(log, calls, window, max)
    decreases |calls|
  {
    if calls != [] {
      match calls[0]
      case EvictStale(_) =>
        GrantedIsLog(log, calls[1..], window, max);
        assert SpecAnswers(log, calls[1..], window, max) == [] ==> Granted(calls[1..], []) == [];
      case Allow(key, now) =>
        var ok := Allowed(log, key, now - window, now) < max;
        var next := if ok then log + [Hit(key, now)] else log;
        var answers := SpecAnswers(next, calls[1..], window, max);
        assert ([ok] + answers)[1..] == answers;
        GrantedIsLog(next, calls[1..], window, max);
    }
  }

  /** Over every run, no half-open interval of the window's length holds more than `max` granted requests of a key. */
  lemma RunsAreBounded(calls: seq<Call>, clock: int, key: Key, t: int, window: int, max: int)
    requires Chronological(calls, clock)
    ensures Allowed(Granted(calls, Answers(map[], calls, window, max)), key, t - window, t) <= if max > 0 then max else 0
  {
    NothingAgrees(clock - window);
    RunMeetsSpec(map[], [], calls, clock, window, max);
    GrantedIsLog([], calls, window, max);
    var granted := Granted(calls, SpecAnswers([], calls, window, max));
    assert [] + granted == granted;
    SpecLogEarned([], calls, clock, window, max);
    AnyWindowBounded(SpecLog([], calls, window, max), key, t, window, max);
  }
}
