/**
 The pairing store: codes, failed tries and escalating lockouts, with the budget of wrong
 tries every issued code has over every run of calls on a clock that does not go back.
 */
module Pairing {

  // ---- constants, in nanoseconds ----

  const Hour: int := 3_600_000_000_000
  const CodeTTL: int := Hour
  const MaxPendingPerPlatform: nat := 3
  const RateLimitWindow: int := 600_000_000_000
  const MaxFailures: nat := 5
  const LockoutDuration: int := Hour
  const MaxLockoutDuration: int := 24 * Hour

  // ---- state ----

  /** An issued code, told apart by its serial number; its text and hash are abstract. */
  datatype Code = Code(user: string, serial: nat)

  datatype Pending = Pending(code: Code, createdAt: int, expiresAt: int)

  datatype Limit = Limit(lastRequestAt: int, failures: nat, lockedUntil: int, lockoutCount: nat)

  datatype State = State(pending: map<string, Pending>, approved: map<string, int>, limits: map<string, Limit>, issued: nat)

  const Empty: State := State(map[], map[], map[], 0)

  datatype Outcome =
    | Issued(code: Code) | RateLimited | QuotaExceeded
    | Wrong(code: Code) | Paired(code: Code) | NoPendingCode
    | LockedOut

  /** The limits of a user, zero for one never seen. Times are counted from the zero time. */
  function LimitOf(limits: map<string, Limit>, user: string): (r: Limit) {
    if user in limits then limits[user] else Limit(0, 0, 0, 0)
  }

  // ---- the lockout length ----

  function Pow2(n: nat): (r: nat)
    ensures r >= 1
  {
    if n == 0 then 1 else 2 * Pow2(n - 1)
  }

  function Min(a: int, b: int): (r: int) { if a < b then a else b }

  /** The n-th lockout of a user: doubling, up to the cap. */
  function Lockout(n: nat): (r: int)
    ensures LockoutDuration <= r <= MaxLockoutDuration
  {
    assert Pow2(n) * LockoutDuration >= LockoutDuration;
    Min(Pow2(n) * LockoutDuration, MaxLockoutDuration)
  }

  lemma {:induction false} LockoutStaysCapped(k: nat, n: nat)
    requires k <= n && Pow2(k) * LockoutDuration >= MaxLockoutDuration
    ensures Lockout(n) == MaxLockoutDuration
    decreases n - k
  {
    if k < n {
      assert Pow2(k + 1) == 2 * Pow2(k);
      LockoutStaysCapped(k + 1, n);
    }
  }

  /** A Go duration: a signed 64-bit count of nanoseconds. */
  newtype Duration = x: int | -0x8000_0000_0000_0000 <= x < 0x8000_0000_0000_0000

  /** The doubling loop never leaves the 64-bit range, whatever the count: it stops below twice the cap. */
  method LockoutLength(lockoutCount: int) returns (length: Duration)
    ensures length as int == Lockout(if lockoutCount < 0 then 0 else lockoutCount)
  {
    var d: Duration := LockoutDuration as Duration;
    var i := 0;
    while i < lockoutCount
      invariant 0 <= i && (i > 0 ==> i <= lockoutCount)
      invariant d as int == Pow2(i) * LockoutDuration && d as int < 2 * MaxLockoutDuration
    {
      if d >= MaxLockoutDuration as Duration {
        LockoutStaysCapped(i, lockoutCount);
        return MaxLockoutDuration as Duration;
      }
      d := d * 2;
      i := i + 1;
    }
    if d > MaxLockoutDuration as Duration {
      return MaxLockoutDuration as Duration;
    }
    return d;
  }

  // ---- the calls ----

  function Purge(pending: map<string, Pending>, now: int): (r: map<string, Pending>) {
    map user | user in pending && now < pending[user].expiresAt :: pending[user]
  }

  function RequestCode(s: State, user: string, now: int): (r: (State, Outcome)) {
    var s1 := s.(pending := Purge(s.pending, now));
    if user in s.limits && now < s.limits[user].lockedUntil then (s1, LockedOut)
    else if user in s.limits && now - s.limits[user].lastRequestAt < RateLimitWindow then (s1, RateLimited)
    else if user !in s1.pending && |s1.pending| >= MaxPendingPerPlatform then (s1, QuotaExceeded)
    else
      var code := Code(user, s.issued);
      (s1.(pending := s1.pending[user := Pending(code, now, now + CodeTTL)],
           limits := s.limits[user := LimitOf(s.limits, user).(lastRequestAt := now)],
           issued := s.issued + 1),
       Issued(code))
  }

  /** A wrong try counts, and from the fifth on each one locks the user out for longer. */
  function Failed(l: Limit, now: int): (r: Limit) {
    var failures := l.failures + 1;
    if failures >= MaxFailures
    then l.(failures := failures, lockedUntil := now + Lockout(l.lockoutCount), lockoutCount := l.lockoutCount + 1)
    else l.(failures := failures)
  }

  /** VerifyCode, with the outcome of the hash check given. */
  function VerifyCode(s: State, user: string, matches: bool, now: int): (r: (State, Outcome)) {
    var s1 := s.(pending := Purge(s.pending, now));
    if user in s.limits && now < s.limits[user].lockedUntil then (s1, LockedOut)
    else if user !in s1.pending then (s1, NoPendingCode)
    else
      var code := s1.pending[user].code;
      if !matches then
        (s1.(limits := s.limits[user := Failed(LimitOf(s.limits, user), now)]), Wrong(code))
      else
        (s1.(pending := s1.pending - {user}, approved := s.approved[user := now],
             limits := s.limits[user := LimitOf(s.limits, user).(failures := 0, lockoutCount := 0)]),
         Paired(code))
  }

  // ---- runs ----

  datatype Call = Request(user: string, now: int) | Verify(user: string, matches: bool, now: int)

  function Do(s: State, call: Call): (r: (State, Outcome)) {
    match call
    case Request(user, now) => RequestCode(s, user, now)
    case Verify(user, matches, now) => VerifyCode(s, user, matches, now)
  }

  datatype Event = Event(user: string, now: int, outcome: Outcome)

  /** The state and the answers after a run of calls on an empty store. */
  function Run(calls: seq<Call>): (r: (State, seq<Event>)) {
    if calls == [] then (Empty, [])
    else
      var before := Run(calls[..|calls| - 1]);
      var call := calls[|calls| - 1];
      var after := Do(before.0, call);
      (after.0, before.1 + [Event(call.user, call.now, after.1)])
  }

  /** The time of the last call, zero before the first. */
  function ClockOf(calls: seq<Call>): (t: int) {
    if calls == [] then 0 else calls[|calls| - 1].now
  }

  /** The clock starts at or after the zero time and does not go back. */
  ghost predicate Chronological(calls: seq<Call>) {
    calls != [] ==> Chronological(calls[..|calls| - 1]) && ClockOf(calls[..|calls| - 1]) <= ClockOf(calls)
  }
}
