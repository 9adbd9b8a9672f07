/** What the pairing store keeps over every run: tries, lockouts and approvals read off the trace of answers. */
module PairingBudget {
  import opened Pairing

  // ---- reading the trace ----

  /** Wrong tries of the user since the last pairing. */
  function Fails(trace: seq<Event>, user: string): (n: nat) {
    if trace == [] then 0
    else
      var e, before := trace[|trace| - 1], Fails(trace[..|trace| - 1], user);
      if e.user != user then before
      else if e.outcome.Wrong? then before + 1
      else if e.outcome.Paired? then 0
      else before
  }

  /** The time of the first wrong try since the last pairing. */
  function Start(trace: seq<Event>, user: string): (t: int) {
    if trace == [] then 0
    else
      var e, rest := trace[|trace| - 1], trace[..|trace| - 1];
      if e.user == user && e.outcome.Wrong? && Fails(rest, user) == 0 then e.now else Start(rest, user)
  }

  /** How often the code was tried and found wrong. */
  function Tried(trace: seq<Event>, code: Code): (n: nat) {
    if trace == [] then 0
    else Tried(trace[..|trace| - 1], code) + if trace[|trace| - 1].outcome == Wrong(code) then 1 else 0
  }

  /** The tries a user with that many failures has before a lockout. */
  function Left(failures: nat): (n: nat)
    ensures 1 <= n <= MaxFailures
  {
    if failures < MaxFailures then MaxFailures - failures else 1
  }

  /** The tries a code was issued with. */
  function Budget(trace: seq<Event>, code: Code): (n: nat)
    ensures n <= MaxFailures
  {
    if trace == [] then 0
    else
      var e, rest := trace[|trace| - 1], trace[..|trace| - 1];
      if e.outcome == Issued(code) then Left(Fails(rest, e.user)) else Budget(rest, code)
  }

  /** The code was used, or a wrong try of it locked its user out. */
  predicate Closed(trace: seq<Event>, code: Code) {
    trace != [] &&
    var e := trace[|trace| - 1];
    || e.outcome == Paired(code)
    || (e.outcome == Wrong(code) && Fails(trace, e.user) >= MaxFailures)
    || Closed(trace[..|trace| - 1], code)
  }

  /** When the code was issued; -1 for never. */
  function IssuedAt(trace: seq<Event>, code: Code): (t: int) {
    if trace == [] then -1
    else
      var e := trace[|trace| - 1];
      if e.outcome == Issued(code) then e.now else IssuedAt(trace[..|trace| - 1], code)
  }

  predicate EverPaired(trace: seq<Event>, user: string) {
    trace != [] && ((trace[|trace| - 1].user == user && trace[|trace| - 1].outcome.Paired?) || EverPaired(trace[..|trace| - 1], user))
  }

  /** The first n lockouts together. */
  function LockoutSum(n: nat): (r: nat) {
    if n == 0 then 0 else LockoutSum(n - 1) + Lockout(n - 1)
  }

  // ---- the invariant ----

  ghost predicate LimitOk(s: State, trace: seq<Event>, user: string, clock: int) {
    var l, start := LimitOf(s.limits, user), Start(trace, user);
    && l.failures == Fails(trace, user)
    && l.lockoutCount == (if l.failures >= MaxFailures then l.failures - (MaxFailures - 1) else 0)
    && (l.failures > 0 ==> start <= clock)
    && (l.failures >= MaxFailures ==> l.lockedUntil >= start + LockoutSum(l.lockoutCount))
  }

  ghost predicate PendingOk(s: State, trace: seq<Event>, user: string, clock: int) {
    user in s.pending ==>
      var p, l := s.pending[user], LimitOf(s.limits, user);
      && p.code.user == user && p.code.serial < s.issued
      && p.createdAt == IssuedAt(trace, p.code) && 0 <= p.createdAt <= clock && p.expiresAt == p.createdAt + CodeTTL
      && (if Closed(trace, p.code) then l.lockedUntil >= p.expiresAt
          else Tried(trace, p.code) + Left(l.failures) <= Budget(trace, p.code))
  }

  ghost predicate UserOk(s: State, trace: seq<Event>, user: string, clock: int) {
    && LimitOk(s, trace, user, clock) && PendingOk(s, trace, user, clock)
    && (user in s.approved <==> EverPaired(trace, user))
  }

  ghost predicate CodeOk(s: State, trace: seq<Event>, code: Code) {
    && Tried(trace, code) <= Budget(trace, code)
    && (code.serial >= s.issued ==> Tried(trace, code) == 0 && !Closed(trace, code))
  }

  ghost predicate Inv(s: State, trace: seq<Event>, clock: int) {
    && clock >= 0
    && |s.pending| <= MaxPendingPerPlatform
    && (forall user: string :: UserOk(s, trace, user, clock))
    && (forall code: Code :: CodeOk(s, trace, code))
  }

  // ---- one call ----

  lemma Snoc(trace: seq<Event>, e: Event)
    ensures (trace + [e])[..|trace|] == trace && (trace + [e])[|trace|] == e
  {
  }

  lemma PurgeShrinks(pending: map<string, Pending>, now: int)
    ensures Purge(pending, now).Keys <= pending.Keys && |Purge(pending, now)| <= |pending|
  {
    var left := Purge(pending, now);
    assert left.Keys <= pending.Keys;
    Subset(left.Keys, pending.Keys);
    assert |left| == |left.Keys| && |pending| == |pending.Keys|;
  }

  lemma {:induction false} Subset(a: set<string>, b: set<string>)
    requires a <= b
    ensures |a| <= |b|
  {
    assert b == a + (b - a);
  }

  lemma PendingBounded(s: State, call: Call)
    requires |s.pending| <= MaxPendingPerPlatform
    ensures |Do(s, call).0.pending| <= MaxPendingPerPlatform
  {
    PurgeShrinks(s.pending, call.now);
    var left := Purge(s.pending, call.now);
    var after := Do(s, call).0.pending;
    if after.Keys <= left.Keys {
      Subset(after.Keys, left.Keys);
      assert |after| == |after.Keys| && |left| == |left.Keys|;
    } else {
      assert after.Keys == left.Keys + {call.user};
      assert |after| == |after.Keys| && |left| == |left.Keys|;
    }
  }

  ghost predicate Mentions(outcome: Outcome, code: Code) {
    outcome == Issued(code) || outcome == Wrong(code) || outcome == Paired(code)
  }

  /** An event that does not mention a code leaves its reading alone. */
  lemma Untouched(trace: seq<Event>, e: Event, code: Code)
    requires !Mentions(e.outcome, code)
    ensures Tried(trace + [e], code) == Tried(trace, code) && Budget(trace + [e], code) == Budget(trace, code)
    ensures IssuedAt(trace + [e], code) == IssuedAt(trace, code) && Closed(trace + [e], code) == Closed(trace, code)
  {
    Snoc(trace, e);
  }

  /** The readings of a user after an event. */
  lemma UserReadings(trace: seq<Event>, e: Event, user: string)
    ensures var f := Fails(trace, user);
            && Fails(trace + [e], user) == (if e.user == user && e.outcome.Wrong? then f + 1 else if e.user == user && e.outcome.Paired? then 0 else f)
            && Start(trace + [e], user) == (if e.user == user && e.outcome.Wrong? && f == 0 then e.now else Start(trace, user))
            && (EverPaired(trace + [e], user) <==> EverPaired(trace, user) || (e.user == user && e.outcome.Paired?))
  {
    Snoc(trace, e);
  }

  /** Every code in an answer is the caller's own. */
  lemma AnswerIsOwn(s: State, trace: seq<Event>, call: Call, clock: int, code: Code)
    requires PendingOk(s, trace, call.user, clock) && Mentions(Do(s, call).1, code)
    ensures code.user == call.user
  {
  }

  /** The calls of others leave a user's record alone, save that an expired code goes. */
  lemma {:induction false} OtherUser(s: State, trace: seq<Event>, call: Call, user: string, clock: int)
    requires UserOk(s, trace, user, clock) && PendingOk(s, trace, call.user, clock) && clock <= call.now && user != call.user
    ensures var r := Do(s, call); UserOk(r.0, trace + [Event(call.user, call.now, r.1)], user, call.now)
  {
    var r := Do(s, call);
    var e := Event(call.user, call.now, r.1);
    UserReadings(trace, e, user);
    if user in r.0.pending {
      var code := s.pending[user].code;
      assert r.0.pending[user] == s.pending[user];
      if Mentions(r.1, code) { AnswerIsOwn(s, trace, call, clock, code); }
      Untouched(trace, e, code);
    }
  }

  /** A refused call changes nothing for its user, save that an expired code goes. */
  lemma {:induction false} Refusal(s: State, trace: seq<Event>, call: Call, clock: int)
    requires UserOk(s, trace, call.user, clock) && clock <= call.now
    requires var o := Do(s, call).1; !o.Issued? && !o.Wrong? && !o.Paired?
    ensures var r := Do(s, call); UserOk(r.0, trace + [Event(call.user, call.now, r.1)], call.user, call.now)
  {
    var r := Do(s, call);
    var e := Event(call.user, call.now, r.1);
    UserReadings(trace, e, call.user);
    if call.user in r.0.pending { Untouched(trace, e, s.pending[call.user].code); }
  }

  /** A fresh code starts with what its user has left. */
  lemma {:induction false} Issue(s: State, trace: seq<Event>, call: Call, clock: int)
    requires UserOk(s, trace, call.user, clock) && 0 <= clock <= call.now && Do(s, call).1.Issued?
    requires CodeOk(s, trace, Do(s, call).1.code)
    ensures var r := Do(s, call); UserOk(r.0, trace + [Event(call.user, call.now, r.1)], call.user, call.now)
  {
    var r := Do(s, call);
    var e := Event(call.user, call.now, r.1);
    UserReadings(trace, e, call.user);
    Snoc(trace, e);
  }

  /** A code that is tried is open and has tries left. */
  lemma {:induction false} WrongTry(s: State, trace: seq<Event>, call: Call, clock: int)
    requires PendingOk(s, trace, call.user, clock) && clock <= call.now && Do(s, call).1.Wrong?
    ensures var code := Do(s, call).1.code; !Closed(trace, code) && Tried(trace, code) < Budget(trace, code)
  {
    assert call.user in s.pending && s.pending[call.user].code == Do(s, call).1.code;
  }

  /** A wrong try counts; the fifth since the last pairing and every later one adds a lockout to those sat out. */
  lemma {:induction false} WrongLimit(s: State, trace: seq<Event>, call: Call, clock: int)
    requires LimitOk(s, trace, call.user, clock) && 0 <= clock <= call.now && Do(s, call).1.Wrong?
    ensures var r := Do(s, call); LimitOk(r.0, trace + [Event(call.user, call.now, r.1)], call.user, call.now)
  {
    UserReadings(trace, Event(call.user, call.now, Do(s, call).1), call.user);
    var l := LimitOf(s.limits, call.user);
    assert LockoutSum(l.lockoutCount + 1) == LockoutSum(l.lockoutCount) + Lockout(l.lockoutCount);
    assert LockoutSum(0) == 0;
  }

  /** A wrong try uses one of the code's tries; the one that locks the user out closes the code. */
  lemma {:induction false} WrongPending(s: State, trace: seq<Event>, call: Call, clock: int)
    requires LimitOk(s, trace, call.user, clock) && PendingOk(s, trace, call.user, clock)
    requires 0 <= clock <= call.now && Do(s, call).1.Wrong?
    ensures var r := Do(s, call); PendingOk(r.0, trace + [Event(call.user, call.now, r.1)], call.user, call.now)
  {
    var r := Do(s, call);
    var e := Event(call.user, call.now, r.1);
    WrongTry(s, trace, call, clock);
    UserReadings(trace, e, call.user);
    Snoc(trace, e);
  }

  /** A right try approves the user and uses the code up. */
  lemma {:induction false} RightTry(s: State, trace: seq<Event>, call: Call, clock: int)
    requires UserOk(s, trace, call.user, clock) && 0 <= clock <= call.now && Do(s, call).1.Paired?
    ensures var r := Do(s, call); UserOk(r.0, trace + [Event(call.user, call.now, r.1)], call.user, call.now)
    ensures !Closed(trace, Do(s, call).1.code)
    ensures var at := IssuedAt(trace, Do(s, call).1.code); 0 <= at <= call.now < at + CodeTTL
  {
    var r := Do(s, call);
    UserReadings(trace, Event(call.user, call.now, r.1), call.user);
  }

  lemma {:induction false} CodeStep(s: State, trace: seq<Event>, call: Call, clock: int, code: Code)
    requires UserOk(s, trace, call.user, clock) && CodeOk(s, trace, code) && 0 <= clock <= call.now
    ensures var r := Do(s, call); CodeOk(r.0, trace + [Event(call.user, call.now, r.1)], code)
  {
    var r := Do(s, call);
    var e := Event(call.user, call.now, r.1);
    if !Mentions(r.1, code) {
      Untouched(trace, e, code);
    } else {
      Snoc(trace, e);
      if r.1.Wrong? { WrongTry(s, trace, call, clock); }
    }
  }

  lemma {:induction false} InvStep(s: State, trace: seq<Event>, call: Call, clock: int)
    requires Inv(s, trace, clock) && clock <= call.now
    ensures var r := Do(s, call); Inv(r.0, trace + [Event(call.user, call.now, r.1)], call.now)
  {
    var r := Do(s, call);
    var after := trace + [Event(call.user, call.now, r.1)];
    PendingBounded(s, call);
    assert UserOk(s, trace, call.user, clock);
    if r.1.Issued? {
      assert CodeOk(s, trace, r.1.code);
      Issue(s, trace, call, clock);
    } else if r.1.Wrong? {
      WrongLimit(s, trace, call, clock);
      WrongPending(s, trace, call, clock);
      UserReadings(trace, Event(call.user, call.now, r.1), call.user);
    } else if r.1.Paired? {
      RightTry(s, trace, call, clock);
    } else {
      Refusal(s, trace, call, clock);
    }
    forall user: string ensures UserOk(r.0, after, user, call.now) {
      assert UserOk(s, trace, user, clock);
      if user != call.user { OtherUser(s, trace, call, user, clock); }
    }
    forall code: Code ensures CodeOk(r.0, after, code) {
      assert CodeOk(s, trace, code);
      CodeStep(s, trace, call, clock, code);
    }
  }

  // ---- every run ----

  lemma {:induction false} RunInv(calls: seq<Call>)
    requires Chronological(calls)
    ensures Inv(Run(calls).0, Run(calls).1, ClockOf(calls))
  {
    if calls != [] {
      var before := calls[..|calls| - 1];
      RunInv(before);
      InvStep(Run(before).0, Run(before).1, calls[|calls| - 1], ClockOf(before));
    }
  }

  /** Over every run no code is tried wrongly more often than it was issued with, at most five times. */
  lemma TriesAreBounded(calls: seq<Call>, code: Code)
    requires Chronological(calls)
    ensures Tried(Run(calls).1, code) <= Budget(Run(calls).1, code) <= MaxFailures
  {
    RunInv(calls);
    assert CodeOk(Run(calls).0, Run(calls).1, code);
  }

  /** Once used, or once a wrong try of it locked its user out, a code is never tried or accepted again. */
  lemma ClosedIsFinal(calls: seq<Call>, next: Call, code: Code)
    requires Chronological(calls + [next]) && Closed(Run(calls).1, code)
    ensures var o := Do(Run(calls).0, next).1; o != Wrong(code) && o != Paired(code)
  {
    var trace, clock := Run(calls).1, ClockOf(calls);
    CallsSoFar(calls, next);
    RunInv(calls);
    var s := Run(calls).0;
    assert UserOk(s, trace, next.user, clock);
    if Do(s, next).1.Wrong? { WrongTry(s, trace, next, clock); }
    if Do(s, next).1.Paired? { RightTry(s, trace, next, clock); }
  }

  /** A pairing takes a code of that very user, issued less than an hour before. */
  lemma PairedInTime(calls: seq<Call>, next: Call)
    requires Chronological(calls + [next]) && Do(Run(calls).0, next).1.Paired?
    ensures var code := Do(Run(calls).0, next).1.code;
            && code.user == next.user
            && 0 <= IssuedAt(Run(calls).1, code) <= next.now < IssuedAt(Run(calls).1, code) + CodeTTL
  {
    CallsSoFar(calls, next);
    RunUser(calls, next.user);
    RightTry(Run(calls).0, Run(calls).1, next, ClockOf(calls));
  }

  lemma ApprovedIffPaired(calls: seq<Call>, user: string)
    requires Chronological(calls)
    ensures user in Run(calls).0.approved <==> EverPaired(Run(calls).1, user)
  {
    RunUser(calls, user);
  }

  /** A user's lockouts so far have been sat out at this time. */
  ghost predicate SatOut(trace: seq<Event>, user: string, now: int) {
    Fails(trace, user) >= MaxFailures ==> now - Start(trace, user) >= LockoutSum(Fails(trace, user) + 1 - MaxFailures)
  }

  /** A try is only answered once every lockout so far has been sat out. */
  lemma TryAfterLockouts(s: State, trace: seq<Event>, call: Call, clock: int)
    requires UserOk(s, trace, call.user, clock) && Do(s, call).1.Wrong?
    ensures SatOut(trace, call.user, call.now)
  {
    if Fails(trace, call.user) >= MaxFailures { assert call.user in s.limits && call.now >= s.limits[call.user].lockedUntil; }
  }

  /** A wrong try, the n-th since the last pairing, comes only after the first n - 5 lockouts have been sat out. */
  lemma WaitsAddUp(calls: seq<Call>, next: Call)
    requires Chronological(calls + [next]) && Do(Run(calls).0, next).1.Wrong?
    ensures SatOut(Run(calls).1, next.user, next.now)
  {
    CallsSoFar(calls, next);
    RunUser(calls, next.user);
    TryAfterLockouts(Run(calls).0, Run(calls).1, next, ClockOf(calls));
  }

  /** What every run keeps of one user. */
  lemma RunUser(calls: seq<Call>, user: string)
    requires Chronological(calls)
    ensures UserOk(Run(calls).0, Run(calls).1, user, ClockOf(calls))
  {
    RunInv(calls);
  }

  lemma CallsSoFar(calls: seq<Call>, next: Call)
    requires Chronological(calls + [next])
    ensures Chronological(calls) && ClockOf(calls) <= next.now
  {
    assert (calls + [next])[..|calls|] == calls;
  }

  /** The lockouts add up to 31 hours for the first five and a day for each one after. */
  lemma {:induction false} LockoutsTotal(n: nat)
    ensures LockoutSum(n + 5) == (31 + 24 * n) * Hour
  {
    if n == 0 {
      assert Pow2(1) == 2 && Pow2(2) == 4 && Pow2(3) == 8 && Pow2(4) == 16;
      assert LockoutSum(1) == Hour && LockoutSum(2) == 3 * Hour && LockoutSum(3) == 7 * Hour && LockoutSum(4) == 15 * Hour;
    } else {
      LockoutsTotal(n - 1);
      assert Pow2(5) == 2 * Pow2(4) && Pow2(4) == 2 * Pow2(3) && Pow2(3) == 2 * Pow2(2) && Pow2(2) == 2 * Pow2(1) && Pow2(1) == 2;
      LockoutStaysCapped(5, n + 4);
      assert LockoutSum(n + 5) == LockoutSum(n + 4) + Lockout(n + 4);
    }
  }

  /** The time a guesser has sat out when they try for the (n + 10)th time. */
  function Penalty(n: nat): (t: int) { (31 + 24 * n) * Hour }

  /** From the tenth wrong try on, this time pays for every one before it. */
  ghost predicate OneADay(trace: seq<Event>, user: string, now: int) {
    Fails(trace, user) >= 9 ==> now - Start(trace, user) >= Penalty(Fails(trace, user) - 9)
  }

  lemma PenaltyIs(trace: seq<Event>, user: string, now: int)
    requires SatOut(trace, user, now)
    ensures OneADay(trace, user, now)
  {
    if Fails(trace, user) >= 9 { LockoutsTotal(Fails(trace, user) - 9); }
  }

  /** From the tenth wrong try on a guesser gets one a day. */
  lemma GuessesPerDay(calls: seq<Call>, next: Call)
    requires Chronological(calls + [next]) && Do(Run(calls).0, next).1.Wrong?
    ensures OneADay(Run(calls).1, next.user, next.now)
  {
    WaitsAddUp(calls, next);
    PenaltyIs(Run(calls).1, next.user, next.now);
  }
}
