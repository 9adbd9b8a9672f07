/** The pairing store as an object whose maps its methods update. */
module PairingObject {
  import opened Pairing

  class Store {
    var pending: map<string, Pending>
    var approved: map<string, int>
    var limits: map<string, Limit>
    /** The number of codes issued so far; it stands for the generator and names the next one. */
    var issued: nat

    ghost function View(): State
      reads this
    {
      State(pending, approved, limits, issued)
    }

    constructor ()
      ensures View() == Empty
    {
      pending, approved, limits, issued := map[], map[], map[], 0;
    }

    /** Every pending code visited once, in any order; the expired ones go. */
    method PurgeExpired(now: int)
      modifies this`pending
      ensures pending == Purge(old(pending), now)
    {
      ghost var was := pending;
      var todo := pending.Keys;
      while todo != {}
        invariant todo <= pending.Keys <= was.Keys
        invariant forall user :: user in pending ==> pending[user] == was[user]
        invariant forall user :: user in was && user !in todo ==> (user in pending <==> now < was[user].expiresAt)
        decreases todo
      {
        var user :| user in todo;
        todo := todo - {user};
        if !(now < pending[user].expiresAt) { pending := pending - {user}; }
      }
    }

    method RequestCode(user: string, now: int) returns (outcome: Outcome)
      modifies this
      ensures (View(), outcome) == Pairing.RequestCode(old(View()), user, now)
    {
      PurgeExpired(now);
      if user in limits && now < limits[user].lockedUntil { return LockedOut; }
      if user in limits && now - limits[user].lastRequestAt < RateLimitWindow { return RateLimited; }
      if user !in pending && |pending| >= MaxPendingPerPlatform { return QuotaExceeded; }
      var code := Code(user, issued);
      issued := issued + 1;
      pending := pending[user := Pending(code, now, now + CodeTTL)];
      var limit := LimitOf(limits, user);
      limits := limits[user := limit.(lastRequestAt := now)];
      return Issued(code);
    }

    method VerifyCode(user: string, matches: bool, now: int) returns (outcome: Outcome)
      modifies this
      ensures (View(), outcome) == Pairing.VerifyCode(old(View()), user, matches, now)
    {
      PurgeExpired(now);
      if user in limits && now < limits[user].lockedUntil { return LockedOut; }
      if user !in pending { return NoPendingCode; }
      var code, limit := pending[user].code, LimitOf(limits, user);
      if !matches {
        limit := limit.(failures := limit.failures + 1);
        if limit.failures >= MaxFailures {
          var length := LockoutLength(limit.lockoutCount);
          limit := limit.(lockedUntil := now + length as int);
          limit := limit.(lockoutCount := limit.lockoutCount + 1);
        }
        limits := limits[user := limit];
        return Wrong(code);
      }
      pending := pending - {user};
      approved := approved[user := now];
      limits := limits[user := limit.(failures := 0, lockoutCount := 0)];
      return Paired(code);
    }
  }
}
