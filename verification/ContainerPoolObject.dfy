/** The pool's guarded fields as an object, one method for each critical section. */
module ContainerPoolObject {
  import opened ContainerPool

  /** A container's teardown state: whether its Docker teardown has been claimed. */
  class ContainerTeardown {
    var closed: bool

    constructor ()
      ensures !closed
    {
      closed := false;
    }
  }

  class PoolObject {
    var active: int
    var teardowns: map<nat, ContainerTeardown>
    /** The container each entry was made for. */
    ghost var owner: map<ContainerTeardown, nat>

    /** No two containers share an entry. */
    ghost predicate Valid()
      reads this
    {
      forall id :: id in teardowns ==> teardowns[id] in owner && owner[teardowns[id]] == id
    }

    ghost function View(): Pool
      reads this, owner.Keys
      requires Valid()
    {
      Pool(active, map id | id in teardowns :: teardowns[id].closed)
    }

    constructor ()
      ensures Valid() && View() == Empty && owner == map[]
    {
      active, teardowns, owner := 0, map[], map[];
    }

    method Reserve(max: int) returns (ok: bool)
      requires Valid()
      modifies this`active
      ensures Valid() && (View(), ok) == ContainerPool.Reserve(old(View()), max)
    {
      if max > 0 && active >= max { return false; }
      active := active + 1;
      assert View().teardowns == old(View()).teardowns;
      return true;
    }

    method Unreserve()
      requires Valid()
      modifies this`active
      ensures Valid() && View() == ContainerPool.Unreserve(old(View()))
    {
      active := active - 1;
    }

    method ArmMaxUptime(id: nat)
      requires Valid()
      modifies this`teardowns, this`owner
      ensures Valid() && View() == Arm(old(View()), id) && fresh(owner.Keys - old(owner.Keys))
    {
      if id !in teardowns {
        var t := new ContainerTeardown();
        teardowns, owner := teardowns[id := t], owner[t := id];
      }
    }

    method ClaimReaper(id: nat) returns (won: bool)
      requires Valid()
      modifies owner.Keys
      ensures Valid() && (View(), won) == ContainerPool.ClaimReaper(old(View()), id)
    {
      if id !in teardowns || teardowns[id].closed { return false; }
      Close(id);
      return true;
    }

    method ClaimRelease(id: nat) returns (won: bool)
      requires Valid()
      modifies owner.Keys
      ensures Valid() && (View(), won) == ContainerPool.ClaimRelease(old(View()), id)
    {
      if id !in teardowns { return true; }
      if teardowns[id].closed { return false; }
      Close(id);
      return true;
    }

    method Close(id: nat)
      requires Valid() && id in teardowns
      modifies owner.Keys
      ensures Valid() && View() == old(View()).(teardowns := old(View()).teardowns[id := true])
    {
      teardowns[id].closed := true;
    }

    method ForgetTeardown(id: nat) returns (had: bool)
      requires Valid()
      modifies this`teardowns
      ensures Valid() && View() == Forget(old(View()), id) && had == (id in old(View()).teardowns)
    {
      had := id in teardowns;
      teardowns := teardowns - {id};
    }
  }
}
