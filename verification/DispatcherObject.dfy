/**
 The dispatcher as the object it is in the daemon: `TaskHold` and
 `TaskDispatcher` are updated in place, one method per critical section. Each
 method is proved to move `Snapshot` as the function of `Dispatcher` that the
 theorems are about. A channel is its index into `closes`, which counts the
 close calls; `batons` records for the proof who queued it and behind what.
 */
module DispatcherObject {
  import opened Options
  import opened Dispatcher

  class TaskHold {
    const repo: string
    const chain: bool
    ghost const index: nat
    var baton: Option<nat>
    var slot: bool
    var waits: nat
    var finished: bool
    var id: int

    constructor (repo: string, chain: bool, ghost index: nat)
      ensures this.repo == repo && this.chain == chain && this.index == index
      ensures Row() == Hold(repo, chain, None, false, 0, false, 0)
    {
      this.repo, this.chain, this.index := repo, chain, index;
      baton, slot, waits, finished, id := None, false, 0, false, 0;
    }

    ghost function Row(): (r: Hold)
      reads this
    {
      Hold(repo, chain, baton, slot, waits, finished, id)
    }
  }

  /** What the caller of a critical section does once the mutex is free. */
  datatype Then = Nothing | BroadcastSlots | SpawnReacquire

  /** Where a re-acquire goes after its first critical section. */
  datatype Entered = GaveUp | Waits(previous: Option<nat>)

  class TaskDispatcher {
    var limit: int
    var active: int
    var pending: int
    var repoTail: map<string, nat>
    var holds: map<int, TaskHold>
    var closes: seq<nat>
    ghost var batons: seq<Baton>
    ghost var all: seq<TaskHold>
    /** The records of all holds, and the hold each task id names. */
    ghost var rows: seq<Hold>
    ghost var names: map<int, nat>

    /** A hold is where its index says, and its record is kept. */
    ghost predicate HoldOk(i: nat)
      reads this, all
    {
      i < |all| == |rows| ==> all[i].index == i && all[i].Row() == rows[i] && (rows[i].baton.Some? ==> rows[i].baton.value < |batons|)
    }

    ghost predicate NameOk(id: int)
      reads this, all
    {
      id in holds ==> id in names && holds[id] in all && holds[id].index == names[id]
    }

    ghost predicate BatonOk(b: nat)
      reads this
    {
      b < |batons| == |closes| ==> batons[b].closes == closes[b]
    }

    ghost predicate Valid()
      reads this, all
    {
      && |rows| == |all| && (forall i: nat {:trigger HoldOk(i)} :: HoldOk(i))
      && holds.Keys == names.Keys && (forall id {:trigger NameOk(id)} :: NameOk(id))
      && |closes| == |batons| && (forall b: nat {:trigger BatonOk(b)} :: BatonOk(b))
    }

    ghost function Snapshot(): (d: Shared)
      reads this
    {
      Shared(limit, active, pending, repoTail, names, rows, batons)
    }

    /** A hold of this dispatcher. */
    ghost predicate Mine(hold: TaskHold)
      reads this
    {
      hold in all && hold.index < |rows| && (rows[hold.index].baton.Some? ==> rows[hold.index].baton.value < |batons|)
    }

    /** A submitted hold is at its index, and its record is its row. */
    lemma AtIndex(hold: TaskHold)
      requires Valid() && hold in all
      ensures Mine(hold) && hold.index < |all| && all[hold.index] == hold && rows[hold.index] == hold.Row()
    {
      var i :| 0 <= i < |all| && all[i] == hold;
      assert HoldOk(i);
    }

    /** Only the record of `hold` has changed, and its row with it. */
    twostate lemma OneRow(hold: TaskHold)
      requires old(Valid()) && hold in old(all) && all == old(all)
      requires hold.index < |old(rows)| && rows == old(rows)[hold.index := hold.Row()]
      requires |old(batons)| <= |batons| && (hold.baton.Some? ==> hold.baton.value < |batons|)
      requires forall x :: x in all && x != hold ==> x.Row() == old(x.Row())
      ensures forall i: nat {:trigger HoldOk(i)} :: HoldOk(i)
    {
      var j :| 0 <= j < |all| && all[j] == hold;
      assert old(HoldOk(j));
      forall i: nat ensures HoldOk(i) {
        assert old(HoldOk(i));
        if i < |all| { assert all[i] in all && (all[i] == hold ==> i == hold.index); }
      }
    }

    twostate lemma SameNames()
      requires old(Valid()) && all == old(all) && holds == old(holds) && names == old(names)
      ensures forall id {:trigger NameOk(id)} :: NameOk(id)
    {
      forall id ensures NameOk(id) { assert old(NameOk(id)); }
    }

    twostate lemma SameBatons()
      requires old(Valid()) && batons == old(batons) && closes == old(closes)
      ensures forall b: nat {:trigger BatonOk(b)} :: BatonOk(b)
    {
      forall b: nat ensures BatonOk(b) { assert old(BatonOk(b)); }
    }

    constructor (maxConcurrency: int)
      ensures Valid() && Snapshot() == Init(maxConcurrency).d && all == []
    {
      limit, active, pending := maxConcurrency, 0, 0;
      repoTail, holds, closes := map[], map[], [];
      batons, all, rows, names := [], [], [], map[];
    }

    method SetMaxConcurrency(maxConcurrency: int) returns (andThen: Then)
      requires Valid()
      modifies this`limit
      ensures Valid() && Snapshot() == old(Snapshot()).(limit := maxConcurrency) && andThen == BroadcastSlots
    {
      limit := maxConcurrency;
      Untouched();
      return BroadcastSlots;
    }

    method Name(hold: TaskHold, id: int)
      requires Valid() && Mine(hold)
      modifies this`holds, this`rows, this`names, hold`id
      ensures Valid() && Snapshot() == Dispatcher.Name(old(Snapshot()), hold.index, id)
    {
      if id == 0 { return; }
      AtIndex(hold);
      hold.id := id;
      holds := holds[id := hold];
      names := names[id := hold.index];
      rows := rows[hold.index := hold.Row()];
      OneRow(hold);
      SameBatons();
      forall i ensures NameOk(i) { assert old(NameOk(i)); }
    }

    /** One test of the wait loop of takeSlotLocked: false sends the caller to sleep. */
    method TakeSlotLocked() returns (taken: bool)
      requires Valid()
      modifies this`active
      ensures Valid()
      ensures taken == HasRoom(old(Snapshot()))
      ensures Snapshot() == if taken then old(Snapshot()).(active := old(active) + 1) else old(Snapshot())
    {
      taken := limit <= 0 || active < limit;
      if taken { active := active + 1; }
      Untouched();
    }

    /** Counters and the limit are no part of what holds, names and batons keep. */
    twostate lemma Untouched()
      requires old(Valid()) && all == old(all) && rows == old(rows) && names == old(names) && holds == old(holds)
      requires batons == old(batons) && closes == old(closes) && forall x :: x in all ==> x.Row() == old(x.Row())
      ensures Valid()
    {
      forall i: nat ensures HoldOk(i) { assert old(HoldOk(i)); }
      SameNames();
      SameBatons();
    }

    method JoinRepoLocked(hold: TaskHold) returns (previous: Option<nat>)
      requires Valid() && Mine(hold)
      modifies this`repoTail, this`closes, this`batons, this`rows, hold`baton
      ensures Valid()
      ensures Snapshot() == Join(old(Snapshot()), hold.index)
      ensures previous == Snapshot().batons[|old(batons)|].prev && |batons| == |old(batons)| + 1
    {
      AtIndex(hold);
      previous := if hold.repo in repoTail then Some(repoTail[hold.repo]) else None;
      repoTail := repoTail[hold.repo := |closes|];
      hold.baton := Some(|closes|);
      closes := closes + [0];
      batons := batons + [Baton(hold.repo, hold.index, previous, 0)];
      rows := rows[hold.index := hold.Row()];
      OneRow(hold);
      SameNames();
      forall b: nat ensures BatonOk(b) { assert old(BatonOk(b)); }
    }

    /** The slot half of giveBackLocked. */
    method GiveSlotLocked(hold: TaskHold)
      requires Valid() && Mine(hold)
      modifies this`active, this`rows, hold`slot
      ensures Valid() && Snapshot() == GiveSlot(old(Snapshot()), hold.index)
    {
      AtIndex(hold);
      if !hold.slot { return; }
      active := active - 1;
      hold.slot := false;
      rows := rows[hold.index := hold.Row()];
      OneRow(hold);
      SameNames();
      SameBatons();
    }

    /** The place half of giveBackLocked. */
    method GivePlaceLocked(hold: TaskHold)
      requires Valid() && Mine(hold)
      modifies this`closes, this`batons, this`repoTail, this`rows, hold`baton
      ensures Valid() && Snapshot() == GivePlace(old(Snapshot()), hold.index) && |batons| == |old(batons)|
    {
      AtIndex(hold);
      if hold.baton.None? { return; }
      var b := hold.baton.value;
      assert BatonOk(b);
      closes := closes[b := closes[b] + 1];
      batons := batons[b := batons[b].(closes := batons[b].closes + 1)];
      if hold.repo in repoTail && repoTail[hold.repo] == b { repoTail := repoTail - {hold.repo}; }
      hold.baton := None;
      rows := rows[hold.index := hold.Row()];
      OneRow(hold);
      SameNames();
      forall c: nat ensures BatonOk(c) { assert old(BatonOk(c)); }
    }

    method GiveBackLocked(hold: TaskHold)
      requires Valid() && Mine(hold)
      modifies this`active, this`closes, this`batons, this`repoTail, this`rows, hold`slot, hold`baton
      ensures Valid() && Snapshot() == GiveBack(old(Snapshot()), hold.index)
    {
      AtIndex(hold);
      GiveSlotLocked(hold);
      AtIndex(hold);
      GivePlaceLocked(hold);
    }

    /** The record a hold has once its run returned, and the names then left. */
    static function Retired(d: Shared, h: nat): (r: Shared)
      requires h < |d.holds|
    {
      var id := d.holds[h].id;
      UpdateHold(d, h, d.holds[h].(finished := true)).(
        named := if id != 0 && id in d.named && d.named[id] == h then d.named - {id} else d.named)
    }

    /** The first lines of finishRun: no wait report can reach the hold any more. */
    method RetireLocked(hold: TaskHold)
      requires Valid() && Mine(hold)
      modifies this`holds, this`names, this`rows, hold`finished
      ensures Valid() && hold.index < |old(rows)| && Snapshot() == Retired(old(Snapshot()), hold.index)
    {
      AtIndex(hold);
      SameHold(hold, hold.id);
      hold.finished := true;
      if hold.id != 0 && hold.id in holds && holds[hold.id] == hold {
        holds := holds - {hold.id};
        names := names - {hold.id};
      }
      rows := rows[hold.index := hold.Row()];
      OneRow(hold);
      SameBatons();
      forall id ensures NameOk(id) { assert old(NameOk(id)); }
    }

    /** An id names this very hold exactly when it names its index. */
    lemma SameHold(hold: TaskHold, id: int)
      requires Valid() && hold in all
      ensures (id in holds && holds[id] == hold) <==> (id in names && names[id] == hold.index)
    {
      AtIndex(hold);
      assert NameOk(id);
      if id in holds { AtIndex(holds[id]); }
    }

    method FinishRun(hold: TaskHold) returns (andThen: Then)
      requires Valid() && Mine(hold)
      modifies this, hold
      ensures Valid() && all == old(all) && Snapshot() == Dispatcher.FinishRun(old(Snapshot()), hold.index)
      ensures andThen == BroadcastSlots
    {
      AtIndex(hold);
      RetireLocked(hold);
      AtIndex(hold);
      GiveBackLocked(hold);
      CountDown();
      return BroadcastSlots;
    }

    method CountDown()
      requires Valid()
      modifies this`pending
      ensures Valid() && Snapshot() == old(Snapshot()).(pending := old(pending) - 1)
    {
      pending := pending - 1;
      Untouched();
    }

    method SetWaits(hold: TaskHold, waits: nat)
      requires Valid() && Mine(hold)
      modifies this`rows, hold`waits
      ensures Valid() && hold.index < |old(rows)|
      ensures Snapshot() == UpdateHold(old(Snapshot()), hold.index, old(rows)[hold.index].(waits := waits))
    {
      AtIndex(hold);
      hold.waits := waits;
      rows := rows[hold.index := hold.Row()];
      OneRow(hold);
      SameNames();
      SameBatons();
    }

    method SetCallWaits(hold: TaskHold, waits: nat) returns (andThen: Then)
      requires Valid() && Mine(hold)
      modifies this, hold
      ensures Valid() && all == old(all) && Snapshot() == Dispatcher.SetCallWaits(old(Snapshot()), hold.index, waits)
      ensures andThen == if !TracksWaits(old(Snapshot()), hold.index) then Nothing
                         else if waits > 0 then BroadcastSlots
                         else if old(hold.waits) > 0 then SpawnReacquire else Nothing
    {
      AtIndex(hold);
      SameHold(hold, hold.id);
      if hold.id !in holds || holds[hold.id] != hold || hold.finished { return Nothing; }
      var previous := hold.waits;
      SetWaits(hold, waits);
      AtIndex(hold);
      if waits > 0 { GiveBackLocked(hold); }
      andThen := if waits > 0 then BroadcastSlots else if previous > 0 then SpawnReacquire else Nothing;
    }

    /** The first critical section of reacquire. */
    method ReacquireEnter(hold: TaskHold) returns (entered: Entered)
      requires Valid() && Mine(hold)
      modifies this, hold
      ensures Valid() && all == old(all)
      ensures entered == GaveUp <==> NotNeeded(old(Snapshot()), hold.index)
      ensures Snapshot() == if entered != GaveUp && NeedsPlace(old(Snapshot()), hold.index)
                            then Join(old(Snapshot()), hold.index) else old(Snapshot())
      ensures entered.Waits? && entered.previous.Some? ==>
                |batons| == |old(batons)| + 1 && batons[|old(batons)|].prev == entered.previous
    {
      AtIndex(hold);
      if hold.finished || hold.waits > 0 { return GaveUp; }
      if hold.chain && hold.baton.None? {
        var previous := JoinRepoLocked(hold);
        return Waits(previous);
      }
      return Waits(None);
    }

    /** The slot of a re-acquire, recorded. */
    method TakeSlot(hold: TaskHold)
      requires Valid() && Mine(hold) && !hold.slot
      modifies this`active, this`rows, hold`slot
      ensures Valid() && hold.index < |old(rows)|
      ensures Snapshot() == UpdateHold(old(Snapshot()), hold.index, old(rows)[hold.index].(slot := true)).(active := old(active) + 1)
    {
      AtIndex(hold);
      active := active + 1;
      hold.slot := true;
      rows := rows[hold.index := hold.Row()];
      OneRow(hold);
      SameNames();
      SameBatons();
    }

    /** The second critical section of reacquire, once its wait for the limit ended. */
    method ReacquireTaken(hold: TaskHold) returns (andThen: Then)
      requires Valid() && Mine(hold) && HasRoom(Snapshot())
      modifies this, hold
      ensures Valid() && all == old(all) && Snapshot() == ReacquireTake(old(Snapshot()), hold.index)
      ensures andThen == if old(hold.slot) || NotNeeded(old(Snapshot()), hold.index) then BroadcastSlots else Nothing
    {
      AtIndex(hold);
      // The slot is counted in, and counted out again when another re-acquire took the run's one slot.
      if hold.slot { return BroadcastSlots; }
      TakeSlot(hold);
      AtIndex(hold);
      if hold.finished || hold.waits > 0 {
        GiveBackLocked(hold);
        return BroadcastSlots;
      }
      return Nothing;
    }

    /** A hold of its own for a submission. */
    method NewHold(repo: string, chain: bool) returns (hold: TaskHold)
      requires Valid()
      modifies this`all, this`rows
      ensures Valid() && fresh(hold) && all == old(all) + [hold] && hold.index == |old(rows)| && hold.repo == repo
      ensures Snapshot() == old(Snapshot()).(holds := old(rows) + [Hold(repo, chain, None, false, 0, false, 0)])
    {
      hold := new TaskHold(repo, chain, |all|);
      all := all + [hold];
      rows := rows + [hold.Row()];
      forall i: nat ensures HoldOk(i) { assert old(HoldOk(i)); }
      forall id ensures NameOk(id) { assert old(NameOk(id)); }
      SameBatons();
    }

    /** The first half of Submit. */
    method SubmitJoin(repo: string, chain: bool) returns (hold: TaskHold, previous: Option<nat>)
      requires Valid()
      modifies this
      ensures Valid() && fresh(hold) && all == old(all) + [hold]
      ensures Snapshot() == Dispatcher.SubmitJoin(old(Snapshot()), repo, chain)
      ensures previous == SubmitPrev(old(Snapshot()), repo, chain)
    {
      hold := NewHold(repo, chain);
      previous := None;
      AtIndex(hold);
      if chain { previous := JoinRepoLocked(hold); }
    }

    /** The second half of Submit. */
    method SubmitCount()
      requires Valid()
      modifies this`pending
      ensures Valid() && all == old(all) && Snapshot() == old(Snapshot()).(pending := old(pending) + 1)
    {
      pending := pending + 1;
      Untouched();
    }
  }
}
