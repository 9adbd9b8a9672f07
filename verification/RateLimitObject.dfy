/** The limiter as an object: each key's log is a slice pruned in place over its own buffer. */
module RateLimitObject {
  import opened RateLimit

  /** A slice: the first `len` cells of its buffer. */
  datatype Slice = Slice(data: array<int>, len: nat)

  /** The loop of Allow: the kept prefix overwrites the very buffer the loop still reads. */
  method PruneInPlace(a: array<int>, n: nat, cutoff: int) returns (k: nat)
    requires n <= a.Length
    modifies a
    ensures k <= n && a[..k] == After(old(a[..n]), cutoff)
  {
    k := 0;
    ghost var was := a[..n];
    for i := 0 to n
      invariant k <= i && a[..k] == After(was[..i], cutoff)
      invariant a[i..n] == was[i..]
    {
      assert was[..i + 1][..i] == was[..i];
      assert a[i] == a[i..n][0] && was[i] == was[i..][0];
      assert a[i + 1..n] == a[i..n][1..] && was[i + 1..] == was[i..][1..];
      if a[i] > cutoff {
        a[k] := a[i];
        k := k + 1;
        assert a[..k] == a[..k - 1] + [was[i]];
      }
    }
    assert was[..n] == was;
  }

  /** The append: in place while the buffer has room, into a larger copy otherwise. */
  method Append(a: array<int>, n: nat, x: int) returns (b: array<int>)
    requires n <= a.Length
    modifies a
    ensures n < b.Length && b[..n + 1] == old(a[..n]) + [x]
    ensures b == a || fresh(b)
  {
    ghost var was := a[..n];
    b := a;
    if n == a.Length {
      b := new int[2 * n + 1];
      for i := 0 to n
        invariant b[..i] == was[..i] && a[..n] == was
      {
        b[i] := a[i];
        assert b[..i + 1] == b[..i] + [was[i]];
      }
      assert was[..n] == was;
    }
    b[n] := x;
    assert b[..n + 1] == b[..n] + [x];
  }

  method HasHitAfter(a: array<int>, n: nat, cutoff: int) returns (found: bool)
    requires n <= a.Length
    ensures found == HasHit(a[..n], cutoff)
  {
    for i := 0 to n
      invariant forall j :: 0 <= j < i ==> a[j] <= cutoff
    {
      if a[i] > cutoff {
        assert a[..n][i] > cutoff;
        return true;
      }
    }
    return false;
  }

  class Limiter {
    const window: int
    const max: int
    var hits: map<Key, Slice>
    /** The log each key's slice holds, and the key each buffer was made for. */
    ghost var logs: map<Key, seq<int>>
    ghost var owner: map<array<int>, Key>

    ghost predicate Owned(key: Key, slice: Slice)
      reads this
    {
      slice.len <= slice.data.Length && slice.data in owner && owner[slice.data] == key
    }

    ghost predicate Keeps(key: Key)
      reads this, owner.Keys
    {
      && key in hits && key in logs && Owned(key, hits[key])
      && hits[key].data[..hits[key].len] == logs[key]
    }

    /** Every slice but perhaps one holds its log, in a buffer no other key has. */
    ghost predicate ValidBut(apart: Key)
      reads this, owner.Keys
    {
      hits.Keys == logs.Keys && forall key {:trigger Keeps(key)} :: key in hits && key != apart ==> Keeps(key)
    }

    ghost predicate Valid()
      reads this, owner.Keys
    {
      hits.Keys == logs.Keys && forall key {:trigger Keeps(key)} :: key in hits ==> Keeps(key)
    }

    constructor (window: int, max: int)
      ensures Valid() && logs == map[] && this.window == window && this.max == max && owner == map[]
    {
      this.window, this.max, hits := window, max, map[];
      logs, owner := map[], map[];
    }

    /** The key's slice, or an empty one of its own. */
    method Find(key: Key) returns (slice: Slice)
      requires Valid()
      modifies this`owner
      ensures Valid() && Owned(key, slice) && old(owner.Keys) <= owner.Keys && fresh(owner.Keys - old(owner.Keys))
      ensures slice.data[..slice.len] == LogOf(logs, key)
    {
      if key in hits {
        assert Keeps(key);
        slice := hits[key];
      } else {
        var none := new int[0];
        owner := owner[none := key];
        slice := Slice(none, 0);
        forall k | k in hits ensures Keeps(k) { assert old(Keeps(k)); }
      }
    }

    /** The slice pruned to the window, no other log touched. */
    method Prune(key: Key, slice: Slice, cutoff: int) returns (shorter: Slice)
      requires Valid() && Owned(key, slice)
      modifies slice.data
      ensures ValidBut(key) && Owned(key, shorter) && shorter.data == slice.data
      ensures shorter.data[..shorter.len] == After(old(slice.data[..slice.len]), cutoff)
    {
      var k := PruneInPlace(slice.data, slice.len, cutoff);
      shorter := Slice(slice.data, k);
      forall k | k in hits && k != key ensures Keeps(k) { assert old(Keeps(k)); }
    }

    /** One more hit on a slice, no other log touched. */
    method Extend(key: Key, slice: Slice, now: int) returns (longer: Slice)
      requires ValidBut(key) && Owned(key, slice)
      modifies this`owner, slice.data
      ensures ValidBut(key) && Owned(key, longer) && fresh(owner.Keys - old(owner.Keys))
      ensures longer.data[..longer.len] == old(slice.data[..slice.len]) + [now]
    {
      var data := Append(slice.data, slice.len, now);
      owner := owner[data := key];
      longer := Slice(data, slice.len + 1);
      forall k | k in hits && k != key ensures Keeps(k) { assert old(Keeps(k)); }
    }

    method Store(key: Key, slice: Slice)
      requires ValidBut(key) && Owned(key, slice)
      modifies this`hits, this`logs
      ensures Valid() && logs == old(logs)[key := slice.data[..slice.len]]
    {
      hits := hits[key := slice];
      logs := logs[key := slice.data[..slice.len]];
      forall k | k in hits ensures Keeps(k) { assert k != key ==> old(Keeps(k)); }
    }

    method Allow(key: Key, now: int) returns (allowed: bool)
      requires Valid()
      modifies this, owner.Keys
      ensures Valid() && fresh(owner.Keys - old(owner.Keys))
      ensures (logs, allowed) == Request(old(logs), key, now, window, max)
    {
      var slice := Find(key);
      slice := Prune(key, slice, now - window);
      allowed := slice.len < max;
      if allowed { slice := Extend(key, slice, now); }
      Store(key, slice);
    }

    /** Every key visited once, in any order; the stale ones are dropped and counted. */
    method EvictStale(now: int) returns (evicted: nat)
      requires Valid()
      modifies this`hits, this`logs
      ensures Valid()
      ensures logs == Evict(old(logs), now, window)
      ensures evicted == |old(logs)| - |logs|
    {
      ghost var was := logs;
      var todo := hits.Keys;
      evicted := 0;
      EvictNone(was, now - window);
      while todo != {}
        invariant Valid() && todo <= was.Keys
        invariant Evicting(was, todo, now - window, logs)
        invariant evicted == |was| - |logs|
        decreases todo
      {
        var key :| key in todo;
        var gone := Visit(key, now - window, was, todo);
        if gone { evicted := evicted + 1; }
        todo := todo - {key};
      }
      EvictAll(was, now, window, logs);
    }

    /** One key of the loop. */
    method Visit(key: Key, cutoff: int, ghost was: map<Key, seq<int>>, ghost todo: set<Key>) returns (gone: bool)
      requires Valid() && key in todo && key in was && Evicting(was, todo, cutoff, logs)
      modifies this`hits, this`logs
      ensures Valid() && Evicting(was, todo - {key}, cutoff, logs) && |logs| == |old(logs)| - if gone then 1 else 0
    {
      ghost var before := logs;
      StillThere(was, todo, key, cutoff, logs);
      gone := EvictKey(key, cutoff);
      EvictOne(was, todo, key, cutoff, before, logs);
    }

    method EvictKey(key: Key, cutoff: int) returns (gone: bool)
      requires Valid() && key in logs
      modifies this`hits, this`logs
      ensures Valid() && gone == !HasHit(old(logs)[key], cutoff)
      ensures gone ==> logs == old(logs) - {key} && |logs| == |old(logs)| - 1
      ensures !gone ==> logs == old(logs)
    {
      assert Keeps(key);
      var live := HasHitAfter(hits[key].data, hits[key].len, cutoff);
      if live { return false; }
      Drop(key);
      return true;
    }

    method Drop(key: Key)
      requires Valid() && key in logs
      modifies this`hits, this`logs
      ensures Valid() && logs == old(logs) - {key} && |logs| == |old(logs)| - 1
    {
      SizeWithout(logs, {key});
      hits, logs := hits - {key}, logs - {key};
      forall k | k in hits ensures Keeps(k) { assert old(Keeps(k)); }
    }
  }

  /** The eviction with some keys still to visit. */
  ghost predicate Evicting(logs: map<Key, seq<int>>, todo: set<Key>, cutoff: int, left: map<Key, seq<int>>) {
    left == map key | key in logs && (key in todo || HasHit(logs[key], cutoff)) :: logs[key]
  }

  lemma EvictNone(logs: map<Key, seq<int>>, cutoff: int)
    ensures Evicting(logs, logs.Keys, cutoff, logs)
  {
  }

  lemma EvictAll(logs: map<Key, seq<int>>, now: int, window: int, left: map<Key, seq<int>>)
    requires Evicting(logs, {}, now - window, left)
    ensures left == Evict(logs, now, window)
  {
  }

  lemma StillThere(logs: map<Key, seq<int>>, todo: set<Key>, key: Key, cutoff: int, left: map<Key, seq<int>>)
    requires key in todo && key in logs && Evicting(logs, todo, cutoff, left)
    ensures key in left
  {
  }

  /** One key visited. */
  lemma EvictOne(logs: map<Key, seq<int>>, todo: set<Key>, key: Key, cutoff: int, left: map<Key, seq<int>>, next: map<Key, seq<int>>)
    requires key in todo && key in logs && Evicting(logs, todo, cutoff, left) && key in left
    requires !HasHit(left[key], cutoff) ==> next == left - {key}
    requires HasHit(left[key], cutoff) ==> next == left
    ensures Evicting(logs, todo - {key}, cutoff, next)
  {
  }

  lemma SizeWithout<K, V>(m: map<K, V>, gone: set<K>)
    requires gone <= m.Keys
    ensures |m - gone| == |m| - |gone|
  {
    assert (m - gone).Keys == m.Keys - gone;
    assert |m| == |m.Keys| && |m - gone| == |(m - gone).Keys|;
  }
}
