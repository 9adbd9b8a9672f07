/**
 The batcher as an object: its map, its list of open batches and the batches
 themselves change in place under its mutex. Each critical section is proved
 to move `Value` as the functions of `TextBatch` say; the calls, arrivals and
 settlements that the theorems speak of are kept for the proof only.
 */
module TextBatchObject {
  import opened TextBatch

  class TextBatchAggregator {
    const cfg: Config
    var open: map<Key, nat>
    var listed: seq<nat>
    var batches: seq<Batch>
    var callCount: nat
    ghost var calls: seq<Call>
    ghost var arrived: seq<Fragment>
    ghost var settled: seq<nat>

    ghost function Value(): (s: State)
      reads this
    {
      State(open, listed, batches, calls, arrived, settled)
    }

    ghost predicate Valid()
      reads this
    {
      callCount == |calls| && forall key :: key in open ==> open[key] < |batches|
    }

    constructor (cfg: Config)
      ensures Valid() && Value() == EMPTY && this.cfg == cfg
    {
      this.cfg := cfg;
      open, listed, batches, callCount := map[], [], [], 0;
      calls, arrived, settled := [], [], [];
    }

    /** The eviction loop: the oldest open batches become due, and stay open until they settle. */
    method EvictOldest(now: int)
      modifies this`batches, this`listed
      ensures batches == Evict(old(batches), old(listed), cfg.openCap, now)
      ensures listed == KeepNewest(old(listed), cfg.openCap)
    {
      while |listed| > cfg.openCap
        invariant Evict(batches, listed, cfg.openCap, now) == Evict(old(batches), old(listed), cfg.openCap, now)
        invariant KeepNewest(listed, cfg.openCap) == KeepNewest(old(listed), cfg.openCap)
        invariant |batches| == |old(batches)|
        decreases |listed|
      {
        var oldest := listed[0];
        assert KeepNewest(listed[1..], cfg.openCap) == KeepNewest(listed, cfg.openCap);
        listed := listed[1..];
        if oldest < |batches| { batches := batches[oldest := batches[oldest].(deadline := now)]; }
      }
    }

    /** The critical section of Collect, for a text that may be coalesced. */
    method JoinBatch(f: Fragment, now: int) returns (b: nat, index: nat)
      requires Valid()
      modifies this
      ensures Valid() && Value() == Join(old(Value()), cfg, f, now)
      ensures calls == old(calls) + [Call(b, index, Waiting)]
    {
      if f.key !in open {
        open := open[f.key := |batches|];
        listed := listed + [|batches|];
        batches := batches + [NewBatch(f.key, now + cfg.window)];
        EvictOldest(now);
      }
      assert State(open, listed, batches, calls, arrived, settled) == OpenBatch(old(Value()), cfg, f.key, now);
      b := open[f.key];
      index := |batches[b].fragments|;
      batches := batches[b := AddFragment(batches[b], cfg, f, callCount, now)];
      callCount := callCount + 1;
      calls := calls + [Call(b, index, Waiting)];
      arrived := arrived + [f];
    }

    /** The critical section of a call whose context ended. */
    method Leave(c: nat, b: nat, index: nat)
      requires Valid() && Enabled(Value(), LeaveL(c)) && calls[c].batch == b && calls[c].index == index
      modifies this
      ensures Valid() && Value() == Apply(old(Value()), cfg, LeaveL(c))
    {
      batches := batches[b := batches[b].(left := batches[b].left[index := true])];
      calls := calls[c := calls[c].(pc := Cancelled)];
    }

    /** The list without the settled batch. */
    method Unlist(b: nat)
      modifies this`listed
      ensures listed == RemoveFirst(old(listed), b)
    {
      for i := 0 to |listed|
        invariant listed == old(listed) && forall k :: 0 <= k < i ==> listed[k] != b
      {
        if listed[i] == b {
          RemoveFirstAt(listed, b, i);
          listed := listed[..i] + listed[i + 1..];
          return;
        }
      }
      RemoveFirstAbsent(listed, b);
    }

    static method FindDispatcher(left: seq<bool>) returns (i: int)
      ensures i == FirstStaying(left)
    {
      for k := 0 to |left|
        invariant forall j :: 0 <= j < k ==> left[j]
      {
        if !left[k] { return k; }
      }
      return -1;
    }

    /** settle, called by the one watcher of the batch. */
    method SettleBatchLocked(b: nat)
      requires Valid() && b < |batches|
      modifies this
      ensures Valid() && Value() == if old(batches)[b].settled then old(Value()) else Settle(old(Value()), b)
    {
      if batches[b].settled { return; }
      open := open - {batches[b].key};
      Unlist(b);
      var dispatcher := FindDispatcher(batches[b].left);
      var payload := CombinedText(batches[b].fragments);
      batches := batches[b := batches[b].(settled := true, dispatcher := dispatcher, payload := payload)];
      settled := settled + [b];
    }
  }

  lemma {:induction false} RemoveFirstAt(s: seq<nat>, x: nat, i: nat)
    requires i < |s| && s[i] == x && forall k :: 0 <= k < i ==> s[k] != x
    ensures RemoveFirst(s, x) == s[..i] + s[i + 1..]
  {
    if i > 0 { RemoveFirstAt(s[1..], x, i - 1); }
  }

  lemma {:induction false} RemoveFirstAbsent(s: seq<nat>, x: nat)
    requires forall k :: 0 <= k < |s| ==> s[k] != x
    ensures RemoveFirst(s, x) == s
  {
    if |s| > 0 { RemoveFirstAbsent(s[1..], x); }
  }
}
