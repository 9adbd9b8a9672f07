/**
 The text batcher: fragments from one sender join one open batch, which settles
 once and hands its payload to one of the calls that joined it. `State` holds
 what the mutex guards, every call with its program counter, and the order in
 which fragments arrived and batches settled.
 */
module TextBatch {

  /** One conversational stream. */
  datatype Key = Key(platform: string, conversation: string, sender: string)

  datatype Fragment = Fragment(key: Key, text: string)

  /** `callers[i]` is the call that added fragment `i`; `due` is set once the batch's watcher has seen its deadline pass. */
  datatype Batch = Batch(key: Key, fragments: seq<Fragment>, callers: seq<nat>, left: seq<bool>, runes: nat, deadline: int,
                         due: bool, settled: bool, dispatcher: int, payload: string)

  datatype CallPC = Waiting | Leaving | Returned(mine: bool) | Cancelled

  /** A Collect call that added fragment `index` to batch `batch`. */
  datatype Call = Call(batch: nat, index: nat, pc: CallPC)

  datatype Config = Config(window: int, maxFragments: nat, maxRunes: nat, openCap: nat)

  datatype State = State(open: map<Key, nat>, listed: seq<nat>, batches: seq<Batch>, calls: seq<Call>,
                         arrived: seq<Fragment>, settled: seq<nat>)

  // ---- text ----

  predicate IsSpace(c: char) {
    c in {' ', '\t', '\n', '\r'} || c as int in {0x0B, 0x0C, 0x85, 0xA0, 0x1680, 0x2028, 0x2029, 0x202F, 0x205F, 0x3000}
    || 0x2000 <= c as int <= 0x200A
  }

  function TrimLeft(s: string): (r: string)
    ensures |r| <= |s|
  {
    if s == "" || !IsSpace(s[0]) then s else TrimLeft(s[1..])
  }

  function TrimRight(s: string): (r: string)
    ensures |r| <= |s|
  {
    if s == "" || !IsSpace(s[|s| - 1]) then s else TrimRight(s[..|s| - 1])
  }

  function Trim(s: string): (r: string) { TrimRight(TrimLeft(s)) }

  /** The texts, trimmed, one per line. */
  function Joined(fragments: seq<Fragment>): (r: string) {
    if |fragments| == 0 then ""
    else if |fragments| == 1 then Trim(fragments[0].text)
    else Joined(fragments[..|fragments| - 1]) + "\n" + Trim(fragments[|fragments| - 1].text)
  }

  /** The body of combined. */
  method CombinedText(fragments: seq<Fragment>) returns (body: string)
    ensures body == Joined(fragments)
  {
    body := "";
    for i := 0 to |fragments|
      invariant body == Joined(fragments[..i])
    {
      assert fragments[..i + 1][..i] == fragments[..i];
      if i > 0 { body := body + "\n"; }
      body := body + Trim(fragments[i].text);
    }
    assert fragments[..|fragments|] == fragments;
  }

  // ---- critical sections ----

  function NewBatch(key: Key, deadline: int): (b: Batch) { Batch(key, [], [], [], 0, deadline, false, false, 0, "") }

  /** Evictions move the oldest batches' deadlines to now; their keys stay open. */
  function Evict(batches: seq<Batch>, listed: seq<nat>, openCap: nat, now: int): (r: seq<Batch>)
    ensures |r| == |batches|
    decreases |listed|
  {
    if |listed| <= openCap then batches
    else Evict(if listed[0] < |batches| then batches[listed[0] := batches[listed[0]].(deadline := now)] else batches,
               listed[1..], openCap, now)
  }

  function KeepNewest(listed: seq<nat>, openCap: nat): (r: seq<nat>) {
    if |listed| <= openCap then listed else listed[|listed| - openCap..]
  }

  /** Collect opens a batch for a key that has none. */
  function OpenBatch(s: State, cfg: Config, key: Key, now: int): (r: State) {
    if key in s.open then s
    else
      var b := |s.batches|;
      var listed := s.listed + [b];
      s.(open := s.open[key := b],
         batches := Evict(s.batches + [NewBatch(key, now + cfg.window)], listed, cfg.openCap, now),
         listed := KeepNewest(listed, cfg.openCap))
  }

  function AddFragment(b: Batch, cfg: Config, f: Fragment, caller: nat, now: int): (r: Batch) {
    var fragments, runes := b.fragments + [f], b.runes + |Trim(f.text)|;
    b.(fragments := fragments, callers := b.callers + [caller], left := b.left + [false], runes := runes,
       deadline := if |fragments| >= cfg.maxFragments || runes >= cfg.maxRunes then now else b.deadline)
  }

  /** The first call that has not left, or -1. */
  function FirstStaying(left: seq<bool>): (i: int)
    ensures -1 <= i < |left|
    ensures i >= 0 ==> !left[i] && forall k :: 0 <= k < i ==> left[k]
    ensures i == -1 ==> forall k :: 0 <= k < |left| ==> left[k]
  {
    if |left| == 0 then -1
    else
      var i := FirstStaying(left[..|left| - 1]);
      if i >= 0 then i else if !left[|left| - 1] then |left| - 1 else -1
  }

  function RemoveFirst(s: seq<nat>, x: nat): (r: seq<nat>) {
    if |s| == 0 then [] else if s[0] == x then s[1..] else [s[0]] + RemoveFirst(s[1..], x)
  }

  function SettleBatch(b: Batch): (r: Batch) {
    b.(settled := true, dispatcher := FirstStaying(b.left), payload := Joined(b.fragments))
  }

  // ---- steps ----

  datatype Label =
    | JoinL(f: Fragment, now: int)
    | CancelL(c: nat)
    | LeaveL(c: nat)
    | DueL(b: nat, now: int)
    | SettleL(b: nat)
    | ReturnL(c: nat)

  /** The batch a call joined exists, and records it. */
  predicate CallOk(s: State, c: Call) {
    c.batch < |s.batches| && c.index < |s.batches[c.batch].left|
  }

  predicate Enabled(s: State, l: Label) {
    match l
    case JoinL(f, _) => f.key in s.open ==> s.open[f.key] < |s.batches|
    case CancelL(c) => c < |s.calls| && s.calls[c].pc.Waiting?
    case LeaveL(c) => c < |s.calls| && s.calls[c].pc.Leaving? && CallOk(s, s.calls[c])
    case DueL(b, now) => b < |s.batches| && !s.batches[b].settled && s.batches[b].deadline <= now
    case SettleL(b) => b < |s.batches| && !s.batches[b].settled && s.batches[b].due
    case ReturnL(c) => c < |s.calls| && s.calls[c].pc.Waiting? && CallOk(s, s.calls[c]) && s.batches[s.calls[c].batch].settled
  }

  function Join(s: State, cfg: Config, f: Fragment, now: int): (t: State)
    requires Enabled(s, JoinL(f, now))
  {
    var s1 := OpenBatch(s, cfg, f.key, now);
    var b := s1.open[f.key];
    s1.(batches := s1.batches[b := AddFragment(s1.batches[b], cfg, f, |s1.calls|, now)],
        calls := s1.calls + [Call(b, |s1.batches[b].fragments|, Waiting)],
        arrived := s1.arrived + [f])
  }

  function Settle(s: State, b: nat): (t: State)
    requires b < |s.batches|
  {
    s.(batches := s.batches[b := SettleBatch(s.batches[b])],
       open := s.open - {s.batches[b].key},
       listed := RemoveFirst(s.listed, b),
       settled := s.settled + [b])
  }

  function Apply(s: State, cfg: Config, l: Label): (t: State)
    requires Enabled(s, l)
  {
    match l
    case JoinL(f, now) => Join(s, cfg, f, now)
    case CancelL(c) => s.(calls := s.calls[c := s.calls[c].(pc := Leaving)])
    case LeaveL(c) =>
      var x := s.calls[c];
      s.(batches := s.batches[x.batch := s.batches[x.batch].(left := s.batches[x.batch].left[x.index := true])],
         calls := s.calls[c := x.(pc := Cancelled)])
    case DueL(b, _) => s.(batches := s.batches[b := s.batches[b].(due := true)])
    case SettleL(b) => Settle(s, b)
    case ReturnL(c) =>
      var x := s.calls[c];
      s.(calls := s.calls[c := x.(pc := Returned(s.batches[x.batch].dispatcher == x.index))])
  }

  const EMPTY := State(map[], [], [], [], [], [])

  predicate Next(s: State, cfg: Config, l: Label, t: State) { Enabled(s, l) && t == Apply(s, cfg, l) }

  predicate IsRun(states: seq<State>, cfg: Config, labels: seq<Label>) {
    && |states| == |labels| + 1 && states[0] == EMPTY
    && forall i :: 0 <= i < |labels| ==> Next(states[i], cfg, labels[i], states[i + 1])
  }
}
