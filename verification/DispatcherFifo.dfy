/**
 Per-repository order. Each repository's batons form a chain in join order. A
 baton is at its head when it is open and nothing it was queued behind still is.
 `giveBackLocked` closes a place whether or not it is at the head, so one head
 per repository is not an invariant of the code; this module proves exactly
 when it holds.
 */
module DispatcherFifo {
  import opened Options
  import opened Dispatcher
  import opened DispatcherInvariant

  /** The newest baton of `repo` among the first `n`. */
  ghost function Last(batons: seq<Baton>, repo: string, n: nat): (r: Option<nat>)
    requires n <= |batons|
    ensures r.Some? ==> r.value < n && batons[r.value].repo == repo
    ensures r.Some? ==> forall c :: r.value < c < n ==> batons[c].repo != repo
    ensures r.None? ==> forall c :: 0 <= c < n ==> batons[c].repo != repo
  {
    if n == 0 then None
    else if batons[n - 1].repo == repo then Some(n - 1)
    else Last(batons, repo, n - 1)
  }

  /** A baton was queued behind the newest one before it, unless that one was already closed. */
  ghost predicate LinkOk(d: Shared, b: nat) {
    b < |d.batons| ==>
      var last := Last(d.batons, d.batons[b].repo, b);
      d.batons[b].prev == last || (d.batons[b].prev.None? && last.Some? && !Open(d, last.value))
  }

  /** The tail of a repository is its newest baton while that one is open. */
  ghost predicate NewestOk(d: Shared, repo: string) {
    var last := Last(d.batons, repo, |d.batons|);
    if last.Some? && Open(d, last.value) then repo in d.repoTail && d.repoTail[repo] == last.value
    else repo !in d.repoTail
  }

  ghost predicate Chains(d: Shared) {
    && (forall b: nat :: LinkOk(d, b))
    && (forall repo :: NewestOk(d, repo))
  }

  /** Two batons of one repository, `a` joined first. */
  ghost predicate Earlier(d: Shared, a: nat, b: nat) {
    a < b < |d.batons| && d.batons[a].repo == d.batons[b].repo
  }

  /** Turns are granted in join order: behind a baton that has had its turn, every earlier one is closed. */
  ghost predicate Ordered(d: Shared) {
    forall a: nat, b: nat :: Earlier(d, a, b) && Settled(d, b) ==> !Open(d, a)
  }

  predicate Head(d: Shared, b: nat) {
    Open(d, b) && Settled(d, b)
  }

  /** At most one hold per repository has reached the front of its chain. */
  ghost predicate OneHead(d: Shared) {
    forall a: nat, b: nat :: Earlier(d, a, b) ==> !(Head(d, a) && Head(d, b))
  }

  // ---- what a step does to the chains ----

  datatype Effect = Same | Joined(repo: string) | Closed(b: nat)

  function EffectOf(s: State, l: Label): (e: Effect)
    requires Enabled(s, l)
  {
    match l
    case SubmitL(repo, chain) => if chain then Joined(repo) else Same
    case EnterL(r) =>
      var h := s.resumes[r].hold;
      if !NotNeeded(s.d, h) && NeedsPlace(s.d, h) then Joined(s.d.holds[h].repo) else Same
    case FinishL(h) => if s.d.holds[h].baton.Some? then Closed(s.d.holds[h].baton.value) else Same
    case WaitsL(h, waits) =>
      if TracksWaits(s.d, h) && waits > 0 && s.d.holds[h].baton.Some? then Closed(s.d.holds[h].baton.value) else Same
    case _ => Same
  }

  /** The step gives back a place that is still queued behind an open predecessor. */
  predicate GivesBackQueued(s: State, l: Label)
    requires Enabled(s, l)
  {
    EffectOf(s, l).Closed? && !Settled(s.d, EffectOf(s, l).b)
  }

  /** `e` follows `d` by the given effect, as far as the chains are concerned. */
  ghost predicate HasEffect(d: Shared, e: Shared, effect: Effect) {
    match effect
    case Same => e.batons == d.batons && e.repoTail == d.repoTail
    case Joined(repo) =>
      && |e.batons| == |d.batons| + 1 && e.batons[..|d.batons|] == d.batons
      && e.batons[|d.batons|].repo == repo && e.batons[|d.batons|].closes == 0
      && e.batons[|d.batons|].prev == (if repo in d.repoTail then Some(d.repoTail[repo]) else None)
      && e.repoTail == d.repoTail[repo := |d.batons|]
    case Closed(b) =>
      && Open(d, b)
      && e.batons == d.batons[b := d.batons[b].(closes := 1)]
      && e.repoTail == (if d.batons[b].repo in d.repoTail && d.repoTail[d.batons[b].repo] == b
                        then d.repoTail - {d.batons[b].repo} else d.repoTail)
  }

  /** Giving back hold `h` after any change that leaves the places alone. */
  lemma GiveBackChains(d: Shared, d1: Shared, h: nat)
    requires Batons(d) && SamePlaces(d, d1) && h < |d.holds|
    requires d.holds[h].baton.Some? ==> d.holds[h].baton.value < |d.batons|
    ensures HasEffect(d, GiveBack(d1, h), if d.holds[h].baton.Some? then Closed(d.holds[h].baton.value) else Same)
  {
    if d.holds[h].baton.Some? {
      assert PlaceOk(d, h);
      assert BatonOk(d, d.holds[h].baton.value);
    }
  }

  lemma StepEffect(s: State, l: Label)
    requires Inv(s) && Enabled(s, l)
    ensures HasEffect(s.d, Apply(s, l).d, EffectOf(s, l))
  {
    match l
    case FinishL(h) => FinishChains(s, h);
    case WaitsL(h, waits) => WaitsChains(s, h, waits);
    case ResumeGateL(r) => ResumeGateChains(s, r);
    case _ =>
  }

  lemma FinishChains(s: State, h: nat)
    requires Inv(s) && Enabled(s, FinishL(h))
    ensures HasEffect(s.d, Apply(s, FinishL(h)).d, EffectOf(s, FinishL(h)))
  {
    var id := s.d.holds[h].id;
    var d1 := UpdateHold(s.d, h, s.d.holds[h].(finished := true));
    var d2 := if id != 0 && id in d1.named && d1.named[id] == h then d1.(named := d1.named - {id}) else d1;
    GiveBackChains(s.d, d2, h);
  }

  lemma WaitsChains(s: State, h: nat, waits: nat)
    requires Inv(s) && Enabled(s, WaitsL(h, waits))
    ensures HasEffect(s.d, Apply(s, WaitsL(h, waits)).d, EffectOf(s, WaitsL(h, waits)))
  {
    var d1 := UpdateHold(s.d, h, s.d.holds[h].(waits := waits));
    GiveBackChains(s.d, d1, h);
  }

  lemma ResumeGateChains(s: State, r: nat)
    requires Inv(s) && Enabled(s, ResumeGateL(r))
    ensures HasEffect(s.d, Apply(s, ResumeGateL(r)).d, Same)
  {
    var h := s.resumes[r].hold;
    assert ResumeOk(s.runs, s.resumes[r]);
    assert RunOk(s.d, h, s.runs[h]);
    if NotNeeded(s.d, h) {
      GiveBackChains(s.d, s.d.(active := s.d.active + 1, holds := s.d.holds[h := s.d.holds[h].(slot := true)]), h);
    }
  }

  // ---- chains are kept by every step ----

  lemma {:induction false} LastFrame(xs: seq<Baton>, ys: seq<Baton>, repo: string, n: nat)
    requires n <= |xs| && n <= |ys|
    requires forall b :: 0 <= b < n ==> xs[b].repo == ys[b].repo
    ensures Last(xs, repo, n) == Last(ys, repo, n)
  {
    if n > 0 { LastFrame(xs, ys, repo, n - 1); }
  }

  lemma ChainsStep(d: Shared, e: Shared, effect: Effect)
    requires Chains(d) && HasEffect(d, e, effect)
    ensures Chains(e)
  {
    forall b: nat ensures LinkOk(e, b) {
      if b < |e.batons| {
        var repo := e.batons[b].repo;
        LastFrame(d.batons, e.batons, repo, if b < |d.batons| then b else |d.batons|);
        if b < |d.batons| { assert LinkOk(d, b); } else { assert NewestOk(d, repo); }
      }
    }
    forall repo ensures NewestOk(e, repo) {
      assert NewestOk(d, repo);
      LastFrame(d.batons, e.batons, repo, |d.batons|);
    }
  }

  lemma ChainsInit(limit: int)
    ensures Chains(Init(limit).d) && Ordered(Init(limit).d)
  {
  }

  // ---- order is kept exactly by steps that give back no queued place ----

  /** Nothing of the repository lies between a baton and the one it was queued behind. */
  lemma EarlierBeforePrev(d: Shared, a: nat, b: nat)
    requires Chains(d) && Earlier(d, a, b)
    ensures d.batons[b].prev.Some? ==> a <= d.batons[b].prev.value < b && d.batons[d.batons[b].prev.value].repo == d.batons[b].repo
  {
    assert LinkOk(d, b);
  }

  lemma OrderedJoin(d: Shared, e: Shared, repo: string)
    requires Chains(d) && Ordered(d) && HasEffect(d, e, Joined(repo))
    ensures Ordered(e)
  {
    forall a: nat, b: nat | Earlier(e, a, b) && Settled(e, b) ensures !Open(e, a) {
      assert NewestOk(d, repo);
      if b < |d.batons| {
        assert LinkOk(d, b);
        assert Earlier(d, a, b) && Settled(d, b);
      } else {
        var last := Last(d.batons, repo, |d.batons|);
        assert last.Some? && a <= last.value;
        if a < last.value { assert Earlier(d, a, last.value); }
      }
    }
  }

  lemma OrderedClose(d: Shared, e: Shared, c: nat)
    requires Chains(d) && Ordered(d) && HasEffect(d, e, Closed(c)) && Settled(d, c)
    ensures Ordered(e)
  {
    forall a: nat, b: nat | Earlier(e, a, b) && Settled(e, b) ensures !Open(e, a) {
      assert Earlier(d, a, b);
      EarlierBeforePrev(d, a, b);
      if !Settled(d, b) && b != c {
        assert d.batons[b].prev == Some(c);
        if a < c { assert Earlier(d, a, c); }
      }
    }
  }

  lemma CloseQueuedBreaks(d: Shared, e: Shared, c: nat)
    requires Chains(d) && HasEffect(d, e, Closed(c)) && !Settled(d, c)
    ensures !Ordered(e)
  {
    assert LinkOk(d, c);
    var p := d.batons[c].prev.value;
    assert Earlier(e, p, c) && Settled(e, c) && Open(e, p);
  }

  /** A step keeps the join order exactly when it gives back no queued place. */
  lemma OrderKeptIff(s: State, l: Label)
    requires Inv(s) && Chains(s.d) && Ordered(s.d) && Enabled(s, l)
    ensures Ordered(Apply(s, l).d) <==> !GivesBackQueued(s, l)
  {
    StepEffect(s, l);
    var effect := EffectOf(s, l);
    OrderKeptByEffect(s.d, Apply(s, l).d, effect);
  }

  lemma OrderKeptByEffect(d: Shared, e: Shared, effect: Effect)
    requires Chains(d) && Ordered(d) && HasEffect(d, e, effect)
    ensures Ordered(e) <==> !(effect.Closed? && !Settled(d, effect.b))
  {
    match effect
    case Same =>
      forall a: nat, b: nat | Earlier(e, a, b) && Settled(e, b) ensures !Open(e, a) { assert Earlier(d, a, b); }
    case Joined(repo) => OrderedJoin(d, e, repo);
    case Closed(b) => if Settled(d, b) { OrderedClose(d, e, b); } else { CloseQueuedBreaks(d, e, b); }
  }

  // ---- order is exactly one head, now and after one more submission ----

  lemma OrderedOneHead(d: Shared)
    requires Ordered(d)
    ensures OneHead(d)
  {
  }

  /** The oldest open baton of a repository is at its head. */
  lemma {:induction false} OldestOpen(d: Shared, a: nat) returns (h: nat)
    requires Chains(d) && Open(d, a)
    ensures h <= a && Head(d, h) && d.batons[h].repo == d.batons[a].repo
    decreases a
  {
    assert LinkOk(d, a);
    if Settled(d, a) { h := a; } else { h := OldestOpen(d, d.batons[a].prev.value); }
  }

  /** Behind a closed baton the chain has a head of its own, if it has an open baton at all. */
  lemma {:induction false} HeadAbove(d: Shared, closed: nat, t: nat) returns (h: nat)
    requires Chains(d) && Earlier(d, closed, t) && !Open(d, closed) && Open(d, t)
    ensures closed < h && Head(d, h) && d.batons[h].repo == d.batons[t].repo
    decreases t
  {
    if Settled(d, t) {
      h := t;
    } else {
      EarlierBeforePrev(d, closed, t);
      h := HeadAbove(d, closed, d.batons[t].prev.value);
    }
  }

  /** A disordered chain has two heads already, or gets two with the next submission for its repository. */
  lemma DisorderMakesTwoHeads(d: Shared, e: Shared, a: nat, b: nat)
    requires Chains(d) && Earlier(d, a, b) && Settled(d, b) && Open(d, a)
    requires HasEffect(d, e, Joined(d.batons[b].repo)) && Chains(e)
    ensures !OneHead(d) || !OneHead(e)
  {
    var first := OldestOpen(d, a);
    var repo := d.batons[b].repo;
    if Open(d, b) {
      assert Earlier(d, first, b) && Head(d, b);
    } else {
      var t := Last(d.batons, repo, |d.batons|).value;
      assert NewestOk(d, repo);
      if Open(d, t) {
        var h := HeadAbove(d, b, t);
        assert Earlier(d, first, h) && Head(d, h);
      } else {
        var n := |d.batons|;
        assert LinkOk(d, first);
        assert Head(e, n) && Earlier(e, first, n) && Head(e, first);
      }
    }
  }

  /** The order property is exactly what one head per repository needs to survive the next submission. */
  lemma OrderedIffOneHead(s: State)
    requires Inv(s) && Wf(s) && Chains(s.d)
    ensures Ordered(s.d) <==>
            OneHead(s.d) && forall repo :: OneHead(Apply(s, SubmitL(repo, true)).d)
  {
    forall repo ensures HasEffect(s.d, Apply(s, SubmitL(repo, true)).d, Joined(repo))
                ensures Chains(Apply(s, SubmitL(repo, true)).d)
    {
      StepEffect(s, SubmitL(repo, true));
      ChainsStep(s.d, Apply(s, SubmitL(repo, true)).d, Joined(repo));
    }
    if Ordered(s.d) {
      OrderedOneHead(s.d);
      forall repo ensures OneHead(Apply(s, SubmitL(repo, true)).d) {
        OrderedJoin(s.d, Apply(s, SubmitL(repo, true)).d, repo);
        OrderedOneHead(Apply(s, SubmitL(repo, true)).d);
      }
    } else {
      var a: nat, b: nat :| Earlier(s.d, a, b) && Settled(s.d, b) && Open(s.d, a);
      var repo := s.d.batons[b].repo;
      DisorderMakesTwoHeads(s.d, Apply(s, SubmitL(repo, true)).d, a, b);
    }
  }
}
