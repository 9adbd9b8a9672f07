/**
 The teardown race of a pooled container: its one Release against its max-uptime callback,
 each critical section one step, any number of containers interleaved.
 */
module ContainerPool {

  /** What the pool's mutex guards: the reservations and, per container, whether its teardown has been claimed. */
  datatype Pool = Pool(active: int, teardowns: map<nat, bool>)

  const Empty: Pool := Pool(0, map[])

  // ---- critical sections ----

  /** reserve: refused at a positive cap that is reached. */
  function Reserve(p: Pool, max: int): (r: (Pool, bool)) {
    if max > 0 && p.active >= max then (p, false) else (p.(active := p.active + 1), true)
  }

  function Unreserve(p: Pool): (r: Pool) {
    p.(active := p.active - 1)
  }

  /** armMaxUptime: the entry is made, unless there is one, under the lock the callback claims it with. */
  function Arm(p: Pool, id: nat): (r: Pool) {
    if id in p.teardowns then p else p.(teardowns := p.teardowns[id := false])
  }

  /** claimReaper: a missing entry is a loss. */
  function ClaimReaper(p: Pool, id: nat): (r: (Pool, bool)) {
    if id !in p.teardowns || p.teardowns[id] then (p, false) else (p.(teardowns := p.teardowns[id := true]), true)
  }

  /** claimRelease: a missing entry is a win. */
  function ClaimRelease(p: Pool, id: nat): (r: (Pool, bool)) {
    if id !in p.teardowns then (p, true)
    else if p.teardowns[id] then (p, false)
    else (p.(teardowns := p.teardowns[id := true]), true)
  }

  function Forget(p: Pool, id: nat): (r: Pool) {
    p.(teardowns := p.teardowns - {id})
  }

  // ---- the processes of one container ----

  datatype Actor = Releaser | Reaper

  /** A Docker call of the teardown. */
  datatype Act = Stop(actor: Actor) | Remove(actor: Actor)

  /** Where the task that holds the container is. */
  datatype Holder =
    | Reserved | Failed | Held
    | ReleaseStops | ReleaseRemoves | Forgets
    | StopsTimer(had: bool) | Leaves | Gone

  /** Where the max-uptime timer and its callback are. */
  datatype Timer = Unarmed | Armed | Fired | ReaperStops | ReaperRemoves | Over

  datatype Container = Container(holder: Holder, timer: Timer, acts: seq<Act>)

  datatype State = State(pool: Pool, containers: seq<Container>)

  datatype Label =
    | Acquire(max: int)
    | Fail(id: nat) | Start(id: nat, maxUptime: int)
    | Fire(id: nat) | Reap(id: nat) | ReaperStop(id: nat) | ReaperRemove(id: nat)
    | Release(id: nat) | ReleaseStop(id: nat) | ReleaseRemove(id: nat)
    | ForgetEntry(id: nat) | StopTimer(id: nat) | Leave(id: nat)

  predicate Enabled(s: State, l: Label) {
    l.Acquire? || (l.id < |s.containers| && StepsNow(s.containers[l.id], l))
  }

  /** The container's process is at the step. */
  predicate StepsNow(c: Container, l: Label) {
    match l
    case Acquire(_) => false
    case Fail(_) => c.holder.Reserved?
    case Start(_, _) => c.holder.Reserved?
    case Fire(_) => c.timer.Armed?
    case Reap(_) => c.timer.Fired?
    case ReaperStop(_) => c.timer.ReaperStops?
    case ReaperRemove(_) => c.timer.ReaperRemoves?
    case Release(_) => c.holder.Held?
    case ReleaseStop(_) => c.holder.ReleaseStops?
    case ReleaseRemove(_) => c.holder.ReleaseRemoves?
    case ForgetEntry(_) => c.holder.Forgets?
    case StopTimer(_) => c.holder.StopsTimer?
    case Leave(_) => c.holder.Leaves?
  }

  function With(s: State, id: nat, p: Pool, c: Container): (r: State)
    requires id < |s.containers|
  {
    State(p, s.containers[id := c])
  }

  /** One step of one process. */
  function Apply(s: State, l: Label): (r: State)
    requires Enabled(s, l)
  {
    if l.Acquire? then
      var got := Reserve(s.pool, l.max);
      if got.1 then State(got.0, s.containers + [Container(Reserved, Unarmed, [])]) else s
    else
      var next := Step(s.pool, l.id, s.containers[l.id], l);
      With(s, l.id, next.0, next.1)
  }

  /** A step of one container's processes, on its record and the shared pool. */
  function Step(p: Pool, id: nat, c: Container, l: Label): (r: (Pool, Container))
    requires StepsNow(c, l)
  {
    match l
    case Fail(_) => (Unreserve(p), c.(holder := Failed))
    case Start(_, maxUptime) =>
      if maxUptime > 0 then (Arm(p, id), c.(holder := Held, timer := Armed)) else (p, c.(holder := Held))
    case Fire(_) => (p, c.(timer := Fired))
    case Reap(_) =>
      var claim := ClaimReaper(p, id);
      (claim.0, c.(timer := if claim.1 then ReaperStops else Over))
    case ReaperStop(_) => (p, c.(timer := ReaperRemoves, acts := c.acts + [Stop(Reaper)]))
    case ReaperRemove(_) => (p, c.(timer := Over, acts := c.acts + [Remove(Reaper)]))
    case Release(_) =>
      var claim := ClaimRelease(p, id);
      (claim.0, c.(holder := if claim.1 then ReleaseStops else Forgets))
    case ReleaseStop(_) => (p, c.(holder := ReleaseRemoves, acts := c.acts + [Stop(Releaser)]))
    case ReleaseRemove(_) => (p, c.(holder := Forgets, acts := c.acts + [Remove(Releaser)]))
    case ForgetEntry(_) => (Forget(p, id), c.(holder := StopsTimer(id in p.teardowns)))
    case StopTimer(_) => (p, c.(holder := Leaves, timer := if c.holder.had && c.timer.Armed? then Over else c.timer))
    case Leave(_) => (Unreserve(p), c.(holder := Gone))
  }

  // ---- the invariant ----

  /** A reservation not given back. */
  predicate Holds(c: Container) { !c.holder.Failed? && !c.holder.Gone? }

  function Reservations(cs: seq<Container>): (n: nat) {
    if cs == [] then 0 else Reservations(cs[..|cs| - 1]) + if Holds(cs[|cs| - 1]) then 1 else 0
  }

  predicate BeforeForget(c: Container) { c.holder.Held? || c.holder.ReleaseStops? || c.holder.ReleaseRemoves? || c.holder.Forgets? }

  /** Somebody owns the container's teardown. */
  predicate Claimed(p: Pool, id: nat, c: Container) {
    if id in p.teardowns then p.teardowns[id] else !c.holder.Reserved? && !c.holder.Failed? && !c.holder.Held?
  }

  predicate Releasing(c: Container) { c.holder.ReleaseStops? || c.holder.ReleaseRemoves? }

  predicate Reaping(c: Container) { c.timer.ReaperStops? || c.timer.ReaperRemoves? }

  /** The Docker calls so far are those of one actor, who stops before it removes. */
  predicate ActsOk(p: Pool, id: nat, c: Container) {
    if Releasing(c) then !Reaping(c) && c.acts == if c.holder.ReleaseRemoves? then [Stop(Releaser)] else []
    else if Reaping(c) then c.acts == if c.timer.ReaperRemoves? then [Stop(Reaper)] else []
    else if Claimed(p, id, c) then c.acts == [Stop(Releaser), Remove(Releaser)] || c.acts == [Stop(Reaper), Remove(Reaper)]
    else c.acts == []
  }

  predicate ContainerOk(p: Pool, id: nat, c: Container) {
    && (id in p.teardowns <==> !c.timer.Unarmed? && BeforeForget(c))
    && (c.holder.Reserved? || c.holder.Failed? ==> c.timer.Unarmed?)
    && (Releasing(c) || Reaping(c) || c.holder.Forgets? ==> Claimed(p, id, c))
    && ((c.timer.Armed? || c.timer.Fired?) && c.holder.Held? ==> !Claimed(p, id, c))
    && (c.holder.StopsTimer? ==> c.holder.had == !c.timer.Unarmed?)
    && (c.holder.Leaves? || c.holder.Gone? ==> !c.timer.Armed?)
    && (c.holder.Held? && c.timer.Over? ==> Claimed(p, id, c))
    && ActsOk(p, id, c)
  }

  ghost predicate Inv(s: State) {
    && s.pool.active == Reservations(s.containers)
    && (forall id: nat {:trigger At(s, id)} :: At(s, id))
  }

  /** One container and its entry agree; there is no entry without a container. */
  ghost predicate At(s: State, id: nat) {
    if id < |s.containers| then ContainerOk(s.pool, id, s.containers[id]) else id !in s.pool.teardowns
  }

  lemma {:induction false} ReservationsAppend(cs: seq<Container>, c: Container)
    ensures Reservations(cs + [c]) == Reservations(cs) + if Holds(c) then 1 else 0
  {
    assert (cs + [c])[..|cs|] == cs;
  }

  lemma {:induction false} ReservationsUpdate(cs: seq<Container>, id: nat, c: Container)
    requires id < |cs|
    ensures Reservations(cs[id := c]) == Reservations(cs) + (if Holds(c) then 1 else 0) - if Holds(cs[id]) then 1 else 0
  {
    var n := |cs| - 1;
    if id < n {
      ReservationsUpdate(cs[..n], id, c);
      assert cs[id := c][..n] == cs[..n][id := c];
    } else {
      assert cs[id := c][..n] == cs[..n];
    }
  }

  /** A step of one container keeps its record in order and touches no other entry. */
  lemma StepKeeps(p: Pool, id: nat, c: Container, l: Label)
    requires ContainerOk(p, id, c) && StepsNow(c, l)
    ensures var r := Step(p, id, c, l);
            && ContainerOk(r.0, id, r.1)
            && r.0.active - p.active == (if Holds(r.1) then 1 else 0) - (if Holds(c) then 1 else 0)
            && r.0.teardowns - {id} == p.teardowns - {id}
            && c.acts <= r.1.acts
  {
  }

  lemma AcquireKeeps(s: State, max: int)
    requires Inv(s)
    ensures Inv(Apply(s, Acquire(max)))
  {
    var got := Reserve(s.pool, max);
    if got.1 {
      var c := Container(Reserved, Unarmed, []);
      var s' := State(got.0, s.containers + [c]);
      ReservationsAppend(s.containers, c);
      forall id: nat ensures At(s', id) {
        assert At(s, id);
        NewAt(s, got.0, c, id);
      }
    }
  }

  /** A new container has no entry yet, and the others keep theirs. */
  lemma NewAt(s: State, p: Pool, c: Container, id: nat)
    requires At(s, id) && p.teardowns == s.pool.teardowns && c == Container(Reserved, Unarmed, [])
    ensures At(State(p, s.containers + [c]), id)
  {
    if id < |s.containers| { assert (s.containers + [c])[id] == s.containers[id]; }
  }

  /** A step of one container leaves every other one in order. */
  lemma OtherKeeps(s: State, id: nat, p: Pool, c: Container, other: nat)
    requires id < |s.containers| && other != id && At(s, other) && p.teardowns - {id} == s.pool.teardowns - {id}
    ensures At(With(s, id, p, c), other)
  {
    OthersKept(s.pool, p, id, other);
  }

  lemma ContainerKeeps(s: State, id: nat, p: Pool, c: Container)
    requires Inv(s) && id < |s.containers| && ContainerOk(p, id, c) && p.teardowns - {id} == s.pool.teardowns - {id}
    requires p.active - s.pool.active == (if Holds(c) then 1 else 0) - (if Holds(s.containers[id]) then 1 else 0)
    ensures Inv(With(s, id, p, c))
  {
    var s' := With(s, id, p, c);
    ReservationsUpdate(s.containers, id, c);
    forall other: nat ensures At(s', other) {
      assert At(s, other);
      if other != id { OtherKeeps(s, id, p, c, other); }
    }
  }

  lemma InvStep(s: State, l: Label)
    requires Inv(s) && Enabled(s, l)
    ensures Inv(Apply(s, l))
  {
    if l.Acquire? {
      AcquireKeeps(s, l.max);
    } else {
      assert At(s, l.id);
      var next := Step(s.pool, l.id, s.containers[l.id], l);
      StepKeeps(s.pool, l.id, s.containers[l.id], l);
      ContainerKeeps(s, l.id, next.0, next.1);
    }
  }

  lemma OthersKept(p: Pool, p': Pool, id: nat, other: nat)
    requires p'.teardowns - {id} == p.teardowns - {id}
    ensures other != id ==> (other in p'.teardowns <==> other in p.teardowns)
    ensures other != id && other in p.teardowns ==> p'.teardowns[other] == p.teardowns[other]
  {
    if other != id {
      assert other in p'.teardowns <==> other in p'.teardowns - {id};
      assert other in p.teardowns <==> other in p.teardowns - {id};
      if other in p.teardowns {
        assert p'.teardowns[other] == (p'.teardowns - {id})[other];
      }
    }
  }

  // ---- every run ----

  ghost predicate IsRun(states: seq<State>, labels: seq<Label>) {
    && |states| == |labels| + 1 && states[0] == State(Empty, [])
    && forall i :: 0 <= i < |labels| ==> Enabled(states[i], labels[i]) && states[i + 1] == Apply(states[i], labels[i])
  }

  lemma {:induction false} RunInv(states: seq<State>, labels: seq<Label>, i: nat)
    requires IsRun(states, labels) && i < |states|
    ensures Inv(states[i])
  {
    if i > 0 {
      RunInv(states, labels, i - 1);
      InvStep(states[i - 1], labels[i - 1]);
    }
  }

  /** A container whose Release and callback are both over was stopped and removed exactly once, by one of them. */
  lemma TornDownOnce(states: seq<State>, labels: seq<Label>, i: nat, id: nat)
    requires IsRun(states, labels) && i < |states| && id < |states[i].containers|
    requires var c := states[i].containers[id]; c.holder.Gone? && (c.timer.Unarmed? || c.timer.Over?)
    ensures exists a :: states[i].containers[id].acts == [Stop(a), Remove(a)]
  {
    RunInv(states, labels, i);
    var c := states[i].containers[id];
    assert At(states[i], id);
    assert c.acts == [Stop(Releaser), Remove(Releaser)] || c.acts == [Stop(Reaper), Remove(Reaper)];
  }

  /** At every moment the Docker calls are a beginning of one actor's stop and remove. */
  lemma NeverTwice(states: seq<State>, labels: seq<Label>, i: nat, id: nat)
    requires IsRun(states, labels) && i < |states| && id < |states[i].containers|
    ensures exists a :: states[i].containers[id].acts <= [Stop(a), Remove(a)]
  {
    RunInv(states, labels, i);
    var c := states[i].containers[id];
    assert At(states[i], id);
    assert c.acts <= [Stop(Releaser), Remove(Releaser)] || c.acts <= [Stop(Reaper), Remove(Reaper)];
  }

  /** No entry outlives Release, and the timer is never left armed behind it. */
  lemma NothingOutlivesRelease(states: seq<State>, labels: seq<Label>, i: nat, id: nat)
    requires IsRun(states, labels) && i < |states| && id < |states[i].containers| && states[i].containers[id].holder.Gone?
    ensures id !in states[i].pool.teardowns && !states[i].containers[id].timer.Armed?
  {
    RunInv(states, labels, i);
    assert At(states[i], id);
  }

  /** The counter is the number of reservations not yet given back, and no reservation passes a positive cap. */
  lemma ActiveCounts(states: seq<State>, labels: seq<Label>, i: nat)
    requires IsRun(states, labels) && i < |states|
    ensures states[i].pool.active == Reservations(states[i].containers)
    ensures i < |labels| && labels[i].Acquire? && labels[i].max > 0 && states[i + 1] != states[i] ==> states[i + 1].pool.active <= labels[i].max
    ensures i < |labels| && !labels[i].Acquire? ==> states[i + 1].pool.active <= states[i].pool.active
  {
    RunInv(states, labels, i);
    if i < |labels| && !labels[i].Acquire? {
      var id := labels[i].id;
      assert At(states[i], id);
      StepKeeps(states[i].pool, id, states[i].containers[id], labels[i]);
    }
  }

  predicate Finished(c: Container) {
    (c.holder.Failed? || c.holder.Gone?) && (c.timer.Unarmed? || c.timer.Over?)
  }

  lemma {:induction false} NoneHold(cs: seq<Container>)
    requires forall i :: 0 <= i < |cs| ==> Finished(cs[i])
    ensures Reservations(cs) == 0
  {
    if cs != [] { NoneHold(cs[..|cs| - 1]); }
  }

  /** When every container is finished the pool is as it began. */
  lemma AllFinishedIsEmpty(states: seq<State>, labels: seq<Label>, i: nat)
    requires IsRun(states, labels) && i < |states| && forall j :: 0 <= j < |states[i].containers| ==> Finished(states[i].containers[j])
    ensures states[i].pool == Empty
  {
    RunInv(states, labels, i);
    var s := states[i];
    NoneHold(s.containers);
    forall id: nat ensures id !in s.pool.teardowns { assert At(s, id); }
    assert s.pool.teardowns == map[];
  }

  /** Nothing is ever stuck: an unfinished container always has a step of its own. */
  lemma Progress(s: State, id: nat) returns (l: Label)
    requires id < |s.containers| && !Finished(s.containers[id])
    ensures !l.Acquire? && l.id == id && Enabled(s, l)
    ensures StepsLeft(Apply(s, l).containers[id]) < StepsLeft(s.containers[id])
  {
    var c := s.containers[id];
    l := match c.holder
      case Reserved => Fail(id)
      case Held => Release(id)
      case ReleaseStops => ReleaseStop(id)
      case ReleaseRemoves => ReleaseRemove(id)
      case Forgets => ForgetEntry(id)
      case StopsTimer(_) => StopTimer(id)
      case Leaves => Leave(id)
      case _ =>
        match c.timer
        case Armed => Fire(id)
        case Fired => Reap(id)
        case ReaperStops => ReaperStop(id)
        case _ => ReaperRemove(id);
  }

  /** The most steps the processes of a container still take. */
  function StepsLeft(c: Container): (n: nat) {
    (match c.holder
     case Reserved => 12
     case Held => 6
     case ReleaseStops => 5
     case ReleaseRemoves => 4
     case Forgets => 3
     case StopsTimer(_) => 2
     case Leaves => 1
     case _ => 0) +
    (match c.timer
     case Armed => 4
     case Fired => 3
     case ReaperStops => 2
     case ReaperRemoves => 1
     case _ => 0)
  }

  /** Every step of a container brings its end nearer, so no run of its processes goes on for ever. */
  lemma StepsRunOut(s: State, l: Label)
    requires Inv(s) && Enabled(s, l) && !l.Acquire?
    ensures StepsLeft(Apply(s, l).containers[l.id]) < StepsLeft(s.containers[l.id])
  {
    assert At(s, l.id);
  }
}
