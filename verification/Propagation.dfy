/** Configuration propagation as a distributed system: committing writers,
    replicas with a lagging watcher and a snapshot cache, long-poll requests,
    answers that arrive late, twice or never, and data planes. */
module Propagation {
  import opened Basics
  import opened Tables
  import opened Paths
  import opened PlaneConfig
  import History

  // ---------------------------------------------------- one replica process

  /** The snapshot build that holds the single-flight lock, if any. */
  datatype Build = Free | Reading(q: nat) | Built(q: nat, snap: Snapshot)

  /** event numbers the watcher's asyncio.Event objects: every event below the
      current one is set.  polled is a version read but not yet applied. */
  datatype Replica = Replica(watch: int, event: nat, polled: Option<int>, cached: Option<Snapshot>, build: Build)

  const NEW_REPLICA := Replica(0, 0, None, None, Free)

  /** poll_once after its read: a changed version replaces and sets the event. */
  function Polled(r: Replica, version: int): Replica {
    if version != r.watch then r.(watch := version, event := r.event + 1, polled := None)
    else r.(polled := None)
  }

  /** current() may answer from the cache. */
  predicate Fresh(r: Replica) {
    r.cached.Some? && r.cached.value.version >= r.watch
  }

  // ---------------------------------------------------- one long-poll request

  datatype Answer = NotModified | Body(snap: Snapshot)

  /** woken: the request waited, and wait_newer returned true.  floor: the
      watcher's version when current() was entered. */
  datatype Phase =
    | Arrived
    | Waiting(event: nat)
    | Queued(floor: int, woken: bool)
    | Holding(floor: int, woken: bool)
    | Answered(answer: Answer, floor: int, woken: bool)

  datatype Request = Request(replica: nat, after: Option<int>, phase: Phase)

  /** The router's last decision. */
  function Decide(after: Option<int>, snap: Snapshot): Answer {
    if after.Some? && snap.version <= after.value then NotModified else Body(snap)
  }

  // ------------------------------------------------------- one data plane

  /** installed lists the versions in the order they were installed. */
  datatype Plane = Plane(cur: Option<Snapshot>, installed: seq<int>)

  const NEW_PLANE := Plane(None, [])

  ghost function Delivered(p: Plane, snap: Snapshot): Plane {
    if !Acceptable(snap) then p
    else if p.cur.Some? && snap.version <= p.cur.value.version then p
    else Plane(Some(snap), p.installed + [snap.version])
  }

  // ----------------------------------------------------------- the system

  /** commits is every database state so far; sent is every snapshot ever
      answered, any of which may reach any plane at any later time. */
  datatype Sys = Sys(commits: seq<History.Sys>, replicas: map<nat, Replica>, requests: map<nat, Request>,
                     sent: set<Snapshot>, planes: map<nat, Plane>)

  datatype Step =
    | Commit(next: History.Sys)
    | StartReplica(r: nat)
    | PollRead(r: nat)
    | PollApply(r: nat)
    | Arrive(q: nat, r: nat, after: Option<int>)
    | Admit(q: nat)
    | WakeUp(q: nat)
    | TimeOut(q: nat)
    | TakeLock(q: nat)
    | ReadRows(q: nat, order: RowOrder)
    | StoreCache(q: nat)
    | Abort(q: nat)
    | StartPlane(p: nat)
    | Deliver(p: nat, snap: Snapshot)

  function Now(s: Sys): History.Sys
    requires s.commits != []
  {
    s.commits[|s.commits| - 1]
  }

  predicate Live(s: Sys, q: nat) {
    q in s.requests && s.requests[q].replica in s.replicas
  }

  function ReplicaOf(s: Sys, q: nat): Replica
    requires Live(s, q)
  {
    s.replicas[s.requests[q].replica]
  }

  ghost predicate Enabled(s: Sys, step: Step) {
    s.commits != [] &&
    match step
    case Commit(next) => History.Next(Now(s), next)
    case StartReplica(_) => true
    case PollRead(r) => r in s.replicas && s.replicas[r].polled.None?
    case PollApply(r) => r in s.replicas && s.replicas[r].polled.Some?
    case Arrive(q, r, after) => q !in s.requests && r in s.replicas && (after.Some? ==> after.value >= 0)
    case Admit(q) => Live(s, q) && s.requests[q].phase.Arrived?
    case WakeUp(q) => Live(s, q) && s.requests[q].phase.Waiting?
                      && s.requests[q].phase.event < ReplicaOf(s, q).event
    case TimeOut(q) => Live(s, q) && s.requests[q].phase.Waiting?
    case TakeLock(q) => Live(s, q) && s.requests[q].phase.Queued? && ReplicaOf(s, q).build.Free?
    case ReadRows(q, order) => Live(s, q) && ReplicaOf(s, q).build == Reading(q) && Answers(Now(s).db, order)
    case StoreCache(q) => Live(s, q) && ReplicaOf(s, q).build.Built? && ReplicaOf(s, q).build.q == q
                          && s.requests[q].phase.Holding?
    case Abort(q) => Live(s, q) && !s.requests[q].phase.Answered?
    case StartPlane(_) => true
    case Deliver(p, snap) => p in s.planes && snap in s.sent
  }

  function WithPhase(s: Sys, q: nat, phase: Phase): Sys
    requires q in s.requests
  {
    s.(requests := s.requests[q := s.requests[q].(phase := phase)])
  }

  function WithReplica(s: Sys, r: nat, replica: Replica): Sys {
    s.(replicas := s.replicas[r := replica])
  }

  /** The answer leaves the replica. */
  function Finish(s: Sys, q: nat, snap: Snapshot, floor: int, woken: bool): Sys
    requires q in s.requests
  {
    var answer := Decide(s.requests[q].after, snap);
    WithPhase(s, q, Answered(answer, floor, woken)).(sent := if answer.Body? then s.sent + {snap} else s.sent)
  }

  /** Entering SnapshotService.current. */
  function Serve(s: Sys, q: nat, woken: bool): Sys
    requires Live(s, q)
  {
    var r := ReplicaOf(s, q);
    if Fresh(r) then Finish(s, q, r.cached.value, r.watch, woken)
    else WithPhase(s, q, Queued(r.watch, woken))
  }

  /** A cancelled request, or one whose read of the database failed: it ends
      without an answer and releases the lock if it holds it. */
  function Aborted(s: Sys, q: nat): Sys
    requires Live(s, q)
  {
    var r := ReplicaOf(s, q);
    var freed := if !r.build.Free? && r.build.q == q then r.(build := Free) else r;
    WithReplica(s, s.requests[q].replica, freed).(requests := s.requests - {q})
  }

  ghost function Apply(s: Sys, step: Step): Sys
    requires Enabled(s, step)
  {
    match step
    case Commit(next) => s.(commits := s.commits + [next])
    case StartReplica(r) =>
      WithReplica(s, r, NEW_REPLICA).(requests := map q | q in s.requests && s.requests[q].replica != r :: s.requests[q])
    case PollRead(r) => WithReplica(s, r, s.replicas[r].(polled := Some(Now(s).db.version)))
    case PollApply(r) => WithReplica(s, r, Polled(s.replicas[r], s.replicas[r].polled.value))
    case Arrive(q, r, after) => s.(requests := s.requests[q := Request(r, after, Arrived)])
    case Admit(q) =>
      var after := s.requests[q].after;
      if after.Some? && ReplicaOf(s, q).watch <= after.value
      then WithPhase(s, q, Waiting(ReplicaOf(s, q).event))
      else Serve(s, q, false)
    case WakeUp(q) =>
      var after := s.requests[q].after;
      if after.Some? && ReplicaOf(s, q).watch <= after.value
      then WithPhase(s, q, Waiting(ReplicaOf(s, q).event))
      else Serve(s, q, true)
    case TimeOut(q) =>
      var after := s.requests[q].after;
      if after.Some? && ReplicaOf(s, q).watch <= after.value
      then WithPhase(s, q, Answered(NotModified, 0, false))
      else Serve(s, q, true)
    case TakeLock(q) =>
      var r, ph := ReplicaOf(s, q), s.requests[q].phase;
      if Fresh(r) then Finish(s, q, r.cached.value, ph.floor, ph.woken)
      else WithPhase(WithReplica(s, s.requests[q].replica, r.(build := Reading(q))), q, Holding(ph.floor, ph.woken))
    case ReadRows(q, order) =>
      WithReplica(s, s.requests[q].replica, ReplicaOf(s, q).(build := Built(q, ReadSnapshot(Now(s).db, order))))
    case StoreCache(q) =>
      var r, ph := ReplicaOf(s, q), s.requests[q].phase;
      Finish(WithReplica(s, s.requests[q].replica, r.(cached := Some(r.build.snap), build := Free)),
             q, r.build.snap, ph.floor, ph.woken)
    case Abort(q) => Aborted(s, q)
    case StartPlane(p) => s.(planes := s.planes[p := NEW_PLANE])
    case Deliver(p, snap) => s.(planes := s.planes[p := Delivered(s.planes[p], snap)])
  }

  const START := Sys([History.Sys(EMPTY_DB, {}, {})], map[], map[], {}, map[])

  ghost predicate IsRun(run: seq<Sys>) {
    && run != [] && run[0] == START
    && forall i :: 0 <= i < |run| - 1 ==> StepAt(run, i)
  }

  ghost predicate StepAt(run: seq<Sys>, i: nat)
    requires i + 1 < |run|
  {
    exists step :: Enabled(run[i], step) && run[i + 1] == Apply(run[i], step)
  }

  // ------------------------------------------------------------ invariants

  /** snap is what some committed state showed, under that state's version. */
  ghost predicate Faithful(commits: seq<History.Sys>, snap: Snapshot) {
    && Acceptable(snap)
    && exists i :: 0 <= i < |commits| && ShownBy(commits[i], snap)
  }

  ghost predicate ShownBy(c: History.Sys, snap: Snapshot) {
    c.db.version == snap.version && ContentOf(snap) == Visible(c.db)
  }

  function BuiltFloor(r: Replica): int {
    if r.cached.Some? then r.cached.value.version else 0
  }

  ghost predicate ReplicaOk(commits: seq<History.Sys>, version: int, r: Replica) {
    && 0 <= r.watch <= version
    && (r.polled.Some? ==> r.watch <= r.polled.value <= version)
    && (r.cached.Some? ==> Faithful(commits, r.cached.value) && r.cached.value.version <= version)
    && (r.build.Built? ==>
          Faithful(commits, r.build.snap) && BuiltFloor(r) <= r.build.snap.version <= version)
    && (!r.build.Free? ==> !Fresh(r))
  }

  /** Past the wait, a request asks for less than the watcher had then. */
  predicate PastWait(r: Replica, x: Request, floor: int, woken: bool) {
    floor <= r.watch && (woken ==> x.after.Some?) && (x.after.Some? ==> x.after.value < floor)
  }

  /** A parked request is parked on an event that a newer version will set. */
  ghost predicate RequestOk(r: Replica, x: Request) {
    match x.phase
    case Arrived => true
    case Waiting(e) => x.after.Some? && e <= r.event && (e == r.event ==> r.watch <= x.after.value)
    case Queued(floor, woken) => PastWait(r, x, floor, woken)
    case Holding(floor, woken) => PastWait(r, x, floor, woken)
    case Answered(a, floor, woken) =>
      && (woken ==> a.Body? && x.after.Some? && x.after.value < floor)
      && (a.Body? ==> floor <= a.snap.version && (x.after.Some? ==> x.after.value < a.snap.version))
  }

  /** The lock is held for one waiting request of this replica. */
  ghost predicate BuildOk(requests: map<nat, Request>, id: nat, build: Build) {
    !build.Free? ==>
      && build.q in requests && requests[build.q].replica == id && requests[build.q].phase.Holding?
      && (build.Built? ==> requests[build.q].phase.floor <= build.snap.version)
  }

  ghost predicate PlaneOk(commits: seq<History.Sys>, version: int, p: Plane) {
    && (p.cur.None? <==> p.installed == [])
    && (p.cur.Some? ==>
          Faithful(commits, p.cur.value) && p.cur.value.version <= version
          && p.installed[|p.installed| - 1] == p.cur.value.version)
    && (forall i, j :: 0 <= i < j < |p.installed| ==> p.installed[i] < p.installed[j])
  }

  ghost predicate AllReplicasOk(commits: seq<History.Sys>, version: int, replicas: map<nat, Replica>) {
    forall r :: r in replicas ==> ReplicaOk(commits, version, replicas[r])
  }

  ghost predicate AllBuildsOk(requests: map<nat, Request>, replicas: map<nat, Replica>) {
    forall r :: r in replicas ==> BuildOk(requests, r, replicas[r].build)
  }

  ghost predicate AllRequestsOk(replicas: map<nat, Replica>, requests: map<nat, Request>) {
    forall q :: q in requests ==> requests[q].replica in replicas && RequestOk(replicas[requests[q].replica], requests[q])
  }

  ghost predicate AllSentOk(commits: seq<History.Sys>, version: int, sent: set<Snapshot>) {
    forall x :: x in sent ==> Faithful(commits, x) && x.version <= version
  }

  ghost predicate AllPlanesOk(commits: seq<History.Sys>, version: int, planes: map<nat, Plane>) {
    forall p :: p in planes ==> PlaneOk(commits, version, planes[p])
  }

  ghost predicate Inv(s: Sys) {
    && History.IsRun(s.commits)
    && AllReplicasOk(s.commits, Now(s).db.version, s.replicas)
    && AllBuildsOk(s.requests, s.replicas)
    && AllRequestsOk(s.replicas, s.requests)
    && AllSentOk(s.commits, Now(s).db.version, s.sent)
    && AllPlanesOk(s.commits, Now(s).db.version, s.planes)
  }

  // ---------------------------------------------------------- preservation

  lemma FaithfulGrows(commits: seq<History.Sys>, next: History.Sys, snap: Snapshot)
    requires Faithful(commits, snap)
    ensures Faithful(commits + [next], snap)
  {
    var i :| 0 <= i < |commits| && ShownBy(commits[i], snap);
    assert ShownBy((commits + [next])[i], snap);
  }

  lemma CommitGrows(commits: seq<History.Sys>, next: History.Sys)
    requires History.IsRun(commits) && History.Next(commits[|commits| - 1], next)
    ensures History.IsRun(commits + [next])
    ensures commits[|commits| - 1].db.version <= next.db.version
  {
    CommitRises(commits, next);
    var grown := commits + [next];
    forall i: nat | i < |grown| - 1 ensures History.StepAt(grown, i) {
      if i < |commits| - 1 {
        assert History.StepAt(commits, i);
      }
    }
  }

  lemma CommitRises(commits: seq<History.Sys>, next: History.Sys)
    requires History.IsRun(commits) && History.Next(commits[|commits| - 1], next)
    ensures commits[|commits| - 1].db.version <= next.db.version
  {
    History.RunKeepsInv(commits, |commits| - 1);
    History.StepKeepsInv(commits[|commits| - 1], next);
  }

  lemma CommitKeepsInv(s: Sys, next: History.Sys)
    requires Inv(s) && Enabled(s, Commit(next))
    ensures Inv(Apply(s, Commit(next)))
  {
    var s' := Apply(s, Commit(next));
    CommitGrows(s.commits, next);
    forall x | Faithful(s.commits, x) ensures Faithful(s'.commits, x) {
      FaithfulGrows(s.commits, next, x);
    }
    forall r | r in s'.replicas ensures ReplicaOk(s'.commits, Now(s').db.version, s'.replicas[r]) {
      assert ReplicaOk(s.commits, Now(s).db.version, s.replicas[r]);
    }
    forall p | p in s'.planes ensures PlaneOk(s'.commits, Now(s').db.version, s'.planes[p]) {
      assert PlaneOk(s.commits, Now(s).db.version, s.planes[p]);
    }
  }

  /** A fresh read of the current state is faithful. */
  lemma ReadIsFaithful(s: Sys, order: RowOrder)
    requires History.IsRun(s.commits) && Answers(Now(s).db, order)
    ensures Faithful(s.commits, ReadSnapshot(Now(s).db, order))
    ensures ReadSnapshot(Now(s).db, order).version == Now(s).db.version
  {
    var n := |s.commits| - 1;
    History.RunKeepsInv(s.commits, n);
    ReadIsAcceptable(Now(s).db, order);
    ReadShowsVisible(Now(s).db, order);
    assert ShownBy(s.commits[n], ReadSnapshot(Now(s).db, order));
  }

  /** Requests of one replica tolerate its watcher moving on. */
  lemma PollKeepsRequests(r: Replica, version: int, x: Request)
    requires RequestOk(r, x) && r.watch <= version
    ensures RequestOk(Polled(r, version), x)
  {
  }

  /** The watcher moves on: its requests, its cache and its build tolerate it. */
  lemma ReplicaKeepsInv(s: Sys, r: nat, next: Replica)
    requires Inv(s) && r in s.replicas
    requires ReplicaOk(s.commits, Now(s).db.version, next) && next.build == s.replicas[r].build
    requires forall q :: q in s.requests && s.requests[q].replica == r ==> RequestOk(next, s.requests[q])
    ensures Inv(WithReplica(s, r, next))
  {
  }

  lemma PollReadKeepsInv(s: Sys, r: nat)
    requires Inv(s) && Enabled(s, PollRead(r))
    ensures Inv(Apply(s, PollRead(r)))
  {
    assert ReplicaOk(s.commits, Now(s).db.version, s.replicas[r]);
    forall q | q in s.requests && s.requests[q].replica == r
      ensures RequestOk(s.replicas[r].(polled := Some(Now(s).db.version)), s.requests[q])
    {
      assert RequestOk(ReplicaOf(s, q), s.requests[q]);
    }
    ReplicaKeepsInv(s, r, s.replicas[r].(polled := Some(Now(s).db.version)));
  }

  lemma PollApplyKeepsInv(s: Sys, r: nat)
    requires Inv(s) && Enabled(s, PollApply(r))
    ensures Inv(Apply(s, PollApply(r)))
  {
    var x := s.replicas[r];
    assert ReplicaOk(s.commits, Now(s).db.version, x);
    forall q | q in s.requests && s.requests[q].replica == r
      ensures RequestOk(Polled(x, x.polled.value), s.requests[q])
    {
      assert RequestOk(ReplicaOf(s, q), s.requests[q]);
      PollKeepsRequests(x, x.polled.value, s.requests[q]);
    }
    ReplicaKeepsInv(s, r, Polled(x, x.polled.value));
  }

  lemma StartReplicaKeepsInv(s: Sys, r: nat)
    requires Inv(s) && Enabled(s, StartReplica(r))
    ensures Inv(Apply(s, StartReplica(r)))
  {
    var s' := Apply(s, StartReplica(r));
    History.RunKeepsInv(s.commits, |s.commits| - 1);
    forall id | id in s'.replicas
      ensures ReplicaOk(s'.commits, Now(s').db.version, s'.replicas[id]) && BuildOk(s'.requests, id, s'.replicas[id].build)
    {
      if id != r {
        assert ReplicaOk(s.commits, Now(s).db.version, s.replicas[id]) && BuildOk(s.requests, id, s.replicas[id].build);
      }
    }
    forall q | q in s'.requests ensures Live(s', q) && RequestOk(ReplicaOf(s', q), s'.requests[q]) {
      assert Live(s, q) && RequestOk(ReplicaOf(s, q), s.requests[q]);
    }
  }

  lemma DeliveredOk(commits: seq<History.Sys>, version: int, p: Plane, snap: Snapshot)
    requires PlaneOk(commits, version, p) && Faithful(commits, snap) && snap.version <= version
    ensures PlaneOk(commits, version, Delivered(p, snap))
  {
  }

  lemma PlanesKeepInv(s: Sys, step: Step)
    requires Inv(s) && Enabled(s, step) && (step.StartPlane? || step.Deliver?)
    ensures Inv(Apply(s, step))
  {
    var s' := Apply(s, step);
    forall p | p in s'.planes ensures PlaneOk(s'.commits, Now(s').db.version, s'.planes[p]) {
      assert p in s.planes ==> PlaneOk(s.commits, Now(s).db.version, s.planes[p]);
      if step.Deliver? && p == step.p {
        DeliveredOk(s.commits, Now(s).db.version, s.planes[p], step.snap);
      }
    }
  }

  /** One request changes phase; its replica, if at all, only in its build. */
  lemma RequestKeepsInv(s: Sys, s': Sys, q: nat)
    requires Inv(s) && Live(s, q)
    requires s'.commits == s.commits && s'.planes == s.planes
    requires var r := s.requests[q].replica;
      && r in s'.replicas && s'.replicas == s.replicas[r := s'.replicas[r]]
      && s'.replicas[r].watch == s.replicas[r].watch && s'.replicas[r].event == s.replicas[r].event
      && ReplicaOk(s.commits, Now(s).db.version, s'.replicas[r])
      && BuildOk(s'.requests, r, s'.replicas[r].build)
    requires q in s'.requests && s'.requests == s.requests[q := s.requests[q].(phase := s'.requests[q].phase)]
    requires RequestOk(ReplicaOf(s, q), s'.requests[q])
    requires forall x :: x in s'.sent && x !in s.sent ==> Faithful(s.commits, x) && x.version <= Now(s).db.version
    ensures Inv(s')
  {
  }

  lemma ServeKeepsInv(s: Sys, q: nat, woken: bool)
    requires Inv(s) && Live(s, q) && (s.requests[q].phase.Arrived? || s.requests[q].phase.Waiting?)
    requires woken ==> s.requests[q].after.Some?
    requires s.requests[q].after.Some? ==> s.requests[q].after.value < ReplicaOf(s, q).watch
    ensures Inv(Serve(s, q, woken))
  {
    var r := s.requests[q].replica;
    assert ReplicaOk(s.commits, Now(s).db.version, s.replicas[r]) && BuildOk(s.requests, r, s.replicas[r].build);
    var s' := Serve(s, q, woken);
    assert s'.replicas == s.replicas[r := s.replicas[r]];
    assert BuildOk(s'.requests, r, s'.replicas[r].build);
    RequestKeepsInv(s, s', q);
  }

  predicate ParksOn(s: Sys, step: Step)
    requires (step.Admit? || step.WakeUp? || step.TimeOut?) && Live(s, step.q)
  {
    s.requests[step.q].after.Some? && ReplicaOf(s, step.q).watch <= s.requests[step.q].after.value
  }

  lemma ParksKeepInv(s: Sys, step: Step)
    requires Inv(s) && Enabled(s, step) && (step.Admit? || step.WakeUp? || step.TimeOut?) && ParksOn(s, step)
    ensures Inv(Apply(s, step))
  {
    var q, r, s' := step.q, s.requests[step.q].replica, Apply(s, step);
    assert RequestOk(ReplicaOf(s, q), s.requests[q]);
    assert ReplicaOk(s.commits, Now(s).db.version, s.replicas[r]) && BuildOk(s.requests, r, s.replicas[r].build);
    assert s'.replicas == s.replicas[r := s.replicas[r]];
    RequestKeepsInv(s, s', q);
  }

  lemma WaitsKeepInv(s: Sys, step: Step)
    requires Inv(s) && Enabled(s, step) && (step.Admit? || step.WakeUp? || step.TimeOut?)
    ensures Inv(Apply(s, step))
  {
    if ParksOn(s, step) {
      ParksKeepInv(s, step);
    } else {
      assert RequestOk(ReplicaOf(s, step.q), s.requests[step.q]);
      ServeKeepsInv(s, step.q, !step.Admit?);
    }
  }

  lemma TakeLockKeepsInv(s: Sys, q: nat)
    requires Inv(s) && Enabled(s, TakeLock(q))
    ensures Inv(Apply(s, TakeLock(q)))
  {
    var r := s.requests[q].replica;
    assert ReplicaOk(s.commits, Now(s).db.version, s.replicas[r]) && BuildOk(s.requests, r, s.replicas[r].build);
    assert RequestOk(s.replicas[r], s.requests[q]);
    var s' := Apply(s, TakeLock(q));
    if Fresh(s.replicas[r]) {
      assert s'.replicas == s.replicas[r := s.replicas[r]];
      RequestKeepsInv(s, s', q);
    } else {
      RequestKeepsInv(s, s', q);
    }
  }

  lemma ReadRowsKeepsInv(s: Sys, q: nat, order: RowOrder)
    requires Inv(s) && Enabled(s, ReadRows(q, order))
    ensures Inv(Apply(s, ReadRows(q, order)))
  {
    var r := s.requests[q].replica;
    assert ReplicaOk(s.commits, Now(s).db.version, s.replicas[r]) && BuildOk(s.requests, r, s.replicas[r].build);
    assert RequestOk(s.replicas[r], s.requests[q]);
    ReadIsFaithful(s, order);
    var s' := Apply(s, ReadRows(q, order));
    assert s'.requests == s.requests[q := s.requests[q].(phase := s'.requests[q].phase)];
    RequestKeepsInv(s, s', q);
  }

  lemma StoreCacheKeepsInv(s: Sys, q: nat)
    requires Inv(s) && Enabled(s, StoreCache(q))
    ensures Inv(Apply(s, StoreCache(q)))
  {
    var r := s.requests[q].replica;
    assert ReplicaOk(s.commits, Now(s).db.version, s.replicas[r]) && BuildOk(s.requests, r, s.replicas[r].build);
    assert RequestOk(s.replicas[r], s.requests[q]);
    RequestKeepsInv(s, Apply(s, StoreCache(q)), q);
  }

  lemma ArriveKeepsInv(s: Sys, q: nat, r: nat, after: Option<int>)
    requires Inv(s) && Enabled(s, Arrive(q, r, after))
    ensures Inv(Apply(s, Arrive(q, r, after)))
  {
  }

  lemma AbortKeepsInv(s: Sys, q: nat)
    requires Inv(s) && Enabled(s, Abort(q))
    ensures Inv(Apply(s, Abort(q)))
  {
    var s', r := Apply(s, Abort(q)), s.requests[q].replica;
    forall id | id in s'.replicas
      ensures ReplicaOk(s'.commits, Now(s').db.version, s'.replicas[id]) && BuildOk(s'.requests, id, s'.replicas[id].build)
    {
      assert ReplicaOk(s.commits, Now(s).db.version, s.replicas[id]) && BuildOk(s.requests, id, s.replicas[id].build);
    }
    forall p | p in s'.requests ensures Live(s', p) && RequestOk(ReplicaOf(s', p), s'.requests[p]) {
      assert Live(s, p) && RequestOk(ReplicaOf(s, p), s.requests[p]);
    }
  }

  lemma StepKeepsInv(s: Sys, step: Step)
    requires Inv(s) && Enabled(s, step)
    ensures Inv(Apply(s, step))
  {
    match step
    case Commit(next) => CommitKeepsInv(s, next);
    case StartReplica(r) => StartReplicaKeepsInv(s, r);
    case PollRead(r) => PollReadKeepsInv(s, r);
    case PollApply(r) => PollApplyKeepsInv(s, r);
    case Arrive(q, r, after) => ArriveKeepsInv(s, q, r, after);
    case Admit(_) => WaitsKeepInv(s, step);
    case WakeUp(_) => WaitsKeepInv(s, step);
    case TimeOut(_) => WaitsKeepInv(s, step);
    case TakeLock(q) => TakeLockKeepsInv(s, q);
    case ReadRows(q, order) => ReadRowsKeepsInv(s, q, order);
    case StoreCache(q) => StoreCacheKeepsInv(s, q);
    case Abort(q) => AbortKeepsInv(s, q);
    case StartPlane(_) => PlanesKeepInv(s, step);
    case Deliver(_, _) => PlanesKeepInv(s, step);
  }

  lemma {:induction false} RunKeepsInv(run: seq<Sys>, n: nat)
    requires IsRun(run) && n < |run|
    ensures Inv(run[n])
  {
    if n > 0 {
      RunKeepsInv(run, n - 1);
      assert StepAt(run, n - 1);
      var step :| Enabled(run[n - 1], step) && run[n] == Apply(run[n - 1], step);
      StepKeepsInv(run[n - 1], step);
    }
  }

  // -------------------------------------------------------- the theorems

  /** A data plane whose view has version v answers exactly the projection
      that every committed state of version v shows; v never exceeds the
      database's version, and each install raised it. */
  lemma PlaneShowsItsVersion(run: seq<Sys>, n: nat, p: nat, i: nat)
    requires IsRun(run) && n < |run| && p in run[n].planes && run[n].planes[p].cur.Some?
    requires i < |run[n].commits| && run[n].commits[i].db.version == run[n].planes[p].cur.value.version
    ensures Shows(ViewOf(run[n].planes[p].cur.value), Visible(run[n].commits[i].db))
    ensures Serves(ViewOf(run[n].planes[p].cur.value), run[n].commits[i].db)
    ensures run[n].planes[p].cur.value.version <= Now(run[n]).db.version
    ensures var installed := run[n].planes[p].installed;
      forall a, b :: 0 <= a < b < |installed| ==> installed[a] < installed[b]
  {
    RunKeepsInv(run, n);
    var s, snap := run[n], run[n].planes[p].cur.value;
    assert PlaneOk(s.commits, Now(s).db.version, s.planes[p]);
    var j :| 0 <= j < |s.commits| && ShownBy(s.commits[j], snap);
    History.VersionNamesContent(s.commits, i, j);
    ViewShowsContent(snap);
    ShowsRows(ViewOf(snap), s.commits[i].db);
  }

  /** The version a plane runs on was committed, and the plane never meets a
      snapshot it would reject. */
  lemma PlanesNeverReject(run: seq<Sys>, n: nat, p: nat, snap: Snapshot)
    requires IsRun(run) && n < |run| && Enabled(run[n], Deliver(p, snap))
    ensures Acceptable(snap)
    ensures exists i :: 0 <= i < |run[n].commits| && ShownBy(run[n].commits[i], snap)
    ensures run[n].planes[p].cur.Some? ==> exists i ::
      0 <= i < |run[n].commits| && ShownBy(run[n].commits[i], run[n].planes[p].cur.value)
  {
    RunKeepsInv(run, n);
    assert PlaneOk(run[n].commits, Now(run[n]).db.version, run[n].planes[p]);
  }

  /** A request parked on an event that is not set is parked on the watcher's
      current one, and nothing newer is known to the watcher. */
  lemma ParkedOnCurrentEvent(run: seq<Sys>, n: nat, q: nat)
    requires IsRun(run) && n < |run| && q in run[n].requests && Live(run[n], q)
    requires run[n].requests[q].phase.Waiting? && !Enabled(run[n], WakeUp(q))
    ensures run[n].requests[q].phase.event == ReplicaOf(run[n], q).event
    ensures run[n].requests[q].after.Some? && ReplicaOf(run[n], q).watch <= run[n].requests[q].after.value
  {
    RunKeepsInv(run, n);
    assert RequestOk(ReplicaOf(run[n], q), run[n].requests[q]);
  }

  /** A wait that succeeded is answered with a body newer than `after`; every
      body is newer than `after`, and no older than the watcher's version when
      current() was entered. */
  lemma WokenGetsNewer(run: seq<Sys>, n: nat, q: nat)
    requires IsRun(run) && n < |run| && q in run[n].requests && run[n].requests[q].phase.Answered?
    ensures run[n].requests[q].phase.woken ==> run[n].requests[q].phase.answer.Body?
    ensures var ph := run[n].requests[q].phase;
      ph.answer.Body? ==>
        ph.floor <= ph.answer.snap.version
        && (run[n].requests[q].after.Some? ==> run[n].requests[q].after.value < ph.answer.snap.version)
  {
    RunKeepsInv(run, n);
    assert RequestOk(ReplicaOf(run[n], q), run[n].requests[q]);
  }

  /** What an unanswered request is told in the next step. */
  ghost predicate ToldNothingNew(s: Sys, t: Sys, q: nat) {
    && q in s.requests && !s.requests[q].phase.Answered?
    && q in t.requests && t.requests[q].phase.Answered? && t.requests[q].phase.answer.NotModified?
  }

  /** A request is told "not modified" exactly when its wait times out while its
      replica knows nothing newer: never at once, and never after a build. */
  lemma OnlyTimeoutsSayNothingNew(run: seq<Sys>, n: nat, step: Step, q: nat)
    requires IsRun(run) && n < |run| && Enabled(run[n], step)
    ensures ToldNothingNew(run[n], Apply(run[n], step), q) <==>
      step == TimeOut(q) && run[n].requests[q].after.Some?
      && ReplicaOf(run[n], q).watch <= run[n].requests[q].after.value
  {
    RunKeepsInv(run, n);
    var s := run[n];
    if q in s.requests {
      assert Live(s, q) && RequestOk(ReplicaOf(s, q), s.requests[q]);
      assert BuildOk(s.requests, s.requests[q].replica, ReplicaOf(s, q).build);
      if step.Admit? || step.WakeUp? || step.TimeOut? { WaitsTell(s, step, q); }
      else if step.TakeLock? || step.StoreCache? { RepliesTell(s, step, q); }
      else { OthersTellNothing(s, step, q); }
    }
  }

  lemma WaitsTell(s: Sys, step: Step, q: nat)
    requires Enabled(s, step) && (step.Admit? || step.WakeUp? || step.TimeOut?) && Live(s, q)
    ensures ToldNothingNew(s, Apply(s, step), q) <==> step == TimeOut(q) && ParksOn(s, step)
  {
  }

  lemma RepliesTell(s: Sys, step: Step, q: nat)
    requires Enabled(s, step) && (step.TakeLock? || step.StoreCache?) && Live(s, q)
    requires RequestOk(ReplicaOf(s, q), s.requests[q]) && BuildOk(s.requests, s.requests[q].replica, ReplicaOf(s, q).build)
    ensures !ToldNothingNew(s, Apply(s, step), q)
  {
  }

  lemma OthersTellNothing(s: Sys, step: Step, q: nat)
    requires Enabled(s, step) && Live(s, q)
    requires !step.Admit? && !step.WakeUp? && !step.TimeOut? && !step.TakeLock? && !step.StoreCache?
    ensures !ToldNothingNew(s, Apply(s, step), q)
  {
  }

  /** The database is read only for a replica whose cache is older than what its
      watcher knows: of the requests that miss at once, one builds and the others
      are answered from its build. */
  lemma ReadsOnlyWhenStale(run: seq<Sys>, n: nat, q: nat, order: RowOrder)
    requires IsRun(run) && n < |run| && Enabled(run[n], ReadRows(q, order))
    ensures var r := ReplicaOf(run[n], q); r.cached.None? || r.cached.value.version < r.watch
  {
    RunKeepsInv(run, n);
    assert ReplicaOk(run[n].commits, Now(run[n]).db.version, ReplicaOf(run[n], q));
  }

  /** When a build ends, its snapshot is the cache and the lock is free; a request
      queued behind it is answered from that snapshot, without a read of its own,
      exactly if the watcher has not moved past it. */
  lemma BuildIsShared(run: seq<Sys>, n: nat, q: nat, p: nat)
    requires IsRun(run) && n < |run| && Enabled(run[n], StoreCache(q))
    requires p != q && Live(run[n], p) && run[n].requests[p].replica == run[n].requests[q].replica
    requires run[n].requests[p].phase.Queued?
    ensures var s, t := run[n], Apply(run[n], StoreCache(q));
      var snap := ReplicaOf(s, q).build.snap;
      && Live(t, p) && ReplicaOf(t, p).cached == Some(snap) && Enabled(t, TakeLock(p))
      && var u := Apply(t, TakeLock(p));
         && Live(u, p) && (ReplicaOf(u, p).build.Free? <==> ReplicaOf(s, q).watch <= snap.version)
         && (ReplicaOf(u, p).build.Free? ==> u.requests[p].phase.Answered? && u.requests[p].phase.answer == Body(snap))
  {
    RunKeepsInv(run, n);
    var s := run[n];
    assert RequestOk(ReplicaOf(s, p), s.requests[p]);
    SharedBuild(s, q, p);
  }

  lemma SharedBuild(s: Sys, q: nat, p: nat)
    requires Enabled(s, StoreCache(q)) && p != q && Live(s, p) && s.requests[p].replica == s.requests[q].replica
    requires s.requests[p].phase.Queued? && RequestOk(ReplicaOf(s, p), s.requests[p])
    ensures var t, snap := Apply(s, StoreCache(q)), ReplicaOf(s, q).build.snap;
      && Live(t, p) && ReplicaOf(t, p).cached == Some(snap) && Enabled(t, TakeLock(p))
      && var u := Apply(t, TakeLock(p));
         && Live(u, p) && (ReplicaOf(u, p).build.Free? <==> ReplicaOf(s, q).watch <= snap.version)
         && (ReplicaOf(u, p).build.Free? ==> u.requests[p].phase.Answered? && u.requests[p].phase.answer == Body(snap))
  {
    var t := Apply(s, StoreCache(q));
    assert t.replicas[s.requests[q].replica].build.Free? && t.requests[p] == s.requests[p];
  }

  /** A plane takes every answer that is newer than its view, and no other. */
  lemma DeliveryAdvances(run: seq<Sys>, n: nat, p: nat, snap: Snapshot)
    requires IsRun(run) && n < |run| && Enabled(run[n], Deliver(p, snap))
    ensures var s, t := run[n], Apply(run[n], Deliver(p, snap));
      && t == s.(planes := t.planes) && p in t.planes && t.planes == s.planes[p := t.planes[p]]
      && var was, now := s.planes[p], t.planes[p];
         if was.cur.None? || was.cur.value.version < snap.version
         then now.cur == Some(snap) && now.installed == was.installed + [snap.version]
         else now == was
  {
    PlanesNeverReject(run, n, p, snap);
  }

  lemma CacheStep(s: Sys, step: Step, r: nat)
    requires Enabled(s, step) && step != StartReplica(r) && r in s.replicas && s.replicas[r].cached.Some?
    requires s.replicas[r].build.Built? ==> s.replicas[r].cached.value.version <= s.replicas[r].build.snap.version
    ensures var s' := Apply(s, step);
      r in s'.replicas && s'.replicas[r].cached.Some?
      && s.replicas[r].cached.value.version <= s'.replicas[r].cached.value.version
  {
  }

  /** Short of a restart, a replica's cached version never falls. */
  lemma CacheNeverFalls(run: seq<Sys>, n: nat, step: Step, r: nat)
    requires IsRun(run) && n < |run| && Enabled(run[n], step) && step != StartReplica(r)
    requires r in run[n].replicas && run[n].replicas[r].cached.Some?
    ensures var s' := Apply(run[n], step);
      r in s'.replicas && s'.replicas[r].cached.Some?
      && run[n].replicas[r].cached.value.version <= s'.replicas[r].cached.value.version
  {
    RunKeepsInv(run, n);
    assert ReplicaOk(run[n].commits, Now(run[n]).db.version, run[n].replicas[r]);
    CacheStep(run[n], step, r);
  }

  /** A step while writers pause. */
  ghost predicate Quietly(s: Sys, step: Step, t: Sys) {
    !step.Commit? && Enabled(s, step) && t == Apply(s, step)
  }

  lemma LeadsByThree(s: Sys, x: Step, a: Sys, y: Step, b: Sys, z: Step, t: Sys)
    requires Quietly(s, x, a) && Quietly(a, y, b) && Quietly(b, z, t)
    ensures Leads(Quietly, s, [x] + [y] + [z], t)
  {
    LeadsThen(Quietly, s, [], s, x, a);
    assert [] + [x] == [x];
    LeadsThen(Quietly, s, [x], a, y, b);
    LeadsThen(Quietly, s, [x] + [y], b, z, t);
  }

  /** One poll brings an idle replica's watcher to the database's version. */
  lemma PollCatchesUp(s: Sys, r: nat) returns (steps: seq<Step>, t: Sys)
    requires Inv(s) && r in s.replicas && s.replicas[r].polled.None?
    ensures Leads(Quietly, s, steps, t) && Inv(t)
    ensures t.commits == s.commits && t.requests == s.requests && t.planes == s.planes
    ensures r in t.replicas && t.replicas[r].watch == Now(s).db.version && t.replicas[r].build == s.replicas[r].build
  {
    var mid := Apply(s, PollRead(r));
    StepKeepsInv(s, PollRead(r));
    LeadsThen(Quietly, s, [], s, PollRead(r), mid);
    t := Apply(mid, PollApply(r));
    StepKeepsInv(mid, PollApply(r));
    LeadsThen(Quietly, s, [] + [PollRead(r)], mid, PollApply(r), t);
    steps := [] + [PollRead(r)] + [PollApply(r)];
  }

  /** Ready to be answered: q wants what the database has, and r knows of it. */
  ghost predicate Asks(s: Sys, r: nat, q: nat) {
    && s.commits != [] && Live(s, q) && s.requests[q].replica == r && s.replicas[r].watch == Now(s).db.version
    && (s.requests[q].after.Some? ==> s.requests[q].after.value < Now(s).db.version)
  }

  /** Fetching touches neither the database nor a plane. */
  ghost predicate Quiet(s: Sys, t: Sys) {
    t.commits == s.commits && t.planes == s.planes
  }

  lemma LockTaken(s: Sys, r: nat, q: nat)
    requires Asks(s, r, q) && s.requests[q].phase.Queued? && s.replicas[r].build.Free? && !Fresh(s.replicas[r])
    ensures var t := Apply(s, TakeLock(q));
      && Quietly(s, TakeLock(q), t)
      && Asks(t, r, q) && Quiet(s, t) && t.replicas[r].build == Reading(q) && t.requests[q].phase.Holding?
  {
  }

  lemma RowsRead(s: Sys, r: nat, q: nat, order: RowOrder)
    requires Asks(s, r, q) && s.requests[q].phase.Holding? && s.replicas[r].build == Reading(q)
    requires Answers(Now(s).db, order)
    ensures var t := Apply(s, ReadRows(q, order));
      && Quietly(s, ReadRows(q, order), t)
      && Asks(t, r, q) && Quiet(s, t) && t.requests[q].phase.Holding?
      && t.replicas[r].build == Built(q, ReadSnapshot(Now(s).db, order))
  {
  }

  lemma CacheStored(s: Sys, r: nat, q: nat)
    requires Asks(s, r, q) && s.requests[q].phase.Holding? && s.replicas[r].build.Built? && s.replicas[r].build.q == q
    requires s.replicas[r].build.snap.version == Now(s).db.version
    ensures var t := Apply(s, StoreCache(q));
      Quietly(s, StoreCache(q), t) && Quiet(s, t) && s.replicas[r].build.snap in t.sent
  {
  }

  lemma BuildStates(s: Sys, r: nat, q: nat, order: RowOrder) returns (a: Sys, b: Sys, t: Sys)
    requires Asks(s, r, q) && s.requests[q].phase.Queued? && s.replicas[r].build.Free? && !Fresh(s.replicas[r])
    requires Answers(Now(s).db, order)
    ensures Quietly(s, TakeLock(q), a) && Quietly(a, ReadRows(q, order), b) && Quietly(b, StoreCache(q), t)
    ensures Quiet(s, t) && ReadSnapshot(Now(s).db, order) in t.sent
  {
    a := Apply(s, TakeLock(q));
    LockTaken(s, r, q);
    b := Apply(a, ReadRows(q, order));
    RowsRead(a, r, q, order);
    t := Apply(b, StoreCache(q));
    CacheStored(b, r, q);
  }

  /** A fetch that finds the cache too old builds the current snapshot. */
  lemma BuildCatchesUp(s: Sys, r: nat, q: nat, order: RowOrder) returns (steps: seq<Step>, t: Sys, snap: Snapshot)
    requires Inv(s) && Asks(s, r, q) && s.requests[q].phase.Queued? && s.replicas[r].build.Free? && !Fresh(s.replicas[r])
    requires Answers(Now(s).db, order)
    ensures Leads(Quietly, s, steps, t) && Inv(t) && Quiet(s, t)
    ensures snap in t.sent && snap.version == Now(s).db.version
  {
    var a, b;
    a, b, t := BuildStates(s, r, q, order);
    LeadsByThree(s, TakeLock(q), a, ReadRows(q, order), b, StoreCache(q), t);
    steps := [TakeLock(q)] + [ReadRows(q, order)] + [StoreCache(q)];
    QuietKeepsInv(s, steps, t);
    snap := ReadSnapshot(Now(s).db, order);
  }

  lemma AdmitCatchesUp(s: Sys, r: nat, q: nat, order: RowOrder) returns (steps: seq<Step>, t: Sys, snap: Snapshot)
    requires Inv(s) && Asks(s, r, q) && s.requests[q].phase.Arrived? && s.replicas[r].build.Free?
    requires Answers(Now(s).db, order)
    ensures Leads(Quietly, s, steps, t) && Inv(t) && Quiet(s, t)
    ensures snap in t.sent && snap.version == Now(s).db.version
  {
    t := Apply(s, Admit(q));
    assert t == Serve(s, q, false);
    ServeKeepsInv(s, q, false);
    LeadsThen(Quietly, s, [], s, Admit(q), t);
    steps := [] + [Admit(q)];
    if Fresh(s.replicas[r]) {
      snap := s.replicas[r].cached.value;
      assert ReplicaOk(s.commits, Now(s).db.version, s.replicas[r]);
    } else {
      var mid, rest := t, [];
      rest, t, snap := BuildCatchesUp(mid, r, q, order);
      LeadsOn(Quietly, s, steps, mid, rest, t);
      steps := steps + rest;
    }
  }

  /** One fetch is answered with the database's version. */
  lemma FetchCatchesUp(s: Sys, r: nat, q: nat, after: Option<int>, order: RowOrder)
      returns (steps: seq<Step>, t: Sys, snap: Snapshot)
    requires Inv(s) && q !in s.requests && r in s.replicas && s.replicas[r].build.Free?
    requires s.replicas[r].watch == Now(s).db.version && Answers(Now(s).db, order)
    requires after.Some? ==> 0 <= after.value < Now(s).db.version
    ensures Leads(Quietly, s, steps, t) && Inv(t) && Quiet(s, t)
    ensures snap in t.sent && snap.version == Now(s).db.version
  {
    var mid := Apply(s, Arrive(q, r, after));
    ArriveKeepsInv(s, q, r, after);
    LeadsThen(Quietly, s, [], s, Arrive(q, r, after), mid);
    var rest;
    rest, t, snap := AdmitCatchesUp(mid, r, q, order);
    LeadsOn(Quietly, s, [] + [Arrive(q, r, after)], mid, rest, t);
    steps := [] + [Arrive(q, r, after)] + rest;
  }

  lemma NewestDelivered(s: Sys, p: nat, snap: Snapshot) returns (t: Sys)
    requires s.commits != [] && p in s.planes && snap in s.sent && Faithful(s.commits, snap)
    requires s.planes[p].cur.None? || s.planes[p].cur.value.version < snap.version
    ensures Quietly(s, Deliver(p, snap), t) && p in t.planes && t.planes[p].cur == Some(snap)
  {
    t := Apply(s, Deliver(p, snap));
  }

  /** Once writers pause, one poll of an idle replica, one fetch and one
      delivery bring any data plane to the database's version. */
  lemma CatchUp(run: seq<Sys>, n: nat, r: nat, q: nat, p: nat, order: RowOrder) returns (steps: seq<Step>, t: Sys)
    requires IsRun(run) && n < |run| && run[n].commits != []
    requires r in run[n].replicas && run[n].replicas[r].polled.None? && run[n].replicas[r].build.Free?
    requires p in run[n].planes && q !in run[n].requests && Answers(Now(run[n]).db, order)
    ensures Leads(Quietly, run[n], steps, t)
    ensures p in t.planes && t.planes[p].cur.Some? && t.planes[p].cur.value.version == Now(run[n]).db.version
  {
    RunKeepsInv(run, n);
    var s := run[n];
    assert PlaneOk(s.commits, Now(s).db.version, s.planes[p]);
    var cur := s.planes[p].cur;
    if cur.Some? && cur.value.version == Now(s).db.version {
      steps, t := [], s;
    } else {
      var polled, fetched, rest, snap;
      steps, polled := PollCatchesUp(s, r);
      rest, fetched, snap := FetchCatchesUp(polled, r, q, if cur.Some? then Some(cur.value.version) else None, order);
      LeadsOn(Quietly, s, steps, polled, rest, fetched);
      t := NewestDelivered(fetched, p, snap);
      LeadsThen(Quietly, s, steps + rest, fetched, Deliver(p, snap), t);
      steps := steps + rest + [Deliver(p, snap)];
    }
  }

  // ----------------------------------------- every schedule while writers pause

  /** r's watcher knows the database's version. */
  predicate Current(s: Sys, r: nat) {
    s.commits != [] && r in s.replicas && s.replicas[r].watch == Now(s).db.version
  }

  /** q has not entered current() yet. */
  predicate NotAdmitted(s: Sys, q: nat) {
    q in s.requests ==> s.requests[q].phase.Arrived? || s.requests[q].phase.Waiting?
  }

  /** What a request admitted by a current replica carries or was answered. */
  predicate Settled(version: int, sent: set<Snapshot>, x: Request) {
    match x.phase
    case Arrived => true
    case Waiting(_) => true
    case Queued(floor, _) => floor == version
    case Holding(floor, _) => floor == version
    case Answered(NotModified, _, _) => x.after.Some? && version <= x.after.value
    case Answered(Body(snap), _, _) =>
      snap in sent && snap.version == version && (x.after.Some? ==> x.after.value < version)
  }

  /** Those of r's requests that were not admitted before are all settled. */
  ghost predicate AllSettled(version: int, sent: set<Snapshot>, requests: map<nat, Request>, r: nat, before: set<nat>) {
    forall q :: q in requests && requests[q].replica == r && q !in before ==> Settled(version, sent, requests[q])
  }

  ghost predicate SettledAt(s: Sys, r: nat, before: set<nat>) {
    Current(s, r) && AllSettled(Now(s).db.version, s.sent, s.requests, r, before)
  }

  /** Only q changed, or went away. */
  lemma OthersStaySettled(version: int, sent: set<Snapshot>, sent': set<Snapshot>, requests: map<nat, Request>,
                          requests': map<nat, Request>, r: nat, before: set<nat>, q: nat)
    requires AllSettled(version, sent, requests, r, before) && sent <= sent'
    requires forall p :: p in requests' && p != q ==> p in requests && requests'[p] == requests[p]
    requires q in requests' && requests'[q].replica == r && q !in before ==> Settled(version, sent', requests'[q])
    ensures AllSettled(version, sent', requests', r, before)
  {
  }

  /** Versions that a current replica holds cannot be newer than its watcher's. */
  lemma HeldIsCurrent(s: Sys, r: nat)
    requires Inv(s) && Current(s, r)
    ensures var x := s.replicas[r];
      && (Fresh(x) ==> x.cached.value.version == Now(s).db.version)
      && (x.build.Built? ==> x.build.snap.version <= Now(s).db.version)
  {
    assert ReplicaOk(s.commits, Now(s).db.version, s.replicas[r]);
  }

  lemma ServeSettles(s: Sys, r: nat, before: set<nat>, q: nat, woken: bool)
    requires SettledAt(s, r, before) && Live(s, q)
    requires Fresh(s.replicas[r]) ==> s.replicas[r].cached.value.version == Now(s).db.version
    ensures SettledAt(Serve(s, q, woken), r, before)
  {
    var t := Serve(s, q, woken);
    OthersStaySettled(Now(s).db.version, s.sent, t.sent, s.requests, t.requests, r, before, q);
  }

  lemma WaitsSettle(s: Sys, step: Step, r: nat, before: set<nat>)
    requires SettledAt(s, r, before) && Enabled(s, step) && (step.Admit? || step.WakeUp? || step.TimeOut?)
    requires Fresh(s.replicas[r]) ==> s.replicas[r].cached.value.version == Now(s).db.version
    ensures SettledAt(Apply(s, step), r, before)
  {
    var q, t := step.q, Apply(s, step);
    var after := s.requests[q].after;
    if after.Some? && ReplicaOf(s, q).watch <= after.value {
      OthersStaySettled(Now(s).db.version, s.sent, t.sent, s.requests, t.requests, r, before, q);
    } else {
      ServeSettles(s, r, before, q, !step.Admit?);
    }
  }

  lemma LockSettles(s: Sys, q: nat, r: nat, before: set<nat>)
    requires SettledAt(s, r, before) && Enabled(s, TakeLock(q))
    requires Fresh(s.replicas[r]) ==> s.replicas[r].cached.value.version == Now(s).db.version
    ensures SettledAt(Apply(s, TakeLock(q)), r, before)
  {
    var t := Apply(s, TakeLock(q));
    OthersStaySettled(Now(s).db.version, s.sent, t.sent, s.requests, t.requests, r, before, q);
  }

  lemma StoreSettles(s: Sys, q: nat, r: nat, before: set<nat>)
    requires SettledAt(s, r, before) && Enabled(s, StoreCache(q))
    requires s.replicas[r].build.Built? ==> s.replicas[r].build.snap.version <= Now(s).db.version
    requires s.requests[q].phase.floor <= ReplicaOf(s, q).build.snap.version
    ensures SettledAt(Apply(s, StoreCache(q)), r, before)
  {
    var t := Apply(s, StoreCache(q));
    OthersStaySettled(Now(s).db.version, s.sent, t.sent, s.requests, t.requests, r, before, q);
  }

  lemma ReplyStepsSettle(s: Sys, step: Step, r: nat, before: set<nat>)
    requires Inv(s) && SettledAt(s, r, before) && Enabled(s, step) && (step.TakeLock? || step.StoreCache?)
    ensures SettledAt(Apply(s, step), r, before)
  {
    HeldIsCurrent(s, r);
    if step.TakeLock? {
      LockSettles(s, step.q, r, before);
    } else {
      var id := s.requests[step.q].replica;
      assert BuildOk(s.requests, id, s.replicas[id].build);
      StoreSettles(s, step.q, r, before);
    }
  }

  lemma ComingAndGoingSettles(s: Sys, step: Step, r: nat, before: set<nat>)
    requires SettledAt(s, r, before) && Enabled(s, step) && (step.Arrive? || step.Abort?)
    ensures SettledAt(Apply(s, step), r, before)
  {
    var t := Apply(s, step);
    OthersStaySettled(Now(s).db.version, s.sent, t.sent, s.requests, t.requests, r, before, step.q);
  }

  lemma PollsSettle(s: Sys, step: Step, r: nat, before: set<nat>)
    requires Inv(s) && SettledAt(s, r, before) && Enabled(s, step) && (step.PollRead? || step.PollApply?)
    ensures SettledAt(Apply(s, step), r, before)
  {
    assert ReplicaOk(s.commits, Now(s).db.version, s.replicas[r]);
  }

  lemma OtherStepsSettle(s: Sys, step: Step, r: nat, before: set<nat>)
    requires SettledAt(s, r, before) && Enabled(s, step)
    requires step.ReadRows? || step.StartPlane? || step.Deliver? || (step.StartReplica? && step.r != r)
    ensures SettledAt(Apply(s, step), r, before)
  {
  }

  lemma StepSettles(s: Sys, step: Step, r: nat, before: set<nat>)
    requires Inv(s) && SettledAt(s, r, before) && !step.Commit? && Enabled(s, step) && step != StartReplica(r)
    ensures SettledAt(Apply(s, step), r, before)
  {
    if step.Admit? || step.WakeUp? || step.TimeOut? {
      HeldIsCurrent(s, r);
      WaitsSettle(s, step, r, before);
    } else if step.TakeLock? || step.StoreCache? {
      ReplyStepsSettle(s, step, r, before);
    } else if step.Arrive? || step.Abort? {
      ComingAndGoingSettles(s, step, r, before);
    } else if step.PollRead? || step.PollApply? {
      PollsSettle(s, step, r, before);
    } else {
      OtherStepsSettle(s, step, r, before);
    }
  }

  /** r is not restarted on the way. */
  predicate Keeps(steps: seq<Step>, r: nat) {
    forall i :: 0 <= i < |steps| ==> steps[i] != StartReplica(r)
  }

  lemma QuietStepSettles(s: Sys, step: Step, t: Sys, r: nat, before: set<nat>)
    requires Inv(s) && SettledAt(s, r, before) && Quietly(s, step, t) && step != StartReplica(r)
    ensures Inv(t) && SettledAt(t, r, before) && t.commits == s.commits
  {
    StepSettles(s, step, r, before);
    StepKeepsInv(s, step);
  }

  lemma {:induction false} PathSettles(s: Sys, steps: seq<Step>, t: Sys, r: nat, before: set<nat>)
    requires Inv(s) && SettledAt(s, r, before) && Leads(Quietly, s, steps, t) && Keeps(steps, r)
    ensures Inv(t) && SettledAt(t, r, before) && t.commits == s.commits
    decreases |steps|
  {
    if steps != [] {
      var mid :| Quietly(s, steps[0], mid) && Leads(Quietly, mid, steps[1..], t);
      QuietStepSettles(s, steps[0], mid, r, before);
      PathSettles(mid, steps[1..], t, r, before);
    }
  }

  /** A plane that gets the database's version ends with it, whatever it has. */
  lemma DeliverCurrent(commits: seq<History.Sys>, version: int, p: Plane, snap: Snapshot)
    requires PlaneOk(commits, version, p) && Acceptable(snap) && snap.version == version
    ensures Delivered(p, snap).cur.Some? && Delivered(p, snap).cur.value.version == version
  {
  }

  function Admitted(s: Sys): set<nat> {
    set q | q in s.requests && !NotAdmitted(s, q)
  }

  lemma StartsSettled(s: Sys, r: nat)
    requires Current(s, r)
    ensures SettledAt(s, r, Admitted(s))
  {
  }

  lemma SettledFromPoll(s: Sys, steps: seq<Step>, t: Sys, r: nat)
    requires Inv(s) && Current(s, r) && Leads(Quietly, s, steps, t) && Keeps(steps, r)
    ensures SettledAt(t, r, Admitted(s)) && t.commits == s.commits
  {
    StartsSettled(s, r);
    PathSettles(s, steps, t, r, Admitted(s));
  }

  lemma AnswerSettles(s: Sys, steps: seq<Step>, t: Sys, r: nat, q: nat)
    requires Inv(s) && Current(s, r) && NotAdmitted(s, q)
    requires Leads(Quietly, s, steps, t) && Keeps(steps, r)
    requires q in t.requests && t.requests[q].replica == r
    ensures Settled(Now(s).db.version, t.sent, t.requests[q])
  {
    assert q !in Admitted(s);
    SettledFromPoll(s, steps, t, r);
  }

  /** Whatever happens while writers pause: once r knows the database's version,
      every request that it admits from then on and answers gets a body exactly
      if it asked for less, and that body has exactly the database's version. */
  lemma PolledAnswersAreCurrent(s: Sys, steps: seq<Step>, t: Sys, r: nat, q: nat)
    requires Inv(s) && Current(s, r) && NotAdmitted(s, q)
    requires Leads(Quietly, s, steps, t) && Keeps(steps, r)
    requires q in t.requests && t.requests[q].replica == r && t.requests[q].phase.Answered?
    ensures var x := t.requests[q];
      && (x.phase.answer.Body? <==> x.after.None? || x.after.value < Now(s).db.version)
      && (x.phase.answer.Body? ==> x.phase.answer.snap.version == Now(s).db.version && x.phase.answer.snap in t.sent)
  {
    AnswerSettles(s, steps, t, r, q);
  }

  lemma DeliverCatchesUp(commits: seq<History.Sys>, version: int, planes: map<nat, Plane>, sent: set<Snapshot>,
                         p: nat, snap: Snapshot)
    requires AllPlanesOk(commits, version, planes) && AllSentOk(commits, version, sent)
    requires p in planes && snap in sent && snap.version == version
    ensures Delivered(planes[p], snap).cur.Some? && Delivered(planes[p], snap).cur.value.version == version
  {
    assert PlaneOk(commits, version, planes[p]) && Faithful(commits, snap);
    DeliverCurrent(commits, version, planes[p], snap);
  }

  lemma QuietStep(s: Sys, step: Step, t: Sys)
    requires Inv(s) && Quietly(s, step, t)
    ensures Inv(t) && t.commits == s.commits
  {
    StepKeepsInv(s, step);
  }

  lemma NowCatchesUp(s: Sys, p: nat, snap: Snapshot)
    requires Inv(s) && p in s.planes && snap in s.sent && snap.version == Now(s).db.version
    ensures var cur := Delivered(s.planes[p], snap).cur;
      cur.Some? && cur.value.version == Now(s).db.version
  {
    DeliverCatchesUp(s.commits, Now(s).db.version, s.planes, s.sent, p, snap);
  }

  lemma {:induction false} PlaneCatchesUp(s: Sys, steps: seq<Step>, t: Sys, p: nat, snap: Snapshot)
    requires Inv(s) && Leads(Quietly, s, steps, t)
    requires p in t.planes && snap in t.sent && snap.version == Now(s).db.version
    ensures var cur := Delivered(t.planes[p], snap).cur;
      cur.Some? && cur.value.version == Now(s).db.version
    decreases |steps|
  {
    if steps == [] {
      NowCatchesUp(s, p, snap);
    } else {
      var mid :| Quietly(s, steps[0], mid) && Leads(Quietly, mid, steps[1..], t);
      QuietStep(s, steps[0], mid);
      PlaneCatchesUp(mid, steps[1..], t, p, snap);
    }
  }

  /** Any plane that any such body reaches, however late within the pause, then
      runs on the database's version. */
  lemma PolledBodiesCatchUp(s: Sys, steps: seq<Step>, t: Sys, r: nat, q: nat, p: nat)
    requires Inv(s) && Current(s, r) && NotAdmitted(s, q)
    requires Leads(Quietly, s, steps, t) && Keeps(steps, r)
    requires q in t.requests && t.requests[q].replica == r && t.requests[q].phase.Answered?
    requires t.requests[q].phase.answer.Body? && p in t.planes
    ensures var snap := t.requests[q].phase.answer.snap;
      var cur := Delivered(t.planes[p], snap).cur;
      snap in t.sent && cur.Some? && cur.value.version == Now(s).db.version
  {
    PolledAnswersAreCurrent(s, steps, t, r, q);
    PlaneCatchesUp(s, steps, t, p, t.requests[q].phase.answer.snap);
  }

  /** r has read the current version, whether or not it has applied it. */
  predicate Aware(s: Sys, r: nat) {
    s.commits != [] && r in s.replicas
    && (s.replicas[r].watch == Now(s).db.version || s.replicas[r].polled == Some(Now(s).db.version))
  }

  /** What was polled lies between the watcher's version and the database's. */
  ghost predicate Lags(s: Sys, r: nat) {
    s.commits != [] && r in s.replicas
    && (s.replicas[r].polled.Some? ==> s.replicas[r].watch <= s.replicas[r].polled.value <= Now(s).db.version)
  }

  lemma LagsAlways(s: Sys, r: nat)
    requires Inv(s) && r in s.replicas
    ensures Lags(s, r)
  {
    assert ReplicaOk(s.commits, Now(s).db.version, s.replicas[r]);
  }

  lemma AwareElsewhere(s: Sys, step: Step, r: nat)
    requires Aware(s, r) && !step.Commit? && Enabled(s, step) && step != StartReplica(r)
    requires !step.PollRead? && !step.PollApply?
    ensures Aware(Apply(s, step), r) && (Current(s, r) ==> Current(Apply(s, step), r))
  {
  }

  lemma AwarePoll(s: Sys, step: Step, r: nat)
    requires Lags(s, r) && Enabled(s, step) && (step.PollRead? || step.PollApply?)
    requires Aware(s, r) || step == PollRead(r)
    ensures Aware(Apply(s, step), r)
    ensures Aware(s, r) && (Current(s, r) || step == PollApply(r)) ==> Current(Apply(s, step), r)
  {
  }

  lemma QuietStepAware(s: Sys, step: Step, t: Sys, r: nat)
    requires Inv(s) && r in s.replicas && Quietly(s, step, t) && step != StartReplica(r)
    requires Aware(s, r) || step == PollRead(r)
    ensures Inv(t) && Aware(t, r) && t.commits == s.commits
    ensures Aware(s, r) && (Current(s, r) || step == PollApply(r)) ==> Current(t, r)
  {
    LagsAlways(s, r);
    if step.PollRead? || step.PollApply? { AwarePoll(s, step, r); } else { AwareElsewhere(s, step, r); }
    StepKeepsInv(s, step);
  }

  lemma {:induction false} AwareStays(s: Sys, steps: seq<Step>, t: Sys, r: nat)
    requires Inv(s) && Aware(s, r) && Leads(Quietly, s, steps, t) && Keeps(steps, r)
    ensures Inv(t) && Aware(t, r) && t.commits == s.commits
    ensures Current(s, r) || PollApply(r) in steps ==> Current(t, r)
    decreases |steps|
  {
    if steps != [] {
      var mid :| Quietly(s, steps[0], mid) && Leads(Quietly, mid, steps[1..], t);
      QuietStepAware(s, steps[0], mid, r);
      AwareStays(mid, steps[1..], t, r);
    }
  }

  /** One whole poll within the pause is enough, whatever else happens around
      and inside it: r then knows the database's version. */
  lemma OnePollIsEnough(s: Sys, a: seq<Step>, b: seq<Step>, t: Sys, r: nat)
    requires Inv(s) && Leads(Quietly, s, a + ([PollRead(r)] + b), t) && PollApply(r) in b && Keeps(b, r)
    ensures Inv(t) && t.commits == s.commits && Current(t, r)
  {
    var x := LeadsSplit(Quietly, s, a, [PollRead(r)] + b, t);
    QuietKeepsInv(s, a, x);
    var y :| Quietly(x, ([PollRead(r)] + b)[0], y) && Leads(Quietly, y, ([PollRead(r)] + b)[1..], t);
    assert ([PollRead(r)] + b)[1..] == b;
    QuietStepAware(x, PollRead(r), y, r);
    AwareStays(y, b, t, r);
  }

  lemma {:induction false} QuietKeepsInv(s: Sys, steps: seq<Step>, t: Sys)
    requires Inv(s) && Leads(Quietly, s, steps, t)
    ensures Inv(t) && t.commits == s.commits
    decreases |steps|
  {
    if steps != [] {
      var mid :| Quietly(s, steps[0], mid) && Leads(Quietly, mid, steps[1..], t);
      QuietStep(s, steps[0], mid);
      QuietKeepsInv(mid, steps[1..], t);
    }
  }
}
