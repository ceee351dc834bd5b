/** Any number of goroutines over one pool manager: every lock-held region of
    PoolModel is one atomic step, and factory calls, script calls, waits and
    instance closes happen between steps. */
module PoolSystem {
  import opened Basics
  import opened PoolModel

  type Thread = nat

  /** Where a goroutine is between two lock-held regions. */
  datatype Phase =
    | Trying(key: Key, limit: int)
    | Parked(key: Key, limit: int, ch: nat)
    | Creating(key: Key)
    | GivingUp(key: Key)
    | Leased(key: Key, e: Entry, called: bool, failed: bool)

  /** home, leases and broken record the history of every instance ever made:
      its key, how often it was leased, and whether a call on it failed.
      pending holds instances taken out of the pool whose Close is still to
      run; closeCalls counts the Close calls that have run. */
  datatype Sys = Sys(m: State,
                     threads: map<Thread, Phase>,
                     home: map<Inst, Key>,
                     leases: map<Inst, nat>,
                     broken: set<Inst>,
                     pending: multiset<Inst>,
                     closeCalls: multiset<Inst>,
                     clock: int)

  datatype Step =
    | Start(t: Thread, key: Key, rawLimit: int)
    | Try(t: Thread, a: Attempt)
    | Wake(t: Thread)
    | WaitEnds(t: Thread)
    | Abandon(t: Thread)
    | Made(t: Thread, inst: Inst)
    | MakeFailed(t: Thread)
    | Call(t: Thread, ok: bool)
    | Return(t: Thread, healthy: bool)
    | ReapIdle(order: seq<Key>, now: int)
    | CloseManager(order: seq<Key>)
    | CloseInstance(inst: Inst)
    | Tick(now: int)

  const START := Sys(INITIAL, map[], map[], map[], {}, multiset{}, multiset{}, 0)

  ghost predicate Enabled(o: Options, s: Sys, step: Step) {
    match step
    case Start(t, _, _) => t !in s.threads
    case Try(t, a) => t in s.threads && s.threads[t].Trying?
                      && Allowed(o, s.m, s.threads[t].key, s.threads[t].limit, a)
    case Wake(t) => t in s.threads && s.threads[t].Parked? && s.threads[t].ch < s.m.changed
    case WaitEnds(t) => t in s.threads && s.threads[t].Parked?
    case Abandon(t) => t in s.threads && s.threads[t].GivingUp?
    case Made(t, inst) => t in s.threads && s.threads[t].Creating? && inst !in s.home
    case MakeFailed(t) => t in s.threads && s.threads[t].Creating?
    // The executor calls the script once per lease, reports a failed call as
    // unhealthy, and may give a lease back unused or after a panic.
    case Call(t, _) => t in s.threads && s.threads[t].Leased? && !s.threads[t].called
    case Return(t, healthy) => t in s.threads && s.threads[t].Leased? && (healthy ==> !s.threads[t].failed)
    case ReapIdle(order, _) => Lists(order, s.m.pools.Keys)
    case CloseManager(order) => !s.m.closed ==> Lists(order, s.m.pools.Keys)
    case CloseInstance(inst) => inst in s.pending
    case Tick(now) => now >= s.clock
  }

  ghost function Apply(o: Options, s: Sys, step: Step): Sys
    requires Enabled(o, s, step)
  {
    match step
    case Start(t, key, raw) => s.(threads := s.threads[t := Trying(key, EffectiveLimit(raw))])
    case Try(t, a) => AfterTry(o, s, t, a)
    case Wake(t) => s.(threads := s.threads[t := Trying(s.threads[t].key, s.threads[t].limit)])
    case WaitEnds(t) => s.(threads := s.threads[t := GivingUp(s.threads[t].key)])
    case Abandon(t) => s.(m := GiveUp(s.m, s.threads[t].key), threads := s.threads - {t})
    case Made(t, i) =>
      var key := s.threads[t].key;
      s.(threads := s.threads[t := Leased(key, Entry(i, 0, 0), false, false)],
         home := s.home[i := key], leases := s.leases[i := 1])
    case MakeFailed(t) => s.(m := Unreserve(s.m, s.threads[t].key), threads := s.threads - {t})
    case Call(t, ok) =>
      var l := s.threads[t];
      s.(threads := s.threads[t := l.(called := true, failed := !ok)],
         broken := if ok then s.broken else s.broken + {l.e.inst})
    case Return(t, healthy) =>
      var l := s.threads[t];
      s.(m := Release(o, s.m, l.key, l.e, healthy, s.clock), threads := s.threads - {t},
         pending := if Retires(o, s.m, l.e, healthy) then s.pending + multiset{l.e.inst} else s.pending)
    case ReapIdle(order, now) =>
      var (m, victims) := Reap(o, s.m, order, now);
      s.(m := m, pending := s.pending + multiset(victims))
    case CloseManager(order) =>
      var (m, victims) := Shut(s.m, order);
      s.(m := m, pending := s.pending + multiset(victims))
    case CloseInstance(i) =>
      s.(pending := s.pending - multiset{i}, closeCalls := s.closeCalls + multiset{i})
    case Tick(now) => s.(clock := now)
  }

  ghost function AfterTry(o: Options, s: Sys, t: Thread, a: Attempt): Sys
    requires Enabled(o, s, Try(t, a))
  {
    var key, limit := s.threads[t].key, s.threads[t].limit;
    var s' := s.(m := AfterAttempt(o, s.m, key, limit, a));
    match a
    case Refused => s'.(threads := s.threads - {t})
    case Reuse(e) => s'.(threads := s.threads[t := Leased(key, e, false, false)],
                         leases := s.leases[e.inst := LeaseCount(s, e.inst) + 1])
    case Reserve => s'.(threads := s.threads[t := Creating(key)])
    case Evict(v) => s'.(pending := s.pending + multiset{v.inst})
    case Wait(ch) => s'.(threads := s.threads[t := Parked(key, limit, ch)])
  }

  function LeaseCount(s: Sys, i: Inst): nat {
    if i in s.leases then s.leases[i] else 0
  }

  /** A run: the start state and one enabled step after another. */
  ghost predicate IsRun(o: Options, run: seq<Sys>) {
    && run != [] && run[0] == START
    && forall i :: 0 <= i < |run| - 1 ==> StepAt(o, run, i)
  }

  ghost predicate StepAt(o: Options, run: seq<Sys>, i: nat)
    requires i + 1 < |run|
  {
    Next(o, run[i], run[i + 1])
  }

  ghost predicate Next(o: Options, s: Sys, s': Sys) {
    exists step :: Enabled(o, s, step) && s' == Apply(o, s, step)
  }

  // ------------------------------------------------------------ invariants

  function Size(p: KeyPool): int {
    p.active + |p.idle|
  }

  /** The sum over all keys of active plus idle. */
  ghost function Live(pools: map<Key, KeyPool>): int {
    if pools == map[] then 0
    else var k :| k in pools; Size(pools[k]) + Live(pools - {k})
  }

  predicate Occupies(ph: Phase, k: Key) {
    (ph.Creating? || ph.Leased?) && ph.key == k
  }

  /** The goroutines that lease, or are creating, an instance of k. */
  ghost function Occupants(threads: map<Thread, Phase>, k: Key): set<Thread> {
    set t | t in threads && Occupies(threads[t], k)
  }

  ghost predicate Accounting(o: Options, s: Sys) {
    && s.m.total == Live(s.m.pools) <= o.globalMax
    && forall k :: PoolAt(s.m.pools, k).active == |Occupants(s.threads, k)|
  }

  ghost function IdleCount(s: Sys, i: Inst): nat {
    if i in s.home then multiset(Insts(PoolAt(s.m.pools, s.home[i]).idle))[i] else 0
  }

  ghost predicate IsLeased(threads: map<Thread, Phase>, i: Inst) {
    exists t :: t in threads && threads[t].Leased? && threads[t].e.inst == i
  }

  /** How many places hold i: idle slots, leases, pending closes, closes done. */
  ghost function Places(s: Sys, i: Inst): nat {
    IdleCount(s, i) + (if IsLeased(s.threads, i) then 1 else 0) + s.pending[i] + s.closeCalls[i]
  }

  /** Conservation: every instance made is in exactly one place, under the key
      it was made for, and no two leases share one. */
  ghost predicate Conserved(s: Sys) {
    && (forall i :: Places(s, i) == if i in s.home then 1 else 0)
    && (forall k, e :: e in PoolAt(s.m.pools, k).idle ==> e.inst in s.home && s.home[e.inst] == k)
    && (forall t :: t in s.threads && s.threads[t].Leased? ==>
          s.threads[t].e.inst in s.home && s.home[s.threads[t].e.inst] == s.threads[t].key)
    && (forall t, u :: t in s.threads && u in s.threads && s.threads[t].Leased? && s.threads[u].Leased? ==>
          s.threads[t].e.inst == s.threads[u].e.inst ==> t == u)
  }

  /** uses counts finished leases: no instance is leased more than MaxUses times. */
  ghost predicate UsesBounded(o: Options, s: Sys) {
    && s.leases.Keys == s.home.Keys
    && (forall i :: i in s.leases ==> s.leases[i] <= o.maxUses)
    && (forall k, e :: e in PoolAt(s.m.pools, k).idle ==>
          LeaseCount(s, e.inst) == e.uses < o.maxUses)
    && (forall t :: t in s.threads && s.threads[t].Leased? ==>
          LeaseCount(s, s.threads[t].e.inst) == s.threads[t].e.uses + 1)
  }

  /** An instance whose call failed is held only by the lease that saw it fail. */
  ghost predicate BrokenIsolated(s: Sys) {
    && s.broken <= s.home.Keys
    && (forall k, e :: e in PoolAt(s.m.pools, k).idle ==> e.inst !in s.broken)
    && (forall t :: t in s.threads && s.threads[t].Leased? ==>
          (s.threads[t].failed <==> s.threads[t].e.inst in s.broken)
          && (s.threads[t].failed ==> s.threads[t].called))
  }

  /** Every idle list is in order of last use, none later than now. */
  ghost predicate InOrder(idle: seq<Entry>, now: int) {
    && (forall i, j :: 0 <= i < j < |idle| ==> idle[i].lastUsed <= idle[j].lastUsed)
    && (forall i :: 0 <= i < |idle| ==> idle[i].lastUsed <= now)
  }

  ghost predicate Ordered(s: Sys) {
    forall k :: InOrder(PoolAt(s.m.pools, k).idle, s.clock)
  }

  /** What a pass under the lock would find: nothing to lease, make or evict. */
  ghost predicate MustWait(o: Options, m: State, k: Key, limit: int) {
    && !m.closed
    && PoolAt(m.pools, k).idle == []
    && (PoolAt(m.pools, k).active >= limit || (m.total >= o.globalMax && !SomeIdle(m.pools)))
  }

  /** No lost wake-up: who is parked on the open channel is truly blocked. */
  ghost predicate NoLostWakeUp(o: Options, s: Sys) {
    forall t :: t in s.threads && s.threads[t].Parked? ==>
      s.threads[t].ch <= s.m.changed
      && (s.threads[t].ch == s.m.changed ==> MustWait(o, s.m, s.threads[t].key, s.threads[t].limit))
  }

  ghost predicate Waiting(threads: map<Thread, Phase>, k: Key) {
    exists t :: t in threads && (threads[t].Trying? || threads[t].Parked? || threads[t].GivingUp?)
                && threads[t].key == k
  }

  /** An empty pool stays in the map only while someone waits for its key; a
      closed manager keeps neither empty pools nor idle instances. */
  ghost predicate NoLeak(s: Sys) {
    forall k :: k in s.m.pools ==>
      && (s.m.pools[k] == EMPTY_POOL ==> Waiting(s.threads, k))
      && (s.m.closed ==> s.m.pools[k].idle == [] && s.m.pools[k].active != 0)
  }

  /** What discarding idle entries keeps, one pool at a time. */
  ghost predicate Core(o: Options, s: Sys) {
    Accounting(o, s) && Conserved(s) && UsesBounded(o, s) && BrokenIsolated(s) && Ordered(s)
  }

  ghost predicate Inv(o: Options, s: Sys) {
    Core(o, s) && NoLostWakeUp(o, s) && NoLeak(s)
  }

  // ------------------------------------------------------ counting lemmas

  lemma {:induction false} LiveAt(pools: map<Key, KeyPool>, k: Key)
    requires k in pools
    ensures Live(pools) == Size(pools[k]) + Live(pools - {k})
    decreases |pools|
  {
    var c :| c in pools && Live(pools) == Size(pools[c]) + Live(pools - {c});
    if c != k {
      LiveAt(pools - {c}, k);
      LiveAt(pools - {k}, c);
      assert pools - {c} - {k} == pools - {k} - {c};
    }
  }

  lemma LivePut(pools: map<Key, KeyPool>, k: Key, p: KeyPool)
    ensures Live(pools[k := p]) == Live(pools) - Size(PoolAt(pools, k)) + Size(p)
    ensures Live(Put(pools, k, p)) == Live(pools) - Size(PoolAt(pools, k)) + Size(p)
  {
    LiveAt(pools[k := p], k);
    assert pools[k := p] - {k} == pools - {k};
    if k in pools {
      LiveAt(pools, k);
    } else {
      assert pools - {k} == pools;
    }
  }

  lemma OccupantsWithout(threads: map<Thread, Phase>, t: Thread, k: Key)
    ensures |Occupants(threads - {t}, k)| ==
      |Occupants(threads, k)| - if t in threads && Occupies(threads[t], k) then 1 else 0
  {
    assert Occupants(threads - {t}, k) == Occupants(threads, k) - {t};
  }

  lemma PutAt(pools: map<Key, KeyPool>, k: Key, p: KeyPool)
    ensures forall l :: PoolAt(Put(pools, k, p), l) == if l == k then p else PoolAt(pools, l)
  {
  }

  lemma UpdateAt(pools: map<Key, KeyPool>, k: Key, p: KeyPool)
    ensures forall l :: PoolAt(pools[k := p], l) == if l == k then p else PoolAt(pools, l)
  {
    forall l ensures PoolAt(pools[k := p], l) == if l == k then p else PoolAt(pools, l) {
      assert l in pools[k := p] <==> l in pools || l == k;
    }
  }

  // ------------------------------------------ discarding keeps the core

  /** kept is idle without the instances in taken. */
  ghost predicate Parts(idle: seq<Entry>, kept: seq<Entry>, taken: seq<Inst>) {
    && multiset(Insts(idle)) == multiset(Insts(kept)) + multiset(taken)
    && |idle| == |kept| + |taken|
    && (forall e :: e in kept ==> e in idle)
    && (forall now :: InOrder(idle, now) ==> InOrder(kept, now))
  }

  lemma CutParts(cut: Cut, idle: seq<Entry>)
    ensures Parts(idle, Kept(cut, idle), Taken(cut, idle))
  {
    KeptAndTaken(cut, idle);
    KeptLength(cut, idle);
    KeptMembers(cut, idle);
    var positions := KeptIsFilter(cut, idle);
  }

  lemma WithoutInsts(idle: seq<Entry>, i: nat)
    requires i < |idle|
    ensures multiset(Insts(idle)) == multiset(Insts(Without(idle, i))) + multiset([idle[i].inst])
  {
    var front, rest := Insts(idle[..i]), Insts(idle[i + 1..]);
    assert Insts(idle) == front + [idle[i].inst] + rest;
    assert Insts(Without(idle, i)) == front + rest;
  }

  lemma WithoutParts(idle: seq<Entry>, i: nat)
    requires i < |idle|
    ensures Parts(idle, Without(idle, i), [idle[i].inst])
  {
    WithoutInsts(idle, i);
  }

  ghost function Discarded(s: Sys, k: Key, kept: seq<Entry>, taken: seq<Inst>): Sys {
    s.(m := Discard(s.m, k, kept), pending := s.pending + multiset(taken))
  }

  lemma InstOfEntry(idle: seq<Entry>, i: Inst)
    ensures i in multiset(Insts(idle)) <==> exists e :: e in idle && e.inst == i
  {
  }

  lemma DiscardKeepsPlaces(s: Sys, k: Key, kept: seq<Entry>, taken: seq<Inst>, i: Inst)
    requires forall e :: e in PoolAt(s.m.pools, k).idle ==> e.inst in s.home && s.home[e.inst] == k
    requires Parts(PoolAt(s.m.pools, k).idle, kept, taken)
    ensures Places(Discarded(s, k, kept, taken), i) == Places(s, i)
  {
    var idle := PoolAt(s.m.pools, k).idle;
    var s' := Discarded(s, k, kept, taken);
    InstOfEntry(idle, i);
    assert multiset(Insts(idle))[i] == multiset(Insts(kept))[i] + multiset(taken)[i];
    assert s'.pending[i] == s.pending[i] + multiset(taken)[i];
    if i in s.home {
      assert PoolAt(s'.m.pools, s.home[i]).idle == if s.home[i] == k then kept else PoolAt(s.m.pools, s.home[i]).idle;
    }
  }

  lemma DiscardKeepsConserved(s: Sys, k: Key, kept: seq<Entry>, taken: seq<Inst>)
    requires Conserved(s) && Parts(PoolAt(s.m.pools, k).idle, kept, taken)
    ensures Conserved(Discarded(s, k, kept, taken))
  {
    var s' := Discarded(s, k, kept, taken);
    PutAt(s.m.pools, k, KeyPool(kept, PoolAt(s.m.pools, k).active));
    forall i ensures Places(s', i) == Places(s, i) {
      DiscardKeepsPlaces(s, k, kept, taken, i);
    }
  }

  lemma DiscardKeepsAccounting(o: Options, s: Sys, k: Key, kept: seq<Entry>, taken: seq<Inst>)
    requires Accounting(o, s) && Parts(PoolAt(s.m.pools, k).idle, kept, taken)
    ensures Accounting(o, Discarded(s, k, kept, taken))
  {
    var p := PoolAt(s.m.pools, k);
    LivePut(s.m.pools, k, KeyPool(kept, p.active));
    PutAt(s.m.pools, k, KeyPool(kept, p.active));
  }

  lemma DiscardKeepsEntries(o: Options, s: Sys, k: Key, kept: seq<Entry>, taken: seq<Inst>)
    requires UsesBounded(o, s) && BrokenIsolated(s) && Ordered(s)
    requires Parts(PoolAt(s.m.pools, k).idle, kept, taken)
    ensures var s' := Discarded(s, k, kept, taken);
      UsesBounded(o, s') && BrokenIsolated(s') && Ordered(s')
  {
    PutAt(s.m.pools, k, KeyPool(kept, PoolAt(s.m.pools, k).active));
  }

  lemma DiscardKeepsCore(o: Options, s: Sys, k: Key, kept: seq<Entry>, taken: seq<Inst>)
    requires Core(o, s) && Parts(PoolAt(s.m.pools, k).idle, kept, taken)
    ensures Core(o, Discarded(s, k, kept, taken))
  {
    DiscardKeepsConserved(s, k, kept, taken);
    DiscardKeepsAccounting(o, s, k, kept, taken);
    DiscardKeepsEntries(o, s, k, kept, taken);
  }

  /** The system after a sweep: what it took awaits its close. */
  ghost function SweptSys(s: Sys, order: seq<Key>, cut: Cut): Sys {
    var (m, victims) := Sweep(s.m, order, cut);
    s.(m := m, pending := s.pending + multiset(victims))
  }

  lemma SweptOneMore(s: Sys, order: seq<Key>, cut: Cut)
    requires order != []
    ensures var n := |order| - 1;
      var mid := SweptSys(s, order[..n], cut);
      var idle := PoolAt(mid.m.pools, order[n]).idle;
      SweptSys(s, order, cut) == Discarded(mid, order[n], Kept(cut, idle), Taken(cut, idle))
  {
    var n := |order| - 1;
    var (m, victims) := Sweep(s.m, order[..n], cut);
    var taken := Taken(cut, PoolAt(m.pools, order[n]).idle);
    assert s.pending + multiset(victims + taken) == s.pending + multiset(victims) + multiset(taken);
  }

  lemma {:induction false} SweepKeepsCore(o: Options, s: Sys, order: seq<Key>, cut: Cut)
    requires Core(o, s)
    ensures Core(o, SweptSys(s, order, cut))
  {
    if order != [] {
      var n := |order| - 1;
      SweepKeepsCore(o, s, order[..n], cut);
      var mid := SweptSys(s, order[..n], cut);
      var idle := PoolAt(mid.m.pools, order[n]).idle;
      CutParts(cut, idle);
      DiscardKeepsCore(o, mid, order[n], Kept(cut, idle), Taken(cut, idle));
      SweptOneMore(s, order, cut);
    } else {
      assert s.pending + multiset([]) == s.pending;
    }
  }

  // ------------------------------------------------ each step keeps the core

  /** Nothing but t's phase differs. */
  ghost predicate Others(a: map<Thread, Phase>, b: map<Thread, Phase>, t: Thread) {
    forall u :: u != t ==> (u in a <==> u in b) && (u in a && u in b ==> a[u] == b[u])
  }

  /** Nothing but k's pool differs: it is now p. */
  ghost predicate Rewritten(pools: map<Key, KeyPool>, pools': map<Key, KeyPool>, k: Key, p: KeyPool) {
    && (forall l :: PoolAt(pools', l) == if l == k then p else PoolAt(pools, l))
    && Live(pools') == Live(pools) - Size(PoolAt(pools, k)) + Size(p)
  }

  lemma Rewrites(pools: map<Key, KeyPool>, k: Key, p: KeyPool)
    ensures Rewritten(pools, pools[k := p], k, p)
    ensures Rewritten(pools, Put(pools, k, p), k, p)
  {
    LivePut(pools, k, p);
    PutAt(pools, k, p);
    UpdateAt(pools, k, p);
  }

  lemma RewritesNothing(m: State, k: Key)
    ensures Rewritten(m.pools, m.pools, k, PoolAt(m.pools, k))
    ensures Rewritten(m.pools, GiveUp(m, k).pools, k, PoolAt(m.pools, k))
  {
    Rewrites(m.pools, k, PoolAt(m.pools, k));
  }

  function Occupancy(threads: map<Thread, Phase>, t: Thread, k: Key): int {
    if t in threads && Occupies(threads[t], k) then 1 else 0
  }

  function Holding(threads: map<Thread, Phase>, t: Thread, i: Inst): nat {
    if t in threads && threads[t].Leased? && threads[t].e.inst == i then 1 else 0
  }

  lemma MoveKeepsAccounting(o: Options, s: Sys, s': Sys, t: Thread, k: Key, p: KeyPool)
    requires Accounting(o, s)
    requires Others(s.threads, s'.threads, t) && Rewritten(s.m.pools, s'.m.pools, k, p)
    requires s'.m.total == s.m.total + Size(p) - Size(PoolAt(s.m.pools, k)) <= o.globalMax
    requires p.active == PoolAt(s.m.pools, k).active + Occupancy(s'.threads, t, k) - Occupancy(s.threads, t, k)
    requires forall l :: l != k ==> Occupancy(s'.threads, t, l) == Occupancy(s.threads, t, l)
    ensures Accounting(o, s')
  {
    forall l ensures PoolAt(s'.m.pools, l).active == |Occupants(s'.threads, l)| {
      OccupantsWithout(s.threads, t, l);
      OccupantsWithout(s'.threads, t, l);
      assert Occupants(s.threads - {t}, l) == Occupants(s'.threads - {t}, l);
      assert PoolAt(s.m.pools, l).active == |Occupants(s.threads, l)|;
      assert |Occupants(s'.threads, l)| - Occupancy(s'.threads, t, l)
          == |Occupants(s.threads, l)| - Occupancy(s.threads, t, l);
    }
  }

  ghost predicate HeldByOther(threads: map<Thread, Phase>, t: Thread, i: Inst) {
    exists u :: u != t && u in threads && threads[u].Leased? && threads[u].e.inst == i
  }

  lemma LeasedSplit(s: Sys, t: Thread, i: Inst)
    requires Conserved(s)
    ensures (if IsLeased(s.threads, i) then 1 else 0) ==
      Holding(s.threads, t, i) + if HeldByOther(s.threads, t, i) then 1 else 0
  {
  }

  /** What a move must balance: an instance leaves k's idle list, t's lease,
      the pending closes or the closes done exactly when it enters another. */
  ghost predicate Balanced(s: Sys, s': Sys, t: Thread, k: Key, p: KeyPool) {
    forall i {:trigger Holding(s'.threads, t, i)} ::
      multiset(Insts(p.idle))[i] + Holding(s'.threads, t, i) + s'.pending[i] + s'.closeCalls[i] ==
      multiset(Insts(PoolAt(s.m.pools, k).idle))[i] + Holding(s.threads, t, i) + s.pending[i] + s.closeCalls[i]
  }

  /** A rewritten pool changes idle counts only by its own list. */
  lemma MoveIdleCount(s: Sys, s': Sys, k: Key, p: KeyPool, i: Inst)
    requires Conserved(s) && s'.home == s.home && Rewritten(s.m.pools, s'.m.pools, k, p)
    requires forall e :: e in p.idle ==> e.inst in s.home && s.home[e.inst] == k
    ensures IdleCount(s', i) + multiset(Insts(PoolAt(s.m.pools, k).idle))[i] ==
      IdleCount(s, i) + multiset(Insts(p.idle))[i]
  {
    InstOfEntry(p.idle, i);
    InstOfEntry(PoolAt(s.m.pools, k).idle, i);
  }

  lemma MoveLeased(s: Sys, s': Sys, t: Thread, i: Inst)
    requires Others(s.threads, s'.threads, t)
    ensures HeldByOther(s'.threads, t, i) <==> HeldByOther(s.threads, t, i)
    ensures IsLeased(s'.threads, i) <==> Holding(s'.threads, t, i) == 1 || HeldByOther(s'.threads, t, i)
  {
  }

  lemma MoveKeepsPlaces(s: Sys, s': Sys, t: Thread, k: Key, p: KeyPool, i: Inst)
    requires Conserved(s) && s'.home == s.home
    requires Others(s.threads, s'.threads, t) && Rewritten(s.m.pools, s'.m.pools, k, p)
    requires forall e :: e in p.idle ==> e.inst in s.home && s.home[e.inst] == k
    requires Balanced(s, s', t, k, p)
    ensures Places(s', i) == Places(s, i)
    ensures Holding(s'.threads, t, i) == 1 ==> !HeldByOther(s'.threads, t, i)
  {
    LeasedSplit(s, t, i);
    MoveIdleCount(s, s', k, p, i);
    MoveLeased(s, s', t, i);
    assert Places(s, i) <= 1;
  }

  lemma MoveKeepsApart(s: Sys, s': Sys, t: Thread)
    requires Conserved(s) && Others(s.threads, s'.threads, t)
    requires forall i :: Holding(s'.threads, t, i) == 1 ==> !HeldByOther(s'.threads, t, i)
    ensures forall a, b :: a in s'.threads && b in s'.threads && s'.threads[a].Leased? && s'.threads[b].Leased? ==>
      s'.threads[a].e.inst == s'.threads[b].e.inst ==> a == b
  {
    forall a, b | a in s'.threads && b in s'.threads && s'.threads[a].Leased? && s'.threads[b].Leased?
                  && s'.threads[a].e.inst == s'.threads[b].e.inst
      ensures a == b
    {
      var i := s'.threads[a].e.inst;
      if a == t { assert Holding(s'.threads, t, i) == 1; }
      if b == t { assert Holding(s'.threads, t, i) == 1; }
    }
  }

  lemma MoveKeepsConserved(s: Sys, s': Sys, t: Thread, k: Key, p: KeyPool)
    requires Conserved(s) && s'.home == s.home
    requires Others(s.threads, s'.threads, t) && Rewritten(s.m.pools, s'.m.pools, k, p)
    requires forall e :: e in p.idle ==> e.inst in s.home && s.home[e.inst] == k
    requires t in s'.threads && s'.threads[t].Leased? ==>
      var l := s'.threads[t]; l.e.inst in s.home && s.home[l.e.inst] == l.key
    requires Balanced(s, s', t, k, p)
    ensures Conserved(s')
  {
    forall i ensures Places(s', i) == Places(s, i)
      && (Holding(s'.threads, t, i) == 1 ==> !HeldByOther(s'.threads, t, i))
    {
      MoveKeepsPlaces(s, s', t, k, p, i);
    }
    MoveKeepsApart(s, s', t);
  }

  /** Moves that lease nothing new and let no entry with a wrong count idle. */
  ghost predicate Quiet(s: Sys, s': Sys, t: Thread, k: Key, p: KeyPool) {
    && Others(s.threads, s'.threads, t) && Rewritten(s.m.pools, s'.m.pools, k, p)
    && s'.home == s.home && s'.leases == s.leases && s'.broken == s.broken && s'.clock == s.clock
    && (t in s'.threads && s'.threads[t].Leased? ==> t in s.threads && s'.threads[t] == s.threads[t])
  }

  lemma MoveKeepsUses(o: Options, s: Sys, s': Sys, t: Thread, k: Key, p: KeyPool)
    requires UsesBounded(o, s) && Quiet(s, s', t, k, p)
    requires forall e :: e in p.idle ==> LeaseCount(s, e.inst) == e.uses < o.maxUses
    ensures UsesBounded(o, s')
  {
  }

  lemma MoveKeepsBroken(s: Sys, s': Sys, t: Thread, k: Key, p: KeyPool)
    requires BrokenIsolated(s) && Quiet(s, s', t, k, p)
    requires forall e :: e in p.idle ==> e.inst !in s.broken
    ensures BrokenIsolated(s')
  {
  }

  lemma MoveKeepsOrder(s: Sys, s': Sys, t: Thread, k: Key, p: KeyPool)
    requires Ordered(s) && Quiet(s, s', t, k, p) && InOrder(p.idle, s.clock)
    ensures Ordered(s')
  {
  }

  lemma MoveKeepsEntries(o: Options, s: Sys, s': Sys, t: Thread, k: Key, p: KeyPool)
    requires UsesBounded(o, s) && BrokenIsolated(s) && Ordered(s)
    requires Quiet(s, s', t, k, p) && p.idle == PoolAt(s.m.pools, k).idle
    ensures UsesBounded(o, s') && BrokenIsolated(s') && Ordered(s')
  {
    MoveKeepsUses(o, s, s', t, k, p);
    MoveKeepsBroken(s, s', t, k, p);
    assert InOrder(p.idle, s.clock);
    MoveKeepsOrder(s, s', t, k, p);
  }

  lemma MoveKeepsCore(o: Options, s: Sys, s': Sys, t: Thread, k: Key, p: KeyPool)
    requires Core(o, s)
    requires Others(s.threads, s'.threads, t) && Rewritten(s.m.pools, s'.m.pools, k, p)
    requires s' == s.(m := s'.m, threads := s'.threads)
    requires p.idle == PoolAt(s.m.pools, k).idle
    requires t in s.threads ==> !s.threads[t].Leased?
    requires t in s'.threads ==> !s'.threads[t].Leased?
    requires s'.m.total == s.m.total + Size(p) - Size(PoolAt(s.m.pools, k)) <= o.globalMax
    requires p.active == PoolAt(s.m.pools, k).active + Occupancy(s'.threads, t, k) - Occupancy(s.threads, t, k)
    requires forall l :: l != k ==> Occupancy(s'.threads, t, l) == Occupancy(s.threads, t, l)
    ensures Core(o, s')
  {
    MoveKeepsAccounting(o, s, s', t, k, p);
    MoveKeepsConserved(s, s', t, k, p);
    MoveKeepsEntries(o, s, s', t, k, p);
  }

  lemma EvictKeepsCore(o: Options, s: Sys, t: Thread, v: Victim)
    requires Core(o, s) && Enabled(o, s, Try(t, Evict(v)))
    ensures Core(o, AfterTry(o, s, t, Evict(v)))
  {
    var key := s.threads[t].key;
    var touched := s.(m := s.m.(pools := s.m.pools[key := PoolAt(s.m.pools, key)]));
    Rewrites(s.m.pools, key, PoolAt(s.m.pools, key));
    MoveKeepsCore(o, s, touched, t, key, PoolAt(s.m.pools, key));
    var idle := s.m.pools[v.key].idle;
    assert PoolAt(touched.m.pools, v.key).idle == idle;
    WithoutParts(idle, v.idx);
    DiscardKeepsCore(o, touched, v.key, Without(idle, v.idx), [v.inst]);
    assert multiset([v.inst]) == multiset{v.inst};
  }

  lemma PopBalances(idle: seq<Entry>)
    requires idle != []
    ensures var n := |idle| - 1;
      forall i :: multiset(Insts(idle))[i] ==
        multiset(Insts(idle[..n]))[i] + if i == idle[n].inst then 1 else 0
  {
    var n := |idle| - 1;
    assert idle == idle[..n] + [idle[n]];
    InstsSnoc(idle[..n], idle[n]);
  }

  /** What is left of key's pool once its last idle entry is leased. */
  function Popped(pools: map<Key, KeyPool>, key: Key): KeyPool
    requires PoolAt(pools, key).idle != []
  {
    var p := PoolAt(pools, key);
    KeyPool(p.idle[..|p.idle| - 1], p.active + 1)
  }

  lemma ReuseBalances(o: Options, s: Sys, t: Thread, e: Entry)
    requires Enabled(o, s, Try(t, Reuse(e)))
    ensures Balanced(s, AfterTry(o, s, t, Reuse(e)), t, s.threads[t].key, Popped(s.m.pools, s.threads[t].key))
  {
    PopBalances(PoolAt(s.m.pools, s.threads[t].key).idle);
  }

  lemma ReuseKeepsConserved(o: Options, s: Sys, t: Thread, e: Entry)
    requires Conserved(s) && Enabled(o, s, Try(t, Reuse(e)))
    ensures Conserved(AfterTry(o, s, t, Reuse(e)))
  {
    var key := s.threads[t].key;
    var p := Popped(s.m.pools, key);
    Rewrites(s.m.pools, key, p);
    ReuseBalances(o, s, t, e);
    assert e in PoolAt(s.m.pools, key).idle && forall f :: f in p.idle ==> f in PoolAt(s.m.pools, key).idle;
    MoveKeepsConserved(s, AfterTry(o, s, t, Reuse(e)), t, key, p);
  }

  /** Once leased, the instance is in no idle slot and in no other lease. */
  lemma ReusedIsAlone(o: Options, s: Sys, t: Thread, e: Entry)
    requires Conserved(s) && Enabled(o, s, Try(t, Reuse(e)))
    ensures var s' := AfterTry(o, s, t, Reuse(e));
      && (forall k, f :: f in PoolAt(s'.m.pools, k).idle ==> f.inst != e.inst)
      && (forall u :: u in s'.threads && u != t && s'.threads[u].Leased? ==> s'.threads[u].e.inst != e.inst)
  {
    var s' := AfterTry(o, s, t, Reuse(e));
    ReuseKeepsConserved(o, s, t, e);
    assert s'.threads[t].Leased? && s'.threads[t].e.inst == e.inst;
    assert IsLeased(s'.threads, e.inst) && Places(s', e.inst) == 1;
    forall k, f | f in PoolAt(s'.m.pools, k).idle ensures f.inst != e.inst {
      InstOfEntry(PoolAt(s'.m.pools, k).idle, f.inst);
    }
  }

  lemma ReusedWasIdle(o: Options, s: Sys, t: Thread, e: Entry)
    requires Enabled(o, s, Try(t, Reuse(e)))
    ensures e in PoolAt(s.m.pools, s.threads[t].key).idle
    ensures forall k, f :: f in PoolAt(AfterTry(o, s, t, Reuse(e)).m.pools, k).idle ==> f in PoolAt(s.m.pools, k).idle
  {
  }

  lemma ReuseCounts(o: Options, s: Sys, t: Thread, e: Entry)
    requires Conserved(s) && UsesBounded(o, s) && Enabled(o, s, Try(t, Reuse(e)))
    ensures var s' := AfterTry(o, s, t, Reuse(e));
      && s'.leases.Keys == s'.home.Keys && e.uses < o.maxUses
      && forall i :: LeaseCount(s', i) == if i == e.inst then e.uses + 1 else LeaseCount(s, i)
  {
    ReusedWasIdle(o, s, t, e);
    assert e.inst in s.home;
  }

  lemma ReuseKeepsLeaseUses(o: Options, s: Sys, t: Thread, e: Entry)
    requires Conserved(s) && UsesBounded(o, s) && Enabled(o, s, Try(t, Reuse(e)))
    ensures var s' := AfterTry(o, s, t, Reuse(e));
      forall u :: u in s'.threads && s'.threads[u].Leased? ==>
        LeaseCount(s', s'.threads[u].e.inst) == s'.threads[u].e.uses + 1
  {
    ReusedIsAlone(o, s, t, e);
    ReuseCounts(o, s, t, e);
  }

  lemma ReuseKeepsUses(o: Options, s: Sys, t: Thread, e: Entry)
    requires Conserved(s) && UsesBounded(o, s) && Enabled(o, s, Try(t, Reuse(e)))
    ensures UsesBounded(o, AfterTry(o, s, t, Reuse(e)))
  {
    ReuseCounts(o, s, t, e);
    ReuseKeepsIdleUses(o, s, t, e);
    ReuseKeepsLeaseUses(o, s, t, e);
  }

  lemma ReuseKeepsIdleUses(o: Options, s: Sys, t: Thread, e: Entry)
    requires Conserved(s) && UsesBounded(o, s) && Enabled(o, s, Try(t, Reuse(e)))
    ensures var s' := AfterTry(o, s, t, Reuse(e));
      forall k, f :: f in PoolAt(s'.m.pools, k).idle ==> LeaseCount(s', f.inst) == f.uses < o.maxUses
  {
    ReusedIsAlone(o, s, t, e);
    ReusedWasIdle(o, s, t, e);
  }

  lemma ReuseKeepsBroken(o: Options, s: Sys, t: Thread, e: Entry)
    requires Conserved(s) && BrokenIsolated(s) && Enabled(o, s, Try(t, Reuse(e)))
    ensures BrokenIsolated(AfterTry(o, s, t, Reuse(e)))
  {
    ReusedWasIdle(o, s, t, e);
  }

  lemma ReuseKeepsOrder(o: Options, s: Sys, t: Thread, e: Entry)
    requires Ordered(s) && Enabled(o, s, Try(t, Reuse(e)))
    ensures Ordered(AfterTry(o, s, t, Reuse(e)))
  {
    var key := s.threads[t].key;
    UpdateAt(s.m.pools, key, Popped(s.m.pools, key));
    assert InOrder(PoolAt(s.m.pools, key).idle, s.clock);
    assert InOrder(Popped(s.m.pools, key).idle, s.clock);
    var s' := AfterTry(o, s, t, Reuse(e));
    forall k ensures InOrder(PoolAt(s'.m.pools, k).idle, s'.clock) {
      if k != key {
        assert PoolAt(s'.m.pools, k) == PoolAt(s.m.pools, k);
      }
    }
  }

  lemma ReuseKeepsAccounting(o: Options, s: Sys, t: Thread, e: Entry)
    requires Accounting(o, s) && Enabled(o, s, Try(t, Reuse(e)))
    ensures Accounting(o, AfterTry(o, s, t, Reuse(e)))
  {
    var key := s.threads[t].key;
    Rewrites(s.m.pools, key, Popped(s.m.pools, key));
    MoveKeepsAccounting(o, s, AfterTry(o, s, t, Reuse(e)), t, key, Popped(s.m.pools, key));
  }

  lemma ReuseKeepsCore(o: Options, s: Sys, t: Thread, e: Entry)
    requires Core(o, s) && Enabled(o, s, Try(t, Reuse(e)))
    ensures Core(o, AfterTry(o, s, t, Reuse(e)))
  {
    ReuseKeepsAccounting(o, s, t, e);
    ReuseKeepsConserved(o, s, t, e);
    ReuseKeepsUses(o, s, t, e);
    ReuseKeepsBroken(o, s, t, e);
    ReuseKeepsOrder(o, s, t, e);
  }

  lemma TryKeepsCore(o: Options, s: Sys, t: Thread, a: Attempt)
    requires Core(o, s) && Enabled(o, s, Try(t, a))
    ensures Core(o, AfterTry(o, s, t, a))
  {
    var s' := AfterTry(o, s, t, a);
    var key := s.threads[t].key;
    var p := PoolAt(s.m.pools, key);
    match a
    case Refused =>
      RewritesNothing(s.m, key);
      MoveKeepsCore(o, s, s', t, key, p);
    case Reuse(e) => ReuseKeepsCore(o, s, t, e);
    case Reserve =>
      Rewrites(s.m.pools, key, KeyPool(p.idle, p.active + 1));
      MoveKeepsCore(o, s, s', t, key, KeyPool(p.idle, p.active + 1));
    case Evict(v) => EvictKeepsCore(o, s, t, v);
    case Wait(_) =>
      Rewrites(s.m.pools, key, p);
      MoveKeepsCore(o, s, s', t, key, p);
  }

  /** The factory's new instance is unknown everywhere. */
  lemma NewIsNowhere(s: Sys, i: Inst)
    requires Conserved(s) && i !in s.home
    ensures forall k, e :: e in PoolAt(s.m.pools, k).idle ==> e.inst != i
    ensures forall u :: u in s.threads && s.threads[u].Leased? ==> s.threads[u].e.inst != i
    ensures s.pending[i] == 0 && s.closeCalls[i] == 0
  {
  }

  lemma MadeKeepsPlaces(o: Options, s: Sys, t: Thread, i: Inst, j: Inst)
    requires Conserved(s) && Enabled(o, s, Made(t, i))
    ensures Places(Apply(o, s, Made(t, i)), j) == Places(s, j) + if i == j then 1 else 0
  {
    var s' := Apply(o, s, Made(t, i));
    NewIsNowhere(s, i);
    if i == j {
      assert s'.threads[t].Leased? && s'.threads[t].e.inst == i;
      InstOfEntry(PoolAt(s.m.pools, s.threads[t].key).idle, i);
    } else {
      if u :| u in s.threads && s.threads[u].Leased? && s.threads[u].e.inst == j {
        assert s'.threads[u] == s.threads[u];
      }
      if u :| u in s'.threads && s'.threads[u].Leased? && s'.threads[u].e.inst == j {
        assert u != t && s'.threads[u] == s.threads[u];
      }
      assert IsLeased(s'.threads, j) <==> IsLeased(s.threads, j);
      assert IdleCount(s', j) == IdleCount(s, j);
    }
  }

  lemma MadeKeepsConserved(o: Options, s: Sys, t: Thread, i: Inst)
    requires Conserved(s) && Enabled(o, s, Made(t, i))
    ensures Conserved(Apply(o, s, Made(t, i)))
  {
    var s' := Apply(o, s, Made(t, i));
    NewIsNowhere(s, i);
    forall j ensures Places(s', j) == if j in s'.home then 1 else 0 {
      MadeKeepsPlaces(o, s, t, i, j);
    }
  }

  lemma MadeKeepsEntries(o: Options, s: Sys, t: Thread, i: Inst)
    requires UsesBounded(o, s) && BrokenIsolated(s) && Ordered(s)
    requires o.maxUses > 0 && Enabled(o, s, Made(t, i))
    requires forall k, e :: e in PoolAt(s.m.pools, k).idle ==> e.inst != i
    requires forall u :: u in s.threads && s.threads[u].Leased? ==> s.threads[u].e.inst != i
    ensures var s' := Apply(o, s, Made(t, i));
      UsesBounded(o, s') && BrokenIsolated(s') && Ordered(s')
  {
  }

  lemma MadeKeepsCore(o: Options, s: Sys, t: Thread, i: Inst)
    requires Core(o, s) && o.maxUses > 0 && Enabled(o, s, Made(t, i))
    ensures Core(o, Apply(o, s, Made(t, i)))
  {
    var key := s.threads[t].key;
    RewritesNothing(s.m, key);
    MoveKeepsAccounting(o, s, Apply(o, s, Made(t, i)), t, key, PoolAt(s.m.pools, key));
    NewIsNowhere(s, i);
    MadeKeepsConserved(o, s, t, i);
    MadeKeepsEntries(o, s, t, i);
  }

  lemma LeasedIsAlone(s: Sys, t: Thread)
    requires Conserved(s) && t in s.threads && s.threads[t].Leased?
    ensures var i := s.threads[t].e.inst;
      && (forall k, e :: e in PoolAt(s.m.pools, k).idle ==> e.inst != i)
      && (forall u :: u in s.threads && u != t && s.threads[u].Leased? ==> s.threads[u].e.inst != i)
      && s.pending[i] == 0 && s.closeCalls[i] == 0
  {
  }

  lemma CallKeepsBroken(o: Options, s: Sys, t: Thread, ok: bool)
    requires Conserved(s) && BrokenIsolated(s) && Enabled(o, s, Call(t, ok))
    ensures BrokenIsolated(Apply(o, s, Call(t, ok)))
  {
    LeasedIsAlone(s, t);
    var s' := Apply(o, s, Call(t, ok));
    forall u | u in s'.threads && s'.threads[u].Leased?
      ensures s'.threads[u].failed <==> s'.threads[u].e.inst in s'.broken
      ensures s'.threads[u].failed ==> s'.threads[u].called
    {
      assert u != t ==> s'.threads[u] == s.threads[u];
    }
  }

  lemma CallKeepsUses(o: Options, s: Sys, t: Thread, ok: bool)
    requires UsesBounded(o, s) && Ordered(s) && Enabled(o, s, Call(t, ok))
    ensures UsesBounded(o, Apply(o, s, Call(t, ok))) && Ordered(Apply(o, s, Call(t, ok)))
  {
  }

  lemma CallKeepsCore(o: Options, s: Sys, t: Thread, ok: bool)
    requires Core(o, s) && Enabled(o, s, Call(t, ok))
    ensures Core(o, Apply(o, s, Call(t, ok)))
  {
    var s' := Apply(o, s, Call(t, ok));
    var key := s.threads[t].key;
    RewritesNothing(s.m, key);
    MoveKeepsAccounting(o, s, s', t, key, PoolAt(s.m.pools, key));
    MoveKeepsConserved(s, s', t, key, PoolAt(s.m.pools, key));
    CallKeepsBroken(o, s, t, ok);
    CallKeepsUses(o, s, t, ok);
  }

  lemma PushBalances(idle: seq<Entry>, e: Entry)
    ensures forall i :: multiset(Insts(idle + [e]))[i] == multiset(Insts(idle))[i] + (if i == e.inst then 1 else 0)
    ensures forall f :: f in idle + [e] <==> f in idle || f == e
  {
    InstsSnoc(idle, e);
  }

  /** What a returned lease leaves under its key. */
  function Returned(o: Options, s: Sys, l: Phase, healthy: bool): KeyPool
    requires l.Leased?
  {
    var p := PoolAt(s.m.pools, l.key);
    if Retires(o, s.m, l.e, healthy) then KeyPool(p.idle, p.active - 1)
    else KeyPool(p.idle + [Entry(l.e.inst, l.e.uses + 1, s.clock)], p.active - 1)
  }

  lemma ReturnRewrites(o: Options, s: Sys, t: Thread, healthy: bool)
    requires Enabled(o, s, Return(t, healthy))
    ensures var s', l := Apply(o, s, Return(t, healthy)), s.threads[t];
      var p := Returned(o, s, l, healthy);
      && Rewritten(s.m.pools, s'.m.pools, l.key, p)
      && s'.m.total == s.m.total + Size(p) - Size(PoolAt(s.m.pools, l.key)) <= s.m.total
  {
    var l := s.threads[t];
    Rewrites(s.m.pools, l.key, Returned(o, s, l, healthy));
  }

  lemma ReturnKeepsAccounting(o: Options, s: Sys, t: Thread, healthy: bool)
    requires Accounting(o, s) && Enabled(o, s, Return(t, healthy))
    ensures Accounting(o, Apply(o, s, Return(t, healthy)))
  {
    var s', l := Apply(o, s, Return(t, healthy)), s.threads[t];
    ReturnRewrites(o, s, t, healthy);
    MoveKeepsAccounting(o, s, s', t, l.key, Returned(o, s, l, healthy));
  }

  lemma ReturnBalancesAt(o: Options, s: Sys, t: Thread, healthy: bool, i: Inst)
    requires Enabled(o, s, Return(t, healthy))
    ensures var s', l := Apply(o, s, Return(t, healthy)), s.threads[t];
      && Holding(s'.threads, t, i) == 0 && s'.closeCalls[i] == s.closeCalls[i]
      && multiset(Insts(Returned(o, s, l, healthy).idle))[i] + s'.pending[i] ==
         multiset(Insts(PoolAt(s.m.pools, l.key).idle))[i] + Holding(s.threads, t, i) + s.pending[i]
  {
    var l := s.threads[t];
    if !Retires(o, s.m, l.e, healthy) {
      PushBalances(PoolAt(s.m.pools, l.key).idle, Entry(l.e.inst, l.e.uses + 1, s.clock));
    }
  }

  lemma ReturnBalances(o: Options, s: Sys, t: Thread, healthy: bool)
    requires Enabled(o, s, Return(t, healthy))
    ensures Balanced(s, Apply(o, s, Return(t, healthy)), t, s.threads[t].key, Returned(o, s, s.threads[t], healthy))
  {
    var s' := Apply(o, s, Return(t, healthy));
    forall i: Inst ensures s'.closeCalls[i] == s.closeCalls[i] && Holding(s'.threads, t, i) == 0
      && multiset(Insts(Returned(o, s, s.threads[t], healthy).idle))[i] + s'.pending[i] ==
         multiset(Insts(PoolAt(s.m.pools, s.threads[t].key).idle))[i] + Holding(s.threads, t, i) + s.pending[i]
    {
      ReturnBalancesAt(o, s, t, healthy, i);
    }
  }

  lemma ReturnKeepsConserved(o: Options, s: Sys, t: Thread, healthy: bool)
    requires Conserved(s) && Enabled(o, s, Return(t, healthy))
    ensures Conserved(Apply(o, s, Return(t, healthy)))
  {
    var l := s.threads[t];
    var p := Returned(o, s, l, healthy);
    Rewrites(s.m.pools, l.key, p);
    ReturnBalances(o, s, t, healthy);
    forall e | e in p.idle ensures e.inst in s.home && s.home[e.inst] == l.key {
      if e !in PoolAt(s.m.pools, l.key).idle {
        assert e.inst == l.e.inst;
      }
    }
    MoveKeepsConserved(s, Apply(o, s, Return(t, healthy)), t, l.key, p);
  }

  lemma ReturnIsQuiet(o: Options, s: Sys, t: Thread, healthy: bool)
    requires Enabled(o, s, Return(t, healthy))
    ensures Quiet(s, Apply(o, s, Return(t, healthy)), t, s.threads[t].key, Returned(o, s, s.threads[t], healthy))
  {
    ReturnRewrites(o, s, t, healthy);
  }

  lemma ReturnKeepsUses(o: Options, s: Sys, t: Thread, healthy: bool)
    requires UsesBounded(o, s) && Enabled(o, s, Return(t, healthy))
    ensures UsesBounded(o, Apply(o, s, Return(t, healthy)))
  {
    ReturnIsQuiet(o, s, t, healthy);
    MoveKeepsUses(o, s, Apply(o, s, Return(t, healthy)), t, s.threads[t].key, Returned(o, s, s.threads[t], healthy));
  }

  lemma ReturnKeepsBroken(o: Options, s: Sys, t: Thread, healthy: bool)
    requires BrokenIsolated(s) && Enabled(o, s, Return(t, healthy))
    ensures BrokenIsolated(Apply(o, s, Return(t, healthy)))
  {
    ReturnIsQuiet(o, s, t, healthy);
    MoveKeepsBroken(s, Apply(o, s, Return(t, healthy)), t, s.threads[t].key, Returned(o, s, s.threads[t], healthy));
  }

  lemma ReturnKeepsOrder(o: Options, s: Sys, t: Thread, healthy: bool)
    requires Ordered(s) && Enabled(o, s, Return(t, healthy))
    ensures Ordered(Apply(o, s, Return(t, healthy)))
  {
    var l := s.threads[t];
    var p := Returned(o, s, l, healthy);
    ReturnIsQuiet(o, s, t, healthy);
    assert InOrder(PoolAt(s.m.pools, l.key).idle, s.clock) && InOrder(p.idle, s.clock);
    MoveKeepsOrder(s, Apply(o, s, Return(t, healthy)), t, l.key, p);
  }

  lemma ReturnKeepsCore(o: Options, s: Sys, t: Thread, healthy: bool)
    requires Core(o, s) && Enabled(o, s, Return(t, healthy))
    ensures Core(o, Apply(o, s, Return(t, healthy)))
  {
    ReturnKeepsAccounting(o, s, t, healthy);
    ReturnKeepsConserved(o, s, t, healthy);
    ReturnKeepsUses(o, s, t, healthy);
    ReturnKeepsBroken(o, s, t, healthy);
    ReturnKeepsOrder(o, s, t, healthy);
  }

  /** Steps that touch neither pools nor goroutines. */
  lemma SameKeepsConserved(s: Sys, s': Sys)
    requires Conserved(s)
    requires s'.m.pools == s.m.pools && s'.threads == s.threads && s'.home == s.home
    requires forall i :: s'.pending[i] + s'.closeCalls[i] == s.pending[i] + s.closeCalls[i]
    ensures Conserved(s')
  {
  }

  lemma SameKeepsEntries(o: Options, s: Sys, s': Sys)
    requires UsesBounded(o, s) && BrokenIsolated(s) && Ordered(s)
    requires s'.m.pools == s.m.pools && s'.threads == s.threads && s'.home == s.home
    requires s'.leases == s.leases && s'.broken == s.broken && s'.clock >= s.clock
    ensures UsesBounded(o, s') && BrokenIsolated(s') && Ordered(s')
  {
  }

  lemma SameKeepsCore(o: Options, s: Sys, s': Sys)
    requires Core(o, s)
    requires s'.m.pools == s.m.pools && s'.m.total == s.m.total && s'.threads == s.threads && s'.home == s.home
    requires s'.leases == s.leases && s'.broken == s.broken && s'.clock >= s.clock
    requires forall i :: s'.pending[i] + s'.closeCalls[i] == s.pending[i] + s.closeCalls[i]
    ensures Core(o, s')
  {
    SameKeepsConserved(s, s');
    SameKeepsEntries(o, s, s');
    assert Accounting(o, s');
  }

  lemma StepKeepsCore(o: Options, s: Sys, step: Step)
    requires Core(o, s) && o.maxUses > 0 && Enabled(o, s, step)
    ensures Core(o, Apply(o, s, step))
  {
    var s' := Apply(o, s, step);
    match step
    case Start(t, key, _) => PhaseKeepsCore(o, s, s', t, key);
    case Try(t, a) => TryKeepsCore(o, s, t, a);
    case Wake(t) => PhaseKeepsCore(o, s, s', t, s.threads[t].key);
    case WaitEnds(t) => PhaseKeepsCore(o, s, s', t, s.threads[t].key);
    case Abandon(t) => PhaseKeepsCore(o, s, s', t, s.threads[t].key);
    case Made(t, i) => MadeKeepsCore(o, s, t, i);
    case MakeFailed(t) => MakeFailedKeepsCore(o, s, t);
    case Call(t, ok) => CallKeepsCore(o, s, t, ok);
    case Return(t, healthy) => ReturnKeepsCore(o, s, t, healthy);
    case ReapIdle(order, now) => ReapKeepsCore(o, s, order, now);
    case CloseManager(order) => ShutKeepsCore(o, s, order);
    case CloseInstance(i) => SameKeepsCore(o, s, s');
    case Tick(now) => SameKeepsCore(o, s, s');
  }

  lemma PhaseKeepsCore(o: Options, s: Sys, s': Sys, t: Thread, key: Key)
    requires Core(o, s) && Others(s.threads, s'.threads, t)
    requires s' == s.(m := s'.m, threads := s'.threads)
    requires s'.m == s.m || s'.m == GiveUp(s.m, key)
    requires t in s.threads ==> !s.threads[t].Leased? && !s.threads[t].Creating?
    requires t in s'.threads ==> !s'.threads[t].Leased? && !s'.threads[t].Creating?
    ensures Core(o, s')
  {
    RewritesNothing(s.m, key);
    MoveKeepsCore(o, s, s', t, key, PoolAt(s.m.pools, key));
  }

  lemma MakeFailedKeepsCore(o: Options, s: Sys, t: Thread)
    requires Core(o, s) && Enabled(o, s, MakeFailed(t))
    ensures Core(o, Apply(o, s, MakeFailed(t)))
  {
    var key := s.threads[t].key;
    var p := PoolAt(s.m.pools, key);
    Rewrites(s.m.pools, key, KeyPool(p.idle, p.active - 1));
    MoveKeepsCore(o, s, Apply(o, s, MakeFailed(t)), t, key, KeyPool(p.idle, p.active - 1));
  }

  lemma ReapKeepsCore(o: Options, s: Sys, order: seq<Key>, now: int)
    requires Core(o, s)
    ensures var (m, victims) := Reap(o, s.m, order, now);
      Core(o, s.(m := m, pending := s.pending + multiset(victims)))
  {
    SweepKeepsCore(o, s, order, Expired(now, o.idleTTL));
    var (m, victims) := Sweep(s.m, order, Expired(now, o.idleTTL));
    var swept := s.(m := m, pending := s.pending + multiset(victims));
    SameKeepsCore(o, swept, swept.(m := Notify(m)));
  }

  lemma ShutKeepsCore(o: Options, s: Sys, order: seq<Key>)
    requires Core(o, s)
    ensures var (m, victims) := Shut(s.m, order);
      Core(o, s.(m := m, pending := s.pending + multiset(victims)))
  {
    if s.m.closed {
      assert s.pending + multiset([]) == s.pending;
    } else {
      var closing := s.(m := s.m.(closed := true));
      SameKeepsCore(o, s, closing);
      SweepKeepsCore(o, closing, order, Everything);
      var (m, victims) := Sweep(closing.m, order, Everything);
      var swept := closing.(m := m, pending := s.pending + multiset(victims));
      SameKeepsCore(o, swept, swept.(m := Notify(m)));
    }
  }

  // --------------------------------------------------- no lost wake-up

  lemma SomeIdleAt(pools: map<Key, KeyPool>)
    ensures SomeIdle(pools) <==> exists k :: PoolAt(pools, k).idle != []
  {
    if k :| k in pools && pools[k].idle != [] {
      assert PoolAt(pools, k).idle != [];
    }
    if k :| PoolAt(pools, k).idle != [] {
      assert k in pools;
    }
  }

  lemma GiveUpAt(m: State, k: Key)
    ensures forall l :: PoolAt(GiveUp(m, k).pools, l) == PoolAt(m.pools, l)
  {
  }

  /** Steps under which no pool and no total changes: parked goroutines stay as
      blocked as they were. */
  lemma QuietKeepsWakeUp(o: Options, s: Sys, s': Sys)
    requires NoLostWakeUp(o, s)
    requires s'.m.total == s.m.total && s'.m.changed == s.m.changed && s'.m.closed == s.m.closed
    requires forall k :: PoolAt(s'.m.pools, k) == PoolAt(s.m.pools, k)
    requires forall t :: t in s'.threads && s'.threads[t].Parked? ==> t in s.threads && s'.threads[t] == s.threads[t]
    ensures NoLostWakeUp(o, s')
  {
    SomeIdleAt(s.m.pools);
    SomeIdleAt(s'.m.pools);
    assert SomeIdle(s'.m.pools) ==> SomeIdle(s.m.pools);
  }

  /** A notifying step closes the channel everyone is parked on. */
  lemma NotifyKeepsWakeUp(o: Options, s: Sys, s': Sys)
    requires NoLostWakeUp(o, s) && s'.m.changed == s.m.changed + 1
    requires forall t :: t in s'.threads && s'.threads[t].Parked? ==> t in s.threads && s'.threads[t] == s.threads[t]
    ensures NoLostWakeUp(o, s')
  {
  }

  /** Eviction lowers the total without notifying.  That strands nobody: while
      something is idle, only its own limit can hold a goroutine back. */
  lemma EvictStrandsNobody(o: Options, s: Sys, t: Thread, v: Victim)
    requires NoLostWakeUp(o, s) && Enabled(o, s, Try(t, Evict(v)))
    ensures NoLostWakeUp(o, AfterTry(o, s, t, Evict(v)))
  {
  }

  lemma TryKeepsWakeUp(o: Options, s: Sys, t: Thread, a: Attempt)
    requires NoLostWakeUp(o, s) && Enabled(o, s, Try(t, a))
    ensures NoLostWakeUp(o, AfterTry(o, s, t, a))
  {
    if a.Evict? { EvictStrandsNobody(o, s, t, a.victim); }
  }

  lemma {:induction false} TakenNone(cut: Cut, idle: seq<Entry>)
    requires Taken(cut, idle) == []
    ensures Kept(cut, idle) == idle
  {
    if idle != [] {
      TakenNone(cut, idle[..|idle| - 1]);
    }
  }

  lemma {:induction false} SweepWithoutVictims(s: State, order: seq<Key>, cut: Cut)
    requires Sweep(s, order, cut).1 == []
    ensures forall k :: PoolAt(Sweep(s, order, cut).0.pools, k) == PoolAt(s.pools, k)
    ensures Sweep(s, order, cut).0.total == s.total
  {
    if order != [] {
      var n := |order| - 1;
      var (mid, victims) := Sweep(s, order[..n], cut);
      var p := PoolAt(mid.pools, order[n]);
      assert victims == [] && Taken(cut, p.idle) == [];
      SweepWithoutVictims(s, order[..n], cut);
      TakenNone(cut, p.idle);
      PutAt(mid.pools, order[n], p);
    }
  }

  lemma {:induction false} SweepFrame(s: State, order: seq<Key>, cut: Cut)
    ensures Sweep(s, order, cut).0.changed == s.changed && Sweep(s, order, cut).0.closed == s.closed
  {
    if order != [] {
      SweepFrame(s, order[..|order| - 1], cut);
    }
  }

  lemma StepKeepsWakeUp(o: Options, s: Sys, step: Step)
    requires NoLostWakeUp(o, s) && Enabled(o, s, step)
    ensures NoLostWakeUp(o, Apply(o, s, step))
  {
    var s' := Apply(o, s, step);
    match step
    case Try(t, a) => TryKeepsWakeUp(o, s, t, a);
    case Abandon(t) =>
      GiveUpAt(s.m, s.threads[t].key);
      QuietKeepsWakeUp(o, s, s');
    case MakeFailed(t) => NotifyKeepsWakeUp(o, s, s');
    case Return(t, _) => NotifyKeepsWakeUp(o, s, s');
    case ReapIdle(order, now) =>
      SweepFrame(s.m, order, Expired(now, o.idleTTL));
      if Sweep(s.m, order, Expired(now, o.idleTTL)).1 == [] {
        SweepWithoutVictims(s.m, order, Expired(now, o.idleTTL));
        QuietKeepsWakeUp(o, s, s');
      } else {
        NotifyKeepsWakeUp(o, s, s');
      }
    case CloseManager(order) =>
      if s.m.closed {
        QuietKeepsWakeUp(o, s, s');
      } else {
        SweepFrame(s.m.(closed := true), order, Everything);
        NotifyKeepsWakeUp(o, s, s');
      }
    case _ => QuietKeepsWakeUp(o, s, s');
  }

  // ------------------------------------------------------------ no leak

  lemma WaitingKept(s: Sys, s': Sys, t: Thread, k: Key)
    requires Waiting(s.threads, k) && Others(s.threads, s'.threads, t)
    requires t in s.threads && s.threads[t].key == k && !s.threads[t].Leased? && !s.threads[t].Creating? ==>
      t in s'.threads && s'.threads[t].key == k && !s'.threads[t].Leased? && !s'.threads[t].Creating?
    ensures Waiting(s'.threads, k)
  {
  }

  lemma TryKeepsNoLeak(o: Options, s: Sys, t: Thread, a: Attempt)
    requires NoLeak(s) && Enabled(o, s, Try(t, a)) && Conserved(s)
    requires forall k :: PoolAt(s.m.pools, k).active >= 0
    ensures NoLeak(AfterTry(o, s, t, a))
  {
    var s' := AfterTry(o, s, t, a);
    var key := s.threads[t].key;
    forall k | k in s'.m.pools && s'.m.pools[k] == EMPTY_POOL ensures Waiting(s'.threads, k) {
      if k == key {
        assert a.Evict? || a.Wait?;
        assert s'.threads[t].key == k && (s'.threads[t].Trying? || s'.threads[t].Parked?);
      } else {
        assert k in s.m.pools && s.m.pools[k] == EMPTY_POOL;
        WaitingKept(s, s', t, k);
      }
    }
  }

  lemma ReapKeepsNoLeak(s: Sys, order: seq<Key>, cut: Cut, s': Sys)
    requires NoLeak(s) || cut.Everything?
    requires Lists(order, s.m.pools.Keys)
    requires s'.m.pools == Sweep(s.m, order, cut).0.pools
    requires s'.m.closed ==> s.m.closed || cut.Everything?
    requires s'.m.closed && !cut.Everything? ==> s.m.closed
    ensures NoLeak(s')
  {
    SweepMeaning(s.m, order, cut);
    forall k | k in s'.m.pools
      ensures s'.m.pools[k] != EMPTY_POOL && (s'.m.closed ==> s'.m.pools[k].idle == [])
    {
      assert k !in order ==> Same(s.m.pools, s'.m.pools, k);
      assert Swept(s.m.pools, s'.m.pools, k, cut);
      if cut.Everything? {
        KeptNothing(PoolAt(s.m.pools, k).idle);
      }
    }
  }

  ghost predicate IsWaiting(ph: Phase) {
    ph.Trying? || ph.Parked? || ph.GivingUp?
  }

  /** Steps that leave every other pool alone and store no empty one. */
  lemma MoveKeepsNoLeak(s: Sys, s': Sys, t: Thread, key: Key)
    requires NoLeak(s) && Others(s.threads, s'.threads, t) && s'.m.closed == s.m.closed
    requires forall k :: k in s'.m.pools && k != key ==> k in s.m.pools && s'.m.pools[k] == s.m.pools[k]
    requires key in s'.m.pools ==>
      (s'.m.pools[key] != EMPTY_POOL || Waiting(s'.threads, key))
      && (s.m.closed ==> s'.m.pools[key].idle == [] && s'.m.pools[key].active != 0)
    requires t in s.threads && IsWaiting(s.threads[t]) && s.threads[t].key != key ==>
      t in s'.threads && s'.threads[t].key == s.threads[t].key && IsWaiting(s'.threads[t])
    ensures NoLeak(s')
  {
  }

  lemma PhaseKeepsNoLeak(s: Sys, s': Sys, t: Thread)
    requires NoLeak(s) && s'.m == s.m && Others(s.threads, s'.threads, t)
    requires t in s.threads && IsWaiting(s.threads[t]) ==>
      t in s'.threads && s'.threads[t].key == s.threads[t].key && IsWaiting(s'.threads[t])
    ensures NoLeak(s')
  {
  }

  lemma ReturnKeepsNoLeak(o: Options, s: Sys, t: Thread, healthy: bool)
    requires NoLeak(s) && Enabled(o, s, Return(t, healthy))
    ensures NoLeak(Apply(o, s, Return(t, healthy)))
  {
    MoveKeepsNoLeak(s, Apply(o, s, Return(t, healthy)), t, s.threads[t].key);
  }

  lemma MakeFailedKeepsNoLeak(o: Options, s: Sys, t: Thread)
    requires NoLeak(s) && Enabled(o, s, MakeFailed(t))
    ensures NoLeak(Apply(o, s, MakeFailed(t)))
  {
    MoveKeepsNoLeak(s, Apply(o, s, MakeFailed(t)), t, s.threads[t].key);
  }

  lemma AbandonKeepsNoLeak(o: Options, s: Sys, t: Thread)
    requires NoLeak(s) && Enabled(o, s, Abandon(t))
    ensures NoLeak(Apply(o, s, Abandon(t)))
  {
    MoveKeepsNoLeak(s, Apply(o, s, Abandon(t)), t, s.threads[t].key);
  }

  lemma PhasesKeepNoLeak(o: Options, s: Sys, step: Step)
    requires NoLeak(s) && Enabled(o, s, step)
    requires step.Start? || step.Wake? || step.WaitEnds? || step.Made? || step.Call?
    ensures NoLeak(Apply(o, s, step))
  {
    PhaseKeepsNoLeak(s, Apply(o, s, step), step.t);
  }

  lemma ReapStepKeepsNoLeak(o: Options, s: Sys, order: seq<Key>, now: int)
    requires NoLeak(s) && Enabled(o, s, ReapIdle(order, now))
    ensures NoLeak(Apply(o, s, ReapIdle(order, now)))
  {
    var cut := Expired(now, o.idleTTL);
    SweepFrame(s.m, order, cut);
    var swept := s.(m := Sweep(s.m, order, cut).0);
    ReapKeepsNoLeak(s, order, cut, swept);
    var s' := Apply(o, s, ReapIdle(order, now));
    assert s'.m.pools == swept.m.pools && s'.m.closed == swept.m.closed && s'.threads == s.threads;
  }

  lemma CloseStepKeepsNoLeak(o: Options, s: Sys, order: seq<Key>)
    requires NoLeak(s) && Enabled(o, s, CloseManager(order))
    ensures NoLeak(Apply(o, s, CloseManager(order)))
  {
    if !s.m.closed {
      var closing := s.(m := s.m.(closed := true));
      var swept := s.(m := Sweep(closing.m, order, Everything).0);
      ReapKeepsNoLeak(closing, order, Everything, swept);
      SweepFrame(closing.m, order, Everything);
    }
  }

  lemma StepKeepsNoLeak(o: Options, s: Sys, step: Step)
    requires Core(o, s) && NoLeak(s) && Enabled(o, s, step)
    ensures NoLeak(Apply(o, s, step))
  {
    match step
    case Try(t, a) => TryKeepsNoLeak(o, s, t, a);
    case ReapIdle(order, now) => ReapStepKeepsNoLeak(o, s, order, now);
    case CloseManager(order) => CloseStepKeepsNoLeak(o, s, order);
    case CloseInstance(_) =>
    case Tick(_) =>
    case Abandon(t) => AbandonKeepsNoLeak(o, s, t);
    case MakeFailed(t) => MakeFailedKeepsNoLeak(o, s, t);
    case Return(t, healthy) => ReturnKeepsNoLeak(o, s, t, healthy);
    case _ => PhasesKeepNoLeak(o, s, step);
  }

  // -------------------------------------------------------- the theorems

  lemma StepKeepsInv(o: Options, s: Sys, step: Step)
    requires Inv(o, s) && o.maxUses > 0 && Enabled(o, s, step)
    ensures Inv(o, Apply(o, s, step))
  {
    StepKeepsCore(o, s, step);
    StepKeepsWakeUp(o, s, step);
    StepKeepsNoLeak(o, s, step);
  }

  lemma StartInv(o: Options)
    requires o.globalMax > 0
    ensures Inv(o, START)
  {
  }

  /** Every state of every run keeps every invariant. */
  lemma {:induction false} RunKeepsInv(o: Options, run: seq<Sys>, n: nat)
    requires IsRun(o, run) && n < |run| && o.globalMax > 0 && o.maxUses > 0
    ensures Inv(o, run[n])
  {
    if n == 0 {
      StartInv(o);
    } else {
      RunKeepsInv(o, run, n - 1);
      assert StepAt(o, run, n - 1);
      var step :| Enabled(o, run[n - 1], step) && run[n] == Apply(o, run[n - 1], step);
      StepKeepsInv(o, run[n - 1], step);
    }
  }

  /** A goroutine parked on the open channel would find nothing: whatever pass
      it could make under the lock now would send it back to waiting. */
  lemma ParkedIsBlocked(o: Options, run: seq<Sys>, n: nat, t: Thread, a: Attempt)
    requires IsRun(o, run) && n < |run| && o.globalMax > 0 && o.maxUses > 0
    requires t in run[n].threads && run[n].threads[t].Parked? && run[n].threads[t].ch >= run[n].m.changed
    requires Allowed(o, run[n].m, run[n].threads[t].key, run[n].threads[t].limit, a)
    ensures a == Wait(run[n].m.changed)
  {
    RunKeepsInv(o, run, n);
    assert NoLostWakeUp(o, run[n]);
  }

  ghost predicate LimitsPositive(threads: map<Thread, Phase>) {
    forall t :: t in threads && (threads[t].Trying? || threads[t].Parked?) ==> threads[t].limit >= 1
  }

  lemma StepKeepsLimits(o: Options, s: Sys, step: Step)
    requires Enabled(o, s, step) && LimitsPositive(s.threads)
    ensures LimitsPositive(Apply(o, s, step).threads)
  {
  }

  lemma {:induction false} RunKeepsLimits(o: Options, run: seq<Sys>, n: nat)
    requires IsRun(o, run) && n < |run|
    ensures LimitsPositive(run[n].threads)
  {
    if n > 0 {
      RunKeepsLimits(o, run, n - 1);
      assert StepAt(o, run, n - 1);
      var step :| Enabled(o, run[n - 1], step) && run[n] == Apply(o, run[n - 1], step);
      StepKeepsLimits(o, run[n - 1], step);
    }
  }

  /** Whatever limits callers pass, zero and negative ones included, a key without
      live instances waits for nothing but the cap: every place is taken, and by
      leases and creations of other keys. */
  lemma UnusedKeyWaitsForCap(o: Options, run: seq<Sys>, n: nat, t: Thread)
    requires IsRun(o, run) && n < |run| && o.globalMax > 0 && o.maxUses > 0
    requires t in run[n].threads && run[n].threads[t].Parked? && run[n].threads[t].ch >= run[n].m.changed
    requires Occupants(run[n].threads, run[n].threads[t].key) == {}
    ensures run[n].m.total == o.globalMax && forall k :: PoolAt(run[n].m.pools, k).idle == []
  {
    RunKeepsInv(o, run, n);
    RunKeepsLimits(o, run, n);
    var s := run[n];
    assert Accounting(o, s) && NoLostWakeUp(o, s);
    assert PoolAt(s.m.pools, s.threads[t].key).active == 0;
  }

  /** Once the manager is closed and every lease and creation is over, nothing
      is accounted any more; when the pending closes have run too, every
      instance ever made has been closed exactly once. */
  lemma ClosedDrains(o: Options, run: seq<Sys>, n: nat)
    requires IsRun(o, run) && n < |run| && o.globalMax > 0 && o.maxUses > 0
    requires run[n].m.closed && forall k :: Occupants(run[n].threads, k) == {}
    ensures run[n].m.pools == map[] && run[n].m.total == 0
    ensures run[n].pending == multiset{} ==>
      forall i :: run[n].closeCalls[i] == if i in run[n].home then 1 else 0
  {
    RunKeepsInv(o, run, n);
    var s := run[n];
    forall k ensures k !in s.m.pools {
      assert PoolAt(s.m.pools, k).active == |Occupants(s.threads, k)| == 0;
    }
    assert s.m.pools == map[];
    forall t | t in s.threads ensures !s.threads[t].Leased? {
      assert t !in Occupants(s.threads, s.threads[t].key);
    }
    assert forall i :: Places(s, i) == s.pending[i] + s.closeCalls[i];
  }

  /** Close runs at most once on an instance, and never while it is leased. */
  lemma ClosedAtMostOnce(o: Options, run: seq<Sys>, n: nat, i: Inst)
    requires IsRun(o, run) && n < |run| && o.globalMax > 0 && o.maxUses > 0
    ensures run[n].closeCalls[i] <= 1
    ensures IsLeased(run[n].threads, i) ==> run[n].closeCalls[i] == 0 && run[n].pending[i] == 0
    ensures LeaseCount(run[n], i) <= o.maxUses
  {
    RunKeepsInv(o, run, n);
    assert Places(run[n], i) <= 1;
  }

  /** The counters tell the truth: total is the sum over all keys of active
      plus idle, within the cap, and a key's active count is its leases and
      creations under way. */
  lemma CountersAreTrue(o: Options, run: seq<Sys>, n: nat, k: Key)
    requires IsRun(o, run) && n < |run| && o.globalMax > 0 && o.maxUses > 0
    ensures run[n].m.total == Live(run[n].m.pools) <= o.globalMax
    ensures PoolAt(run[n].m.pools, k).active == |Occupants(run[n].threads, k)|
  {
    RunKeepsInv(o, run, n);
  }

  /** The goroutines whose factory call is running. */
  ghost function Creators(threads: map<Thread, Phase>): set<Thread> {
    set t | t in threads && threads[t].Creating?
  }

  /** Instances made and factory calls running, against accounted slots and
      instances taken out: each side counts every slot ever filled once. */
  ghost predicate BooksBalance(s: Sys) {
    |s.home| + |Creators(s.threads)| == s.m.total + |s.pending| + |s.closeCalls|
  }

  lemma CreatorsWithout(threads: map<Thread, Phase>, t: Thread)
    ensures |Creators(threads - {t})| == |Creators(threads)| - if t in threads && threads[t].Creating? then 1 else 0
  {
    assert Creators(threads - {t}) == Creators(threads) - {t};
  }

  lemma CreatorsWith(threads: map<Thread, Phase>, t: Thread, ph: Phase)
    ensures |Creators(threads[t := ph])| ==
      |Creators(threads)| - (if t in threads && threads[t].Creating? then 1 else 0) + if ph.Creating? then 1 else 0
    ensures |Creators(threads - {t})| == |Creators(threads)| - if t in threads && threads[t].Creating? then 1 else 0
  {
    CreatorsWithout(threads, t);
    CreatorsWithout(threads[t := ph], t);
    assert threads[t := ph] - {t} == threads - {t};
  }

  lemma SweepBalances(s: State, order: seq<Key>, cut: Cut)
    requires forall i, j :: 0 <= i < j < |order| ==> order[i] != order[j]
    ensures var (m, victims) := Sweep(s, order, cut);
      m.total == s.total - |multiset(victims)|
  {
    SweepMeaning(s, order, cut);
    assert |multiset(Sweep(s, order, cut).1)| == |Sweep(s, order, cut).1|;
  }

  lemma TryKeepsBooks(o: Options, s: Sys, t: Thread, a: Attempt)
    requires BooksBalance(s) && Enabled(o, s, Try(t, a))
    ensures BooksBalance(AfterTry(o, s, t, a))
  {
    var s' := AfterTry(o, s, t, a);
    CreatorsWith(s.threads, t, if t in s'.threads then s'.threads[t] else s.threads[t]);
    if a.Evict? {
      assert |s.pending + multiset{a.victim.inst}| == |s.pending| + 1;
    }
  }

  lemma StepKeepsBooks(o: Options, s: Sys, step: Step)
    requires BooksBalance(s) && Enabled(o, s, step)
    ensures BooksBalance(Apply(o, s, step))
  {
    var s' := Apply(o, s, step);
    match step
    case Start(t, key, raw) => CreatorsWith(s.threads, t, s'.threads[t]);
    case Try(t, a) => TryKeepsBooks(o, s, t, a);
    case Wake(t) => CreatorsWith(s.threads, t, s'.threads[t]);
    case WaitEnds(t) => CreatorsWith(s.threads, t, s'.threads[t]);
    case Abandon(t) => CreatorsWith(s.threads, t, s.threads[t]);
    case Made(t, i) =>
      CreatorsWith(s.threads, t, s'.threads[t]);
      assert |s.home[i := s.threads[t].key]| == |s.home| + 1;
    case MakeFailed(t) => CreatorsWith(s.threads, t, s.threads[t]);
    case Call(t, _) => CreatorsWith(s.threads, t, s'.threads[t]);
    case Return(t, healthy) =>
      CreatorsWith(s.threads, t, s.threads[t]);
      assert |s.pending + multiset{s.threads[t].e.inst}| == |s.pending| + 1;
    case ReapIdle(order, now) => SweepBalances(s.m, order, Expired(now, o.idleTTL));
    case CloseManager(order) =>
      if !s.m.closed { SweepBalances(s.m.(closed := true), order, Everything); }
    case CloseInstance(i) =>
      assert |s.pending - multiset{i}| == |s.pending| - 1;
      assert |s.closeCalls + multiset{i}| == |s.closeCalls| + 1;
    case Tick(_) =>
  }

  lemma {:induction false} BooksAlwaysBalance(o: Options, run: seq<Sys>, n: nat)
    requires IsRun(o, run) && n < |run|
    ensures BooksBalance(run[n])
  {
    if n > 0 {
      BooksAlwaysBalance(o, run, n - 1);
      assert StepAt(o, run, n - 1);
      var step :| Enabled(o, run[n - 1], step) && run[n] == Apply(o, run[n - 1], step);
      StepKeepsBooks(o, run[n - 1], step);
    }
  }

  /** The cap bounds what is accounted, not what exists: the instances made and
      not yet closed exceed GlobalMax by at most those awaiting their close. */
  lemma UnclosedInstances(o: Options, run: seq<Sys>, n: nat)
    requires IsRun(o, run) && n < |run| && o.globalMax > 0 && o.maxUses > 0
    ensures |run[n].home| - |run[n].closeCalls| == run[n].m.total - |Creators(run[n].threads)| + |run[n].pending|
    ensures |run[n].home| - |run[n].closeCalls| <= o.globalMax + |run[n].pending|
    ensures |run[n].home| - |run[n].closeCalls| <= o.globalMax <==>
      |run[n].pending| <= o.globalMax - run[n].m.total + |Creators(run[n].threads)|
  {
    BooksAlwaysBalance(o, run, n);
    RunKeepsInv(o, run, n);
  }

  lemma Extended(o: Options, run: seq<Sys>, step: Step) returns (longer: seq<Sys>)
    requires IsRun(o, run) && Enabled(o, run[|run| - 1], step)
    ensures IsRun(o, longer) && longer[|longer| - 1] == Apply(o, run[|run| - 1], step)
  {
    var last := Apply(o, run[|run| - 1], step);
    longer := run + [last];
    forall i | 0 <= i < |longer| - 1 ensures StepAt(o, longer, i) {
      if i < |run| - 1 {
        assert StepAt(o, run, i);
      } else {
        assert Enabled(o, longer[i], step) && longer[i + 1] == Apply(o, longer[i], step);
      }
    }
  }

  /** A goroutine makes, uses and returns the instance of a. */
  lemma RunToIdle(o: Options, a: Key) returns (run: seq<Sys>)
    requires o.globalMax > 0 && o.maxUses > 1
    ensures IsRun(o, run)
    ensures var s := run[|run| - 1];
      s.m == State(map[a := KeyPool([Entry(0, 1, 0)], 0)], 1, 1, false)
      && s.threads == map[] && s.home == map[0 := a] && s.pending == multiset{} == s.closeCalls
  {
    run := Extended(o, [START], Start(0, a, 1));
    run := Extended(o, run, Try(0, Reserve));
    run := Extended(o, run, Made(0, 0));
    assert run[|run| - 1].threads == map[0 := Leased(a, Entry(0, 0, 0), false, false)];
    run := Extended(o, run, Return(0, true));
    assert [] + [Entry(0, 1, 0)] == [Entry(0, 1, 0)];
    assert run[|run| - 1].m.pools == map[a := KeyPool([Entry(0, 1, 0)], 0)];
    assert run[|run| - 1].threads == map[];
  }

  /** It does happen: with a cap of one, an eviction makes room for a second
      instance while the first still awaits its close. */
  lemma CapIsOvershot(o: Options, a: Key, b: Key) returns (run: seq<Sys>)
    requires o.globalMax == 1 && o.maxUses > 1 && a != b
    ensures IsRun(o, run) && |run[|run| - 1].home| - |run[|run| - 1].closeCalls| > o.globalMax
  {
    run := RunToIdle(o, a);
    run := Extended(o, run, Start(1, b, 1));
    assert run[|run| - 1].m.pools[a].idle != [] && SomeIdle(run[|run| - 1].m.pools);
    run := Extended(o, run, Try(1, Evict(Victim(a, 0, 0))));
    assert run[|run| - 1].m.pools == map[b := EMPTY_POOL] && run[|run| - 1].m.total == 0;
    run := Extended(o, run, Try(1, Reserve));
    run := Extended(o, run, Made(1, 1));
    assert run[|run| - 1].home == map[0 := a, 1 := b];
    assert |map[0 := a, 1 := b]| == |map[0 := a]| + 1;
  }

  /** An instance is leased to one goroutine at a time, and only ever under the
      key it was made for. */
  lemma LeasedAloneUnderItsKey(o: Options, run: seq<Sys>, n: nat, t: Thread, u: Thread)
    requires IsRun(o, run) && n < |run| && o.globalMax > 0 && o.maxUses > 0
    requires t in run[n].threads && run[n].threads[t].Leased?
    requires u in run[n].threads && run[n].threads[u].Leased?
    requires run[n].threads[t].e.inst == run[n].threads[u].e.inst
    ensures t == u
    ensures var i := run[n].threads[t].e.inst;
      i in run[n].home && run[n].home[i] == run[n].threads[t].key
  {
    RunKeepsInv(o, run, n);
  }

  /** No instance is ever called again after a call on it failed. */
  lemma NoCallAfterFailure(o: Options, run: seq<Sys>, n: nat, t: Thread, ok: bool)
    requires IsRun(o, run) && n < |run| && o.globalMax > 0 && o.maxUses > 0
    requires Enabled(o, run[n], Call(t, ok))
    ensures run[n].threads[t].e.inst !in run[n].broken
  {
    RunKeepsInv(o, run, n);
  }

  /** Reuse takes the key's most recently used instance; eviction takes the
      front entry of its list, and nothing idle anywhere was used before it. */
  lemma ReuseNewestEvictOldest(o: Options, run: seq<Sys>, n: nat, t: Thread, a: Attempt)
    requires IsRun(o, run) && n < |run| && o.globalMax > 0 && o.maxUses > 0
    requires Enabled(o, run[n], Try(t, a))
    ensures a.Reuse? ==> forall e :: e in PoolAt(run[n].m.pools, run[n].threads[t].key).idle ==>
      e.lastUsed <= a.e.lastUsed
    ensures a.Evict? ==> a.victim.idx == 0 && forall k, e :: e in PoolAt(run[n].m.pools, k).idle ==>
      run[n].m.pools[a.victim.key].idle[0].lastUsed <= e.lastUsed
  {
    RunKeepsInv(o, run, n);
    OrderedPicks(o, run[n], run[n].threads[t].key, run[n].threads[t].limit, a);
  }

  lemma OrderedPicks(o: Options, s: Sys, key: Key, limit: int, a: Attempt)
    requires Ordered(s) && Allowed(o, s.m, key, limit, a)
    ensures a.Reuse? ==> forall e :: e in PoolAt(s.m.pools, key).idle ==> e.lastUsed <= a.e.lastUsed
    ensures a.Evict? ==> a.victim.idx == 0 && forall k, e :: e in PoolAt(s.m.pools, k).idle ==>
      s.m.pools[a.victim.key].idle[0].lastUsed <= e.lastUsed
  {
    if a.Reuse? {
      assert InOrder(PoolAt(s.m.pools, key).idle, s.clock);
    }
    if a.Evict? {
      var idle := s.m.pools[a.victim.key].idle;
      assert InOrder(PoolAt(s.m.pools, a.victim.key).idle, s.clock);
      assert idle[0].lastUsed <= idle[a.victim.idx].lastUsed;
      forall k, e | e in PoolAt(s.m.pools, k).idle ensures idle[a.victim.idx].lastUsed <= e.lastUsed {
        var i :| 0 <= i < |PoolAt(s.m.pools, k).idle| && PoolAt(s.m.pools, k).idle[i] == e;
        assert s.m.pools[k].idle[i] == e;
      }
    }
  }

  /** On an ordered list what has expired is a prefix. */
  lemma {:induction false} ExpiredPrefix(idle: seq<Entry>, clock: int, cut: Cut) returns (n: nat)
    requires InOrder(idle, clock) && cut.Expired?
    ensures n <= |idle|
    ensures Kept(cut, idle) == idle[n..] && Taken(cut, idle) == Insts(idle[..n])
  {
    if idle == [] {
      n := 0;
    } else {
      var m := |idle| - 1;
      n := ExpiredPrefix(idle[..m], clock, cut);
      if cut.Takes(idle[m]) {
        AllTaken(cut, idle[..m]);
        assert Kept(cut, idle[..m]) == [] && n == m;
        n := |idle|;
        assert idle[..n] == idle[..m] + [idle[m]];
        InstsSnoc(idle[..m], idle[m]);
      } else {
        assert idle[n..] == idle[..m][n..] + [idle[m]];
        assert idle[..m][..n] == idle[..n];
      }
    }
  }

  lemma {:induction false} AllTaken(cut: Cut, idle: seq<Entry>)
    requires forall i :: 0 <= i < |idle| ==> cut.Takes(idle[i])
    ensures Kept(cut, idle) == []
  {
    if idle != [] {
      AllTaken(cut, idle[..|idle| - 1]);
    }
  }

  /** In every state of every run, the reaper takes exactly a prefix of each idle
      list: its oldest entries. */
  lemma ReapTakesPrefix(o: Options, run: seq<Sys>, i: nat, k: Key, now: int) returns (n: nat)
    requires IsRun(o, run) && i < |run| && o.globalMax > 0 && o.maxUses > 0
    ensures var idle, cut := PoolAt(run[i].m.pools, k).idle, Expired(now, o.idleTTL);
      n <= |idle| && Kept(cut, idle) == idle[n..] && Taken(cut, idle) == Insts(idle[..n])
  {
    RunKeepsInv(o, run, i);
    n := ExpiredPrefix(PoolAt(run[i].m.pools, k).idle, run[i].clock, Expired(now, o.idleTTL));
  }

  /** Every Acquire of k that is still trying uses a limit of at most `limit`. */
  ghost predicate LimitedBy(s: Sys, k: Key, limit: int) {
    forall t :: t in s.threads && s.threads[t].Trying? && s.threads[t].key == k ==> s.threads[t].limit <= limit
  }

  lemma {:induction false} SweepShrinks(s: State, order: seq<Key>, cut: Cut, k: Key)
    ensures Size(PoolAt(Sweep(s, order, cut).0.pools, k)) <= Size(PoolAt(s.pools, k))
  {
    if order != [] {
      var n := |order| - 1;
      SweepShrinks(s, order[..n], cut, k);
      var mid := Sweep(s, order[..n], cut).0;
      var p := PoolAt(mid.pools, order[n]);
      PutAt(mid.pools, order[n], KeyPool(Kept(cut, p.idle), p.active));
    }
  }

  lemma StepKeepsLimit(o: Options, s: Sys, step: Step, k: Key, limit: int)
    requires Enabled(o, s, step) && LimitedBy(s, k, limit)
    requires Size(PoolAt(s.m.pools, k)) <= limit
    ensures Size(PoolAt(Apply(o, s, step).m.pools, k)) <= limit
  {
    match step
    case ReapIdle(order, now) => SweepShrinks(s.m, order, Expired(now, o.idleTTL), k);
    case CloseManager(order) => SweepShrinks(s.m.(closed := true), order, Everything, k);
    case Abandon(t) => GiveUpAt(s.m, s.threads[t].key);
    case Try(t, a) => TryKeepsLimit(o, s, t, a, k, limit);
    case Return(t, healthy) => RewriteKeepsSize(s.m.pools, s.threads[t].key, Returned(o, s, s.threads[t], healthy), k);
    case MakeFailed(t) =>
      var p := PoolAt(s.m.pools, s.threads[t].key);
      RewriteKeepsSize(s.m.pools, s.threads[t].key, KeyPool(p.idle, p.active - 1), k);
    case _ =>
  }

  lemma RewriteKeepsSize(pools: map<Key, KeyPool>, key: Key, p: KeyPool, k: Key)
    requires Size(p) <= Size(PoolAt(pools, key))
    ensures Size(PoolAt(pools[key := p], k)) <= Size(PoolAt(pools, k))
    ensures Size(PoolAt(Put(pools, key, p), k)) <= Size(PoolAt(pools, k))
  {
  }

  lemma TryKeepsLimit(o: Options, s: Sys, t: Thread, a: Attempt, k: Key, limit: int)
    requires Enabled(o, s, Try(t, a)) && LimitedBy(s, k, limit)
    requires Size(PoolAt(s.m.pools, k)) <= limit
    ensures Size(PoolAt(AfterTry(o, s, t, a).m.pools, k)) <= limit
  {
  }

  /** A key always acquired under one limit never has more live instances. */
  lemma {:induction false} LimitHolds(o: Options, run: seq<Sys>, n: nat, k: Key, limit: int)
    requires IsRun(o, run) && n < |run| && limit >= 0
    requires forall i :: 0 <= i < |run| ==> LimitedBy(run[i], k, limit)
    ensures Size(PoolAt(run[n].m.pools, k)) <= limit
  {
    if n > 0 {
      LimitHolds(o, run, n - 1, k, limit);
      assert StepAt(o, run, n - 1);
      var step :| Enabled(o, run[n - 1], step) && run[n] == Apply(o, run[n - 1], step);
      assert LimitedBy(run[n - 1], k, limit);
      StepKeepsLimit(o, run[n - 1], step, k, limit);
    }
  }
}
