/** The instance pool as a value: its state and what each lock-held region of
    dataplane/internal/pool/pool.go does to it.  PoolManager refines these
    functions with the imperative code; PoolSystem interleaves them. */
module PoolModel {
  import opened Basics

  datatype Key = Key(tenantID: string, hook: string, hookDefVersion: int, moduleHash: string, configVersion: int)

  /** The identity of one sandbox instance. */
  type Inst = nat

  datatype Entry = Entry(inst: Inst, uses: nat, lastUsed: int)

  /** idle is LIFO: the last entry is the most recently released one.
      active counts leased instances and those being created. */
  datatype KeyPool = KeyPool(idle: seq<Entry>, active: int)

  datatype Options = Options(globalMax: int, maxUses: int, idleTTL: int)

  /** changed names the current wake-up channel: channels are numbered in the
      order they are made, and every channel below `changed` is closed. */
  datatype State = State(pools: map<Key, KeyPool>, total: int, changed: nat, closed: bool)

  datatype Victim = Victim(key: Key, idx: nat, inst: Inst)

  /** How one pass under the lock in Acquire ends. */
  datatype Attempt =
    | Refused
    | Reuse(e: Entry)
    | Reserve
    | Evict(victim: Victim)
    | Wait(ch: nat)

  const EMPTY_POOL := KeyPool([], 0)

  const INITIAL := State(map[], 0, 0, false)

  const NANOS_PER_SECOND := 1_000_000_000

  function WithDefaults(raw: Options): (o: Options)
    ensures o.globalMax > 0 && o.maxUses > 0 && o.idleTTL > 0
    ensures raw.globalMax > 0 ==> o.globalMax == raw.globalMax
    ensures raw.maxUses > 0 ==> o.maxUses == raw.maxUses
    ensures raw.idleTTL > 0 ==> o.idleTTL == raw.idleTTL
  {
    Options(if raw.globalMax <= 0 then 256 else raw.globalMax,
            if raw.maxUses <= 0 then 1000 else raw.maxUses,
            if raw.idleTTL <= 0 then 60 * NANOS_PER_SECOND else raw.idleTTL)
  }

  function EffectiveLimit(limit: int): (r: int)
    ensures r == Max(1, limit)
  {
    if limit < 1 then 1 else limit
  }

  function PoolAt(pools: map<Key, KeyPool>, k: Key): KeyPool {
    if k in pools then pools[k] else EMPTY_POOL
  }

  /** Stores p under k, or removes k when p holds nothing. */
  function Put(pools: map<Key, KeyPool>, k: Key, p: KeyPool): map<Key, KeyPool> {
    if p.active == 0 && p.idle == [] then pools - {k} else pools[k := p]
  }

  /** Replaces k's idle list by a shorter one: the entries left out stop being
      accounted, and an emptied pool disappears. */
  function Discard(s: State, k: Key, kept: seq<Entry>): State {
    var p := PoolAt(s.pools, k);
    s.(pools := Put(s.pools, k, KeyPool(kept, p.active)), total := s.total - (|p.idle| - |kept|))
  }

  function Without<T>(xs: seq<T>, i: nat): seq<T>
    requires i < |xs|
  {
    xs[..i] + xs[i + 1..]
  }

  // ---------------------------------------------------------------- Acquire

  ghost predicate SomeIdle(pools: map<Key, KeyPool>) {
    exists k :: k in pools && pools[k].idle != []
  }

  /** The entry at (k, i) has been idle longest: nothing anywhere was used
      before it, and it is the first such entry of its own list. */
  ghost predicate Oldest(pools: map<Key, KeyPool>, v: Victim) {
    && v.key in pools && v.idx < |pools[v.key].idle|
    && pools[v.key].idle[v.idx].inst == v.inst
    && (forall k, i :: k in pools && 0 <= i < |pools[k].idle| ==>
          pools[v.key].idle[v.idx].lastUsed <= pools[k].idle[i].lastUsed)
    && (forall i :: 0 <= i < v.idx ==> pools[v.key].idle[v.idx].lastUsed < pools[v.key].idle[i].lastUsed)
  }

  /** The one way (up to the choice among equally old victims, which Go's map
      order makes) a pass may end in state s. */
  ghost predicate Allowed(o: Options, s: State, k: Key, limit: int, a: Attempt) {
    var p := PoolAt(s.pools, k);
    if s.closed then a == Refused
    else if p.idle != [] then a == Reuse(p.idle[|p.idle| - 1])
    else if p.active + |p.idle| < limit && s.total < o.globalMax then a == Reserve
    else if p.active + |p.idle| < limit && SomeIdle(s.pools) then a.Evict? && Oldest(s.pools, a.victim)
    else a == Wait(s.changed)
  }

  ghost function AfterAttempt(o: Options, s: State, k: Key, limit: int, a: Attempt): State
    requires Allowed(o, s, k, limit, a)
  {
    var p := PoolAt(s.pools, k);
    match a
    case Refused => s
    case Reuse(_) => s.(pools := s.pools[k := KeyPool(p.idle[..|p.idle| - 1], p.active + 1)])
    case Reserve => s.(pools := s.pools[k := KeyPool(p.idle, p.active + 1)], total := s.total + 1)
    case Evict(v) => Discard(s.(pools := s.pools[k := p]), v.key, Without(s.pools[v.key].idle, v.idx))
    case Wait(_) => s.(pools := s.pools[k := p])
  }

  // ----------------------------------------------------- the other regions

  function Notify(s: State): State {
    s.(changed := s.changed + 1)
  }

  /** A failed wait drops the pool it may have left empty. */
  function GiveUp(s: State, k: Key): State {
    if k in s.pools then s.(pools := Put(s.pools, k, s.pools[k])) else s
  }

  /** A failed factory call gives its reserved slot back. */
  function Unreserve(s: State, k: Key): State {
    var p := PoolAt(s.pools, k);
    Notify(s.(pools := Put(s.pools, k, KeyPool(p.idle, p.active - 1)), total := s.total - 1))
  }

  function Retires(o: Options, s: State, e: Entry, healthy: bool): bool {
    !healthy || e.uses + 1 >= o.maxUses || s.closed
  }

  function Release(o: Options, s: State, k: Key, e: Entry, healthy: bool, now: int): State {
    var p := PoolAt(s.pools, k);
    Notify(if Retires(o, s, e, healthy)
           then s.(pools := Put(s.pools, k, KeyPool(p.idle, p.active - 1)), total := s.total - 1)
           else s.(pools := s.pools[k := KeyPool(p.idle + [Entry(e.inst, e.uses + 1, now)], p.active - 1)]))
  }

  // ------------------------------------------------------ reaping, closing

  /** What a sweep over all pools takes out: expired entries, or every entry. */
  datatype Cut = Expired(now: int, ttl: int) | Everything {
    predicate Takes(e: Entry) {
      Everything? || now - e.lastUsed > ttl
    }
  }

  function Kept(cut: Cut, idle: seq<Entry>): (r: seq<Entry>)
    ensures |r| <= |idle|
  {
    if idle == [] then []
    else
      var n := |idle| - 1;
      Kept(cut, idle[..n]) + if cut.Takes(idle[n]) then [] else [idle[n]]
  }

  function Taken(cut: Cut, idle: seq<Entry>): seq<Inst> {
    if idle == [] then []
    else
      var n := |idle| - 1;
      Taken(cut, idle[..n]) + if cut.Takes(idle[n]) then [idle[n].inst] else []
  }

  /** The state after visiting the keys of `order`, and the instances taken. */
  function Sweep(s: State, order: seq<Key>, cut: Cut): (State, seq<Inst>) {
    if order == [] then (s, [])
    else
      var n := |order| - 1;
      var (mid, victims) := Sweep(s, order[..n], cut);
      var idle := PoolAt(mid.pools, order[n]).idle;
      (Discard(mid, order[n], Kept(cut, idle)), victims + Taken(cut, idle))
  }

  ghost function Reap(o: Options, s: State, order: seq<Key>, now: int): (State, seq<Inst>) {
    var (swept, victims) := Sweep(s, order, Expired(now, o.idleTTL));
    (if victims == [] then swept else Notify(swept), victims)
  }

  ghost function Shut(s: State, order: seq<Key>): (State, seq<Inst>) {
    if s.closed then (s, [])
    else
      var (swept, victims) := Sweep(s.(closed := true), order, Everything);
      (Notify(swept), victims)
  }

  // ----------------------------------- what the regions do, pool by pool

  predicate Same(pools: map<Key, KeyPool>, pools': map<Key, KeyPool>, k: Key) {
    (k in pools <==> k in pools') && PoolAt(pools, k) == PoolAt(pools', k)
  }

  ghost predicate OthersSame(s: State, t: State, k: Key) {
    t.closed == s.closed && forall l :: l != k ==> Same(s.pools, t.pools, l)
  }

  /** The state decides how a pass ends: closed before all, then the key's own
      idle list, then its limit, then the cap. */
  lemma AttemptMeaning(o: Options, s: State, k: Key, limit: int, a: Attempt)
    requires Allowed(o, s, k, limit, a)
    ensures var p := PoolAt(s.pools, k);
      var below, idleSomewhere := p.active < limit, exists l :: l in s.pools && s.pools[l].idle != [];
      && (a.Refused? <==> s.closed)
      && (a.Reuse? <==> !s.closed && p.idle != [])
      && (a.Reserve? <==> !s.closed && p.idle == [] && below && s.total < o.globalMax)
      && (a.Evict? <==> !s.closed && p.idle == [] && below && s.total >= o.globalMax && idleSomewhere)
      && (a.Wait? ==> a.ch == s.changed)
  {
  }

  /** What it leaves behind. */
  lemma AfterAttemptMeaning(o: Options, s: State, k: Key, limit: int, a: Attempt)
    requires Allowed(o, s, k, limit, a)
    ensures var t := AfterAttempt(o, s, k, limit, a);
      var p, q := PoolAt(s.pools, k), PoolAt(t.pools, k);
      && t.changed == s.changed
      && (a.Refused? ==> t == s)
      && (a.Reuse? ==> OthersSame(s, t, k) && q.idle + [a.e] == p.idle && q.active == p.active + 1 && t.total == s.total)
      && (a.Reserve? ==> OthersSame(s, t, k) && q.idle == p.idle && q.active == p.active + 1 && t.total == s.total + 1)
      && (a.Wait? ==> OthersSame(s, t, k) && k in t.pools && q == p && t.total == s.total)
  {
  }

  lemma EvictMeaning(o: Options, s: State, k: Key, limit: int, v: Victim)
    requires Allowed(o, s, k, limit, Evict(v))
    ensures var t := AfterAttempt(o, s, k, limit, Evict(v));
      var was, now := PoolAt(s.pools, v.key), PoolAt(t.pools, v.key);
      && t.total == s.total - 1 && t.changed == s.changed && t.closed == s.closed
      && v.idx < |was.idle| && was.idle[v.idx].inst == v.inst
      && now.idle == was.idle[..v.idx] + was.idle[v.idx + 1..] && now.active == was.active
      && (forall l :: l != v.key ==> PoolAt(t.pools, l) == PoolAt(s.pools, l))
      && (forall l, e :: l in s.pools && e in s.pools[l].idle ==> was.idle[v.idx].lastUsed <= e.lastUsed)
  {
  }

  /** A failed factory call: the slot is free again, and waiters are told. */
  lemma UnreserveMeaning(s: State, k: Key)
    ensures var t := Unreserve(s, k);
      && OthersSame(s, t, k) && t.total == s.total - 1 && t.changed == s.changed + 1
      && PoolAt(t.pools, k) == KeyPool(PoolAt(s.pools, k).idle, PoolAt(s.pools, k).active - 1)
      && (k in t.pools <==> PoolAt(t.pools, k) != EMPTY_POOL)
  {
  }

  /** A release keeps the instance exactly if it is healthy, has uses left and the
      manager is open: then it stands last in its key's list, one use older.
      Otherwise it stops being accounted. */
  lemma ReleaseMeaning(o: Options, s: State, k: Key, e: Entry, healthy: bool, now: int)
    ensures var t := Release(o, s, k, e, healthy, now);
      var p, q := PoolAt(s.pools, k), PoolAt(t.pools, k);
      && OthersSame(s, t, k) && t.changed == s.changed + 1 && q.active == p.active - 1
      && if healthy && e.uses + 1 < o.maxUses && !s.closed
         then q.idle == p.idle + [Entry(e.inst, e.uses + 1, now)] && t.total == s.total
         else q.idle == p.idle && t.total == s.total - 1 && (k in t.pools <==> q != EMPTY_POOL)
    ensures Retires(o, s, e, healthy) <==> !(healthy && e.uses + 1 < o.maxUses && !s.closed)
  {
  }

  // ------------------------------------------- what Kept, Taken, Sweep mean

  function Insts(idle: seq<Entry>): (r: seq<Inst>)
    ensures |r| == |idle|
    ensures forall i :: 0 <= i < |r| ==> r[i] == idle[i].inst
  {
    seq(|idle|, i requires 0 <= i < |idle| => idle[i].inst)
  }

  /** kept is what the cut does not take of idle, in order: positions[j] is where
      the j-th kept entry stood. */
  ghost predicate Picks(cut: Cut, idle: seq<Entry>, kept: seq<Entry>, positions: seq<nat>) {
    && |positions| == |kept|
    && (forall j :: 0 <= j < |positions| ==> positions[j] < |idle| && idle[positions[j]] == kept[j])
    && (forall i, j :: 0 <= i < j < |positions| ==> positions[i] < positions[j])
    && (forall p :: 0 <= p < |idle| ==> (p in positions <==> !cut.Takes(idle[p])))
  }

  lemma DropsOne(cut: Cut, idle: seq<Entry>, e: Entry, kept: seq<Entry>, positions: seq<nat>)
    requires Picks(cut, idle, kept, positions) && cut.Takes(e)
    ensures Picks(cut, idle + [e], kept, positions)
  {
    assert |idle| !in positions;
  }

  lemma PicksOne(cut: Cut, idle: seq<Entry>, e: Entry, kept: seq<Entry>, positions: seq<nat>)
    requires Picks(cut, idle, kept, positions) && !cut.Takes(e)
    ensures Picks(cut, idle + [e], kept + [e], positions + [|idle|])
  {
    assert forall p :: p in positions + [|idle|] <==> p in positions || p == |idle|;
  }

  lemma {:induction false} KeptIsFilter(cut: Cut, idle: seq<Entry>) returns (positions: seq<nat>)
    ensures Picks(cut, idle, Kept(cut, idle), positions)
  {
    positions := [];
    if idle != [] {
      var n := |idle| - 1;
      var init := KeptIsFilter(cut, idle[..n]);
      assert idle == idle[..n] + [idle[n]];
      if cut.Takes(idle[n]) {
        DropsOne(cut, idle[..n], idle[n], Kept(cut, idle[..n]), init);
        positions := init;
      } else {
        PicksOne(cut, idle[..n], idle[n], Kept(cut, idle[..n]), init);
        positions := init + [n];
      }
    }
  }

  lemma InstsSnoc(idle: seq<Entry>, e: Entry)
    ensures Insts(idle + [e]) == Insts(idle) + [e.inst]
  {
  }

  lemma {:induction false} KeptLength(cut: Cut, idle: seq<Entry>)
    ensures |idle| == |Kept(cut, idle)| + |Taken(cut, idle)|
  {
    if idle != [] {
      KeptLength(cut, idle[..|idle| - 1]);
    }
  }

  /** Every idle instance is either kept or taken, as often as it was there. */
  lemma {:induction false} KeptAndTaken(cut: Cut, idle: seq<Entry>)
    ensures multiset(Insts(idle)) == multiset(Insts(Kept(cut, idle))) + multiset(Taken(cut, idle))
  {
    if idle != [] {
      var n := |idle| - 1;
      var kept, taken := Kept(cut, idle[..n]), Taken(cut, idle[..n]);
      KeptAndTaken(cut, idle[..n]);
      assert Insts(idle) == Insts(idle[..n]) + [idle[n].inst];
      if cut.Takes(idle[n]) {
        assert Kept(cut, idle) == kept && Taken(cut, idle) == taken + [idle[n].inst];
      } else {
        assert Kept(cut, idle) == kept + [idle[n]] && Taken(cut, idle) == taken;
        InstsSnoc(kept, idle[n]);
      }
    }
  }

  lemma {:induction false} KeptMembers(cut: Cut, idle: seq<Entry>)
    ensures forall e :: e in Kept(cut, idle) <==> e in idle && !cut.Takes(e)
  {
    if idle != [] {
      var n := |idle| - 1;
      KeptMembers(cut, idle[..n]);
      assert idle == idle[..n] + [idle[n]];
    }
  }

  lemma {:induction false} KeptNothing(idle: seq<Entry>)
    ensures Kept(Everything, idle) == []
    ensures Taken(Everything, idle) == Insts(idle)
  {
    if idle != [] {
      KeptNothing(idle[..|idle| - 1]);
    }
  }

  /** k's pool holds exactly what the cut keeps, and no empty pool remains. */
  predicate Swept(pools: map<Key, KeyPool>, pools': map<Key, KeyPool>, k: Key, cut: Cut) {
    && PoolAt(pools', k) == KeyPool(Kept(cut, PoolAt(pools, k).idle), PoolAt(pools, k).active)
    && (k in pools' ==> pools'[k] != EMPTY_POOL)
  }

  lemma DiscardMeaning(s: State, k: Key, cut: Cut)
    ensures var t := Discard(s, k, Kept(cut, PoolAt(s.pools, k).idle));
      && Swept(s.pools, t.pools, k, cut)
      && (forall l :: l != k ==> Same(s.pools, t.pools, l))
      && t.total == s.total - |Taken(cut, PoolAt(s.pools, k).idle)|
  {
    KeptLength(cut, PoolAt(s.pools, k).idle);
  }

  /** The closed form of a sweep: whatever the order of the visits, each
      visited pool holds exactly its kept entries, pools left empty are gone,
      and the total falls by the number of instances taken. */
  lemma {:induction false} SweepMeaning(s: State, order: seq<Key>, cut: Cut)
    requires forall i, j :: 0 <= i < j < |order| ==> order[i] != order[j]
    ensures var (t, victims) := Sweep(s, order, cut);
      && t.total == s.total - |victims|
      && t.changed == s.changed && t.closed == s.closed
      && (forall k :: k in order ==> Swept(s.pools, t.pools, k, cut))
      && (forall k :: k !in order ==> Same(s.pools, t.pools, k))
  {
    if order != [] {
      var n := |order| - 1;
      var last := order[n];
      SweepMeaning(s, order[..n], cut);
      var (mid, _) := Sweep(s, order[..n], cut);
      DiscardMeaning(mid, last, cut);
      assert last !in order[..n] && Same(s.pools, mid.pools, last);
      var t := Sweep(s, order, cut).0;
      assert t == Discard(mid, last, Kept(cut, PoolAt(mid.pools, last).idle));
      forall k ensures if k in order then Swept(s.pools, t.pools, k, cut) else Same(s.pools, t.pools, k) {
        assert k in order <==> k in order[..n] || k == last;
        if k != last {
          assert Same(mid.pools, t.pools, k);
        }
      }
    }
  }

  /** A reaper's sweep removes exactly the entries that have been idle for longer
      than the TTL, and tells waiters exactly if it removed any. */
  lemma ReapMeaning(o: Options, s: State, order: seq<Key>, now: int)
    requires Lists(order, s.pools.Keys)
    ensures var (t, victims) := Reap(o, s, order, now);
      && (forall k, e :: e in PoolAt(t.pools, k).idle <==> e in PoolAt(s.pools, k).idle && now - e.lastUsed <= o.idleTTL)
      && (forall k :: PoolAt(t.pools, k).active == PoolAt(s.pools, k).active)
      && t.total == s.total - |victims| && t.closed == s.closed
      && t.changed == s.changed + if victims != [] then 1 else 0
  {
    var cut := Expired(now, o.idleTTL);
    var (t, victims) := Sweep(s, order, cut);
    SweepMeaning(s, order, cut);
    forall k
      ensures PoolAt(t.pools, k).active == PoolAt(s.pools, k).active
      ensures forall e :: e in PoolAt(t.pools, k).idle <==> e in PoolAt(s.pools, k).idle && now - e.lastUsed <= o.idleTTL
    {
      KeptMembers(cut, PoolAt(s.pools, k).idle);
      assert if k in order then Swept(s.pools, t.pools, k, cut) else Same(s.pools, t.pools, k);
    }
  }

  /** The first close takes every idle instance out and tells waiters; any other
      changes nothing. */
  lemma ShutMeaning(s: State, order: seq<Key>)
    requires !s.closed ==> Lists(order, s.pools.Keys)
    ensures var (t, victims) := Shut(s, order);
      && t.closed
      && (s.closed ==> t == s && victims == [])
      && (!s.closed ==>
            && t.changed == s.changed + 1 && t.total == s.total - |victims|
            && forall k :: PoolAt(t.pools, k) == KeyPool([], PoolAt(s.pools, k).active))
  {
    if !s.closed {
      var (t, victims) := Sweep(s.(closed := true), order, Everything);
      SweepMeaning(s.(closed := true), order, Everything);
      forall k ensures PoolAt(t.pools, k) == KeyPool([], PoolAt(s.pools, k).active) {
        KeptNothing(PoolAt(s.pools, k).idle);
        assert if k in order then Swept(s.pools, t.pools, k, Everything) else Same(s.pools, t.pools, k);
      }
    }
  }
}
