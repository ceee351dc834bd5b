/** The pool manager of dataplane/internal/pool/pool.go: a class whose methods
    are the lock-held regions of the code, each proved against PoolModel, and
    Acquire and Lease.Release built from them. */
module PoolManager {
  import opened Basics
  import opened PoolModel

  /** `kept := p.idle[:0]` and the loop behind it: keeps the entries that are
      not expired at the front of the same array, in order. */
  method CompactIdle(a: array<Option<Entry>>, cut: Cut) returns (kept: nat, victims: seq<Inst>)
    requires forall i :: 0 <= i < a.Length ==> a[i].Some?
    modifies a
    ensures kept <= a.Length && forall i :: 0 <= i < a.Length ==> a[i].Some?
    ensures Values(a[..kept]) == Kept(cut, old(Values(a[..])))
    ensures victims == Taken(cut, old(Values(a[..])))
  {
    ghost var was := Values(a[..]);
    ghost var front: seq<Entry> := [];
    kept, victims := 0, [];
    var i := 0;
    while i < a.Length
      invariant kept == |front| && i <= a.Length
      invariant Midway(cut, a[..], was, front, victims, i)
    {
      MidwayKeeps(cut, a[..], was, front, victims, i);
      var e := a[i].value;
      if cut.Takes(e) {
        victims := victims + [e.inst];
      } else {
        Put(a, kept, e);
        kept, front := kept + 1, front + [e];
      }
      i := i + 1;
    }
    MidwayEnds(cut, a[..], was, front, victims);
  }

  /** The append to kept, which never outgrows the array under it. */
  method Put(a: array<Option<Entry>>, at: nat, e: Entry)
    requires at < a.Length
    modifies a
    ensures a[..] == old(a[..])[at := Some(e)]
  {
    a[at] := Some(e);
  }

  /** The first i slots are done: what is kept of them stands in front, the rest
      of them hold leftovers, and the slots behind are untouched. */
  ghost predicate Midway(cut: Cut, xs: seq<Option<Entry>>, was: seq<Entry>, front: seq<Entry>, victims: seq<Inst>, i: int) {
    && |front| <= i <= |xs| == |was|
    && front == Kept(cut, was[..i]) && victims == Taken(cut, was[..i])
    && (forall j :: 0 <= j < |front| ==> xs[j] == Some(front[j]))
    && (forall j :: |front| <= j < i ==> xs[j].Some?)
    && (forall j :: i <= j < |xs| ==> xs[j] == Some(was[j]))
  }

  lemma MidwayKeeps(cut: Cut, xs: seq<Option<Entry>>, was: seq<Entry>, front: seq<Entry>, victims: seq<Inst>, i: int)
    requires Midway(cut, xs, was, front, victims, i) && i < |xs|
    ensures xs[i].Some? && |front| <= i
    ensures var e := xs[i].value;
      if cut.Takes(e) then Midway(cut, xs, was, front, victims + [e.inst], i + 1)
      else Midway(cut, xs[|front| := Some(e)], was, front + [e], victims, i + 1)
  {
    CutOne(cut, was, i);
  }

  lemma MidwayEnds(cut: Cut, xs: seq<Option<Entry>>, was: seq<Entry>, front: seq<Entry>, victims: seq<Inst>)
    requires Midway(cut, xs, was, front, victims, |xs|)
    ensures |front| <= |xs| && forall j :: 0 <= j < |xs| ==> xs[j].Some?
    ensures Values(xs[..|front|]) == Kept(cut, was) && victims == Taken(cut, was)
  {
    assert was[..|xs|] == was;
    assert Values(xs[..|front|]) == front;
  }

  lemma CutOne(cut: Cut, idle: seq<Entry>, i: nat)
    requires i < |idle|
    ensures Kept(cut, idle[..i + 1]) == Kept(cut, idle[..i]) + if cut.Takes(idle[i]) then [] else [idle[i]]
    ensures Taken(cut, idle[..i + 1]) == Taken(cut, idle[..i]) + if cut.Takes(idle[i]) then [idle[i].inst] else []
  {
    assert idle[..i + 1][..i] == idle[..i];
  }

  /** `clear(p.idle[len(kept):])`: no stale reference stays behind the kept ones. */
  method ClearFrom(a: array<Option<Entry>>, kept: nat)
    requires kept <= a.Length
    modifies a
    ensures a[..kept] == old(a[..kept])
    ensures forall i :: kept <= i < a.Length ==> a[i] == None
  {
    var c := kept;
    while c < a.Length
      invariant kept <= c <= a.Length
      invariant a[..kept] == old(a[..kept])
      invariant forall j :: kept <= j < c ==> a[j] == None
    {
      a[c] := None;
      c := c + 1;
    }
  }

  function Values(xs: seq<Option<Entry>>): (r: seq<Entry>)
    requires forall i :: 0 <= i < |xs| ==> xs[i].Some?
  {
    seq(|xs|, i requires 0 <= i < |xs| => xs[i].value)
  }

  datatype Outcome =
    | Leased(lease: Lease)
    | ErrClosed
    | ErrSaturated(ctxEnded: bool)
    | ErrFactory

  /** With nothing else running, Acquire can only fail to find room when the
      key is at its limit, or the process is at its cap with nothing idle. */
  ghost predicate Blocked(o: Options, s: State, k: Key, limit: int) {
    && PoolAt(s.pools, k).idle == []
    && (PoolAt(s.pools, k).active >= limit || (s.total >= o.globalMax && !SomeIdle(s.pools)))
  }

  class Manager {
    const opts: Options
    var pools: map<Key, KeyPool>
    var total: int
    var changed: nat
    var closed: bool

    ghost function Abs(): State
      reads this
    {
      State(pools, total, changed, closed)
    }

    /** PoolSystem proves that every run keeps the second half. */
    ghost predicate Valid()
      reads this
    {
      opts.globalMax > 0 && total <= opts.globalMax
    }

    constructor (raw: Options)
      ensures Valid()
      ensures opts == WithDefaults(raw)
      ensures raw.globalMax <= 0 ==> opts.globalMax == 256
      ensures raw.maxUses <= 0 ==> opts.maxUses == 1000
      ensures raw.idleTTL <= 0 ==> opts.idleTTL == 60_000_000_000
      ensures Abs() == INITIAL
    {
      opts := WithDefaults(raw);
      pools, total, changed, closed := map[], 0, 0, false;
    }

    method Pool(key: Key) returns (p: KeyPool)
      modifies this`pools
      ensures p == old(PoolAt(pools, key))
      ensures pools == old(pools)[key := p]
    {
      if key !in pools {
        pools := pools[key := EMPTY_POOL];
      }
      p := pools[key];
    }

    method DropIfEmptyLocked(key: Key)
      modifies this`pools
      ensures pools == GiveUp(old(Abs()), key).pools
    {
      if key in pools && pools[key].active == 0 && |pools[key].idle| == 0 {
        pools := pools - {key};
      } else if key in pools {
        assert pools[key := pools[key]] == pools;
      }
    }

    method NotifyLocked()
      modifies this`changed
      ensures Abs() == Notify(old(Abs()))
    {
      changed := changed + 1;
    }

    /** The two nested loops over the map and each idle list. */
    method FindOldest() returns (v: Option<Victim>)
      ensures v.None? <==> !SomeIdle(pools)
      ensures v.Some? ==> Oldest(pools, v.value)
    {
      v := None;
      var rest, seen: set<Key> := pools.Keys, {};
      while rest != {}
        invariant rest + seen == pools.Keys && rest !! seen
        invariant v.None? ==> forall k :: k in seen ==> pools[k].idle == []
        invariant v.Some? ==> OldestWithin(seen, v.value)
      {
        var k :| k in rest;
        var idle := pools[k].idle;
        var i := 0;
        while i < |idle|
          invariant 0 <= i <= |idle|
          invariant v.None? ==> i == 0 && forall l :: l in seen ==> pools[l].idle == []
          invariant v.Some? ==> OldestSoFar(seen, k, i, v.value)
        {
          if v.None? || idle[i].lastUsed < pools[v.value.key].idle[v.value.idx].lastUsed {
            v := Some(Victim(k, i, idle[i].inst));
          }
          i := i + 1;
        }
        rest, seen := rest - {k}, seen + {k};
      }
    }

    ghost predicate OldestSoFar(seen: set<Key>, k: Key, n: nat, v: Victim)
      requires seen <= pools.Keys && k in pools && n <= |pools[k].idle|
      reads this
    {
      && (v.key in seen || v.key == k) && v.key in pools && v.idx < |pools[v.key].idle|
      && (v.key == k && v.key !in seen ==> v.idx < n)
      && pools[v.key].idle[v.idx].inst == v.inst
      && (forall l, i :: l in seen && 0 <= i < |pools[l].idle| ==>
            pools[v.key].idle[v.idx].lastUsed <= pools[l].idle[i].lastUsed)
      && (forall i :: 0 <= i < n ==> pools[v.key].idle[v.idx].lastUsed <= pools[k].idle[i].lastUsed)
      && (forall i :: 0 <= i < v.idx ==> pools[v.key].idle[v.idx].lastUsed < pools[v.key].idle[i].lastUsed)
    }

    ghost predicate OldestWithin(seen: set<Key>, v: Victim)
      reads this
    {
      && v.key in seen && v.key in pools && v.idx < |pools[v.key].idle|
      && pools[v.key].idle[v.idx].inst == v.inst
      && (forall k, i :: k in seen && k in pools && 0 <= i < |pools[k].idle| ==>
            pools[v.key].idle[v.idx].lastUsed <= pools[k].idle[i].lastUsed)
      && (forall i :: 0 <= i < v.idx ==> pools[v.key].idle[v.idx].lastUsed < pools[v.key].idle[i].lastUsed)
    }

    method EvictOldestIdleLocked() returns (v: Option<Victim>)
      modifies this`pools, this`total
      ensures v.None? <==> !SomeIdle(old(pools))
      ensures v.None? ==> Abs() == old(Abs())
      ensures v.Some? ==> Oldest(old(pools), v.value)
      ensures v.Some? ==>
        Abs() == Discard(old(Abs()), v.value.key, Without(old(pools[v.value.key].idle), v.value.idx))
    {
      v := FindOldest();
      if v.Some? {
        var p := pools[v.value.key];
        var kept := p.idle[..v.value.idx] + p.idle[v.value.idx + 1..];
        pools := pools[v.value.key := KeyPool(kept, p.active)];
        total := total - 1;
        assert pools - {v.value.key} == old(pools) - {v.value.key};
        DropIfEmptyLocked(v.value.key);
      }
    }

    /** One pass of Acquire's loop under the lock. */
    method Attempt(key: Key, limit: int) returns (a: Attempt)
      modifies this`pools, this`total
      ensures Allowed(opts, old(Abs()), key, limit, a)
      ensures Abs() == AfterAttempt(opts, old(Abs()), key, limit, a)
    {
      if closed {
        return Refused;
      }
      var p := Pool(key);
      var n := |p.idle|;
      if n > 0 {
        var e := p.idle[n - 1];
        pools := pools[key := KeyPool(p.idle[..n - 1], p.active + 1)];
        return Reuse(e);
      }
      if p.active + |p.idle| < limit {
        if total < opts.globalMax {
          total := total + 1;
          pools := pools[key := KeyPool(p.idle, p.active + 1)];
          return Reserve;
        }
        ghost var before := pools;
        assert forall k :: k in before && k != key ==> k in old(pools) && before[k] == old(pools)[k];
        var victim := EvictOldestIdleLocked();
        if victim.Some? {
          assert victim.value.key != key;
          assert old(pools)[victim.value.key].idle != [];
          return Evict(victim.value);
        }
        assert forall k :: k in old(pools) ==> k in before;
      }
      return Wait(changed);
    }

    /** create, once the factory has answered: no instance means it failed. */
    method Create(key: Key, made: Option<Inst>) returns (r: Outcome)
      modifies this
      ensures made.None? ==> r == ErrFactory && Abs() == Unreserve(old(Abs()), key)
      ensures made.Some? ==>
        && Abs() == old(Abs())
        && r.Leased? && fresh(r.lease) && r.lease.Holds(this, key, Entry(made.value, 0, 0), true)
    {
      if made.None? {
        total := total - 1;
        var p := Pool(key);
        pools := pools[key := KeyPool(p.idle, p.active - 1)];
        assert pools - {key} == old(pools) - {key};
        DropIfEmptyLocked(key);
        NotifyLocked();
        return ErrFactory;
      }
      var lease := new Lease(this, key, Entry(made.value, 0, 0), true);
      return Leased(lease);
    }

    method Saturated(key: Key, ctxEnded: bool) returns (r: Outcome)
      modifies this`pools
      ensures r == ErrSaturated(ctxEnded) && Abs() == GiveUp(old(Abs()), key)
    {
      DropIfEmptyLocked(key);
      return ErrSaturated(ctxEnded);
    }

    /** Acquire when nothing else touches the manager: made is the factory's
        answer, ctxEnded tells what ends a wait.  It leases an idle instance of
        the key if there is one, and saturates exactly when it is blocked. */
    method Acquire(key: Key, rawLimit: int, made: Option<Inst>, ctxEnded: bool) returns (r: Outcome)
      requires Valid()
      modifies this
      ensures Valid()
      ensures r == ErrClosed <==> old(closed)
      ensures r.ErrSaturated? <==> !old(closed) && Blocked(opts, old(Abs()), key, EffectiveLimit(rawLimit))
      ensures r == ErrFactory ==> made.None? && old(PoolAt(pools, key)).idle == []
      ensures r.Leased? ==> fresh(r.lease)
      ensures r.Leased? && r.lease.cold ==>
        made.Some? && r.lease.Holds(this, key, Entry(made.value, 0, 0), true)
      ensures r.Leased? && !r.lease.cold ==>
        var idle := old(PoolAt(pools, key)).idle;
        idle != [] && r.lease.Holds(this, key, idle[|idle| - 1], false)
        && PoolAt(pools, key).idle == idle[..|idle| - 1] && total == old(total)
    {
      var limit := EffectiveLimit(rawLimit);
      var blockedStill := true;
      while blockedStill
        invariant Valid() && blockedStill && closed == old(closed)
        invariant Abs() == old(Abs()) || PoolAt(pools, key).idle == [] == old(PoolAt(pools, key)).idle
        invariant !old(closed) ==>
          (Blocked(opts, Abs(), key, limit) <==> Blocked(opts, old(Abs()), key, limit))
        decreases total
      {
        ghost var before := Abs();
        var a := Attempt(key, limit);
        match a
        case Refused => return ErrClosed;
        case Reuse(e) =>
          var lease := new Lease(this, key, e, false);
          return Leased(lease);
        case Reserve =>
          r := Create(key, made);
          return;
        case Evict(v) =>
          EvictionUnblocks(opts, before, key, limit, v);
        case Wait(_) =>
          r := Saturated(key, ctxEnded);
          return;
      }
    }

    method Release(key: Key, e: Entry, healthy: bool, now: int) returns (retire: bool)
      modifies this
      ensures retire == Retires(opts, old(Abs()), e, healthy)
      ensures Abs() == PoolModel.Release(opts, old(Abs()), key, e, healthy, now)
      ensures retire <==> !(healthy && e.uses + 1 < opts.maxUses && !old(closed))
      ensures !retire ==> PoolAt(pools, key).idle == old(PoolAt(pools, key)).idle + [Entry(e.inst, e.uses + 1, now)]
                          && total == old(total)
      ensures retire ==> PoolAt(pools, key).idle == old(PoolAt(pools, key)).idle && total == old(total) - 1
    {
      ReleaseMeaning(opts, Abs(), key, e, healthy, now);
      var used := e.(uses := e.uses + 1);
      var p := Pool(key);
      p := p.(active := p.active - 1);
      pools := pools[key := p];
      retire := !healthy || used.uses >= opts.maxUses || closed;
      if retire {
        total := total - 1;
        assert pools - {key} == old(pools) - {key};
        DropIfEmptyLocked(key);
      } else {
        used := used.(lastUsed := now);
        pools := pools[key := p.(idle := p.idle + [used])];
      }
      NotifyLocked();
    }

    /** Takes what the cut takes out of one pool. */
    method SweepPool(k: Key, cut: Cut) returns (taken: seq<Inst>)
      requires k in pools
      modifies this`pools, this`total
      ensures Abs() == Discard(old(Abs()), k, Kept(cut, old(pools[k].idle)))
      ensures taken == Taken(cut, old(pools[k].idle))
    {
      var p := pools[k];
      var a := new Option<Entry>[|p.idle|](i requires 0 <= i < |p.idle| => Some(p.idle[i]));
      assert Values(a[..]) == p.idle;
      var kept;
      kept, taken := CompactIdle(a, cut);
      ClearFrom(a, kept);
      KeptLength(cut, p.idle);
      pools := pools[k := KeyPool(Values(a[..kept]), p.active)];
      total := total - |taken|;
      assert pools - {k} == old(pools) - {k};
      DropIfEmptyLocked(k);
    }

    /** The loop shared by ReapIdle and Close: visits every pool once. */
    method SweepPools(cut: Cut) returns (victims: seq<Inst>, ghost order: seq<Key>)
      modifies this`pools, this`total
      ensures Lists(order, old(pools.Keys))
      ensures (Abs(), victims) == Sweep(old(Abs()), order, cut)
    {
      victims, order := [], [];
      var rest := pools.Keys;
      while rest != {}
        invariant rest <= pools.Keys
        invariant forall k :: k in old(pools.Keys) <==> k in order || k in rest
        invariant forall k :: k in order ==> k !in rest
        invariant forall i, j :: 0 <= i < j < |order| ==> order[i] != order[j]
        invariant (Abs(), victims) == Sweep(old(Abs()), order, cut)
      {
        var k :| k in rest;
        var taken := SweepPool(k, cut);
        SweepOne(old(Abs()), order, k, cut);
        victims := victims + taken;
        order := order + [k];
        rest := rest - {k};
      }
    }

    method ReapIdle(now: int) returns (victims: seq<Inst>, ghost order: seq<Key>)
      modifies this
      ensures Lists(order, old(pools.Keys))
      ensures (Abs(), victims) == Reap(opts, old(Abs()), order, now)
    {
      victims, order := SweepPools(Expired(now, opts.idleTTL));
      if |victims| > 0 {
        NotifyLocked();
      }
    }

    method Close() returns (victims: seq<Inst>, ghost order: seq<Key>)
      modifies this
      ensures !old(closed) ==> Lists(order, old(pools.Keys))
      ensures (Abs(), victims) == Shut(old(Abs()), order)
    {
      if closed {
        return [], [];
      }
      closed := true;
      victims, order := SweepPools(Everything);
      NotifyLocked();
    }
  }

  lemma SweepOne(s: State, order: seq<Key>, k: Key, cut: Cut)
    ensures var (mid, victims) := Sweep(s, order, cut);
      var idle := PoolAt(mid.pools, k).idle;
      Sweep(s, order + [k], cut) == (Discard(mid, k, Kept(cut, idle)), victims + Taken(cut, idle))
  {
  }

  lemma EvictionUnblocks(o: Options, s: State, k: Key, limit: int, v: Victim)
    requires Allowed(o, s, k, limit, Evict(v)) && s.total <= o.globalMax
    ensures var t := AfterAttempt(o, s, k, limit, Evict(v));
      !Blocked(o, s, k, limit) && !Blocked(o, t, k, limit)
      && PoolAt(t.pools, k).idle == [] && t.total < s.total
  {
  }

  /** Exclusive access to one instance until the first Release. */
  class Lease {
    const m: Manager
    const key: Key
    var e: Entry
    const cold: bool
    var released: bool

    constructor (m: Manager, key: Key, e: Entry, cold: bool)
      ensures Holds(m, key, e, cold)
    {
      this.m, this.key, this.e, this.cold, this.released := m, key, e, cold, false;
    }

    ghost predicate Holds(m: Manager, key: Key, e: Entry, cold: bool)
      reads this
    {
      this.m == m && this.key == key && this.e == e && this.cold == cold && !released
    }

    /** Only the first call has an effect; closeNow tells the caller to close
        the instance, which happens outside the lock. */
    method Release(healthy: bool, now: int) returns (closeNow: bool)
      modifies this, m
      ensures released
      ensures old(released) ==> !closeNow && m.Abs() == old(m.Abs()) && e == old(e)
      ensures !old(released) ==>
        closeNow == Retires(m.opts, old(m.Abs()), old(e), healthy)
        && m.Abs() == PoolModel.Release(m.opts, old(m.Abs()), key, old(e), healthy, now)
    {
      closeNow := false;
      if !released {
        released := true;
        closeNow := m.Release(key, e, healthy, now);
        e := e.(uses := e.uses + 1);
      }
    }
  }
}
