/** The lease discipline of run() in dataplane/internal/executor/executor.go:
    which release each way out of a call makes, that it is the only one, and
    that it is one the pool's other guarantees assume. */
module Execution {
  import opened PoolModel
  import opened PoolManager
  import PoolSystem

  /** How a leased call goes: the caller's context ended before the script
      started, the script answered, it failed, or something panicked. */
  datatype Course = NotStarted | Answered | CallFailed | Panicked

  /** The instance may be used again. */
  predicate Healthy(c: Course) {
    c.NotStarted? || c.Answered?
  }

  /** No idle list has the instance. */
  ghost predicate IdleNowhere(pools: map<Key, KeyPool>, i: Inst) {
    forall l, f :: f in PoolAt(pools, l).idle ==> f.inst != i
  }

  /** The next call for this key that finds the manager open gets this entry. */
  ghost predicate NextToReuse(o: Options, s: State, k: Key, e: Entry) {
    && PoolAt(s.pools, k).idle != [] && PoolAt(s.pools, k).idle[|PoolAt(s.pools, k).idle| - 1] == e
    && forall limit, a :: Allowed(o, s, k, limit, a) ==> a == Reuse(e)
  }

  /** From lease to return: the explicit releases of the code, then the
      deferred one, which acts only when nothing else released the lease. */
  method UseLease(lease: Lease, course: Course, now: int) returns (closeNow: bool)
    requires !lease.released
    modifies lease, lease.m
    ensures lease.released
    ensures lease.m.Abs() == Release(lease.m.opts, old(lease.m.Abs()), lease.key, old(lease.e), Healthy(course), now)
    ensures closeNow && old(IdleNowhere(lease.m.pools, lease.e.inst)) ==> IdleNowhere(lease.m.pools, old(lease.e.inst))
    ensures course.CallFailed? || course.Panicked? ==> closeNow
    ensures course.NotStarted? || course.Answered? ==>
      if old(lease.e.uses) + 1 < lease.m.opts.maxUses && !old(lease.m.closed)
      then !closeNow && NextToReuse(lease.m.opts, lease.m.Abs(), lease.key,
                                    Entry(old(lease.e.inst), old(lease.e.uses) + 1, now))
      else closeNow
  {
    ghost var o, s, e := lease.m.opts, lease.m.Abs(), lease.e;
    closeNow := false;
    match course {
      case NotStarted => closeNow := lease.Release(true, now);
      case CallFailed => closeNow := lease.Release(false, now);
      case Answered => closeNow := lease.Release(true, now);
      case Panicked =>
    }
    var deferred := lease.Release(false, now);
    closeNow := closeNow || deferred;
    WhereItGoes(o, s, lease.key, e, course, now);
  }

  /** After an unhealthy end the instance is idle nowhere; after a healthy one
      it is its key's next to be reused, unless it is worn out or the manager
      is closed. */
  lemma WhereItGoes(o: Options, s: State, k: Key, e: Entry, course: Course, now: int)
    ensures var t := Release(o, s, k, e, Healthy(course), now);
      if (course.NotStarted? || course.Answered?) && e.uses + 1 < o.maxUses && !s.closed
      then NextToReuse(o, t, k, Entry(e.inst, e.uses + 1, now))
      else IdleNowhere(s.pools, e.inst) ==> IdleNowhere(t.pools, e.inst)
  {
    ReleaseMeaning(o, s, k, e, Healthy(course), now);
    var t := Release(o, s, k, e, Healthy(course), now);
    if Retires(o, s, e, Healthy(course)) && IdleNowhere(s.pools, e.inst) {
      forall l, f | f in PoolAt(t.pools, l).idle ensures f.inst != e.inst {
        assert l != k ==> Same(s.pools, t.pools, l);
        assert f in PoolAt(s.pools, l).idle;
      }
    }
  }

  /** Every course is a run of the pool: the call it makes, if any, and then the
      release of UseLease, which the pool allows.  A call fails in exactly one
      of them, and that one gives the instance back as unhealthy. */
  lemma CourseIsRun(o: Options, s: PoolSystem.Sys, t: PoolSystem.Thread, course: Course) returns (mid: PoolSystem.Sys)
    requires t in s.threads && s.threads[t].Leased? && !s.threads[t].called && !s.threads[t].failed
    ensures if course.Answered? || course.CallFailed?
            then PoolSystem.Enabled(o, s, PoolSystem.Call(t, course.Answered?))
                 && mid == PoolSystem.Apply(o, s, PoolSystem.Call(t, course.Answered?))
            else mid == s
    ensures t in mid.threads && mid.threads[t].Leased? && (mid.threads[t].failed <==> course.CallFailed?)
    ensures var l, back := s.threads[t], PoolSystem.Return(t, course.NotStarted? || course.Answered?);
      && PoolSystem.Enabled(o, mid, back)
      && PoolSystem.Apply(o, mid, back).m == Release(o, s.m, l.key, l.e, Healthy(course), s.clock)
  {
    mid := s;
    if course.Answered? || course.CallFailed? {
      mid := PoolSystem.Apply(o, s, PoolSystem.Call(t, course.Answered?));
    }
  }
}
