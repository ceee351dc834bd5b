/** dataplane/internal/config/store.go: the store that swaps views atomically,
    alone and under any interleaving of updaters. */
module Store {
  import opened Basics
  import opened Tables
  import opened PlaneConfig

  datatype UpdateResult = Applied | ErrStaleSnapshot

  /** The atomic pointer.  Every successful swap stores a pointer to a newly
      built view, so the number of swaps so far identifies the pointer. */
  class Store {
    var cur: Option<View>
    var swaps: nat

    constructor ()
      ensures cur == None && swaps == 0
    {
      cur, swaps := None, 0;
    }

    method CompareAndSwap(loaded: nat, next: View) returns (ok: bool)
      modifies this
      ensures ok == (loaded == old(swaps))
      ensures cur == if ok then Some(next) else old(cur)
      ensures swaps == if ok then old(swaps) + 1 else old(swaps)
    {
      ok := loaded == swaps;
      if ok {
        cur, swaps := Some(next), swaps + 1;
      }
    }

    /** Update with no rival: one load and one swap, or a stale snapshot. */
    method Update(snap: Snapshot) returns (r: UpdateResult)
      modifies this
      ensures r == ErrStaleSnapshot <==> old(cur).Some? && snap.version <= old(cur).value.version
      ensures r == ErrStaleSnapshot ==> cur == old(cur) && swaps == old(swaps)
      ensures r == Applied ==> cur == Some(ViewOf(snap)) && swaps == old(swaps) + 1
    {
      var done := false;
      while !done
        invariant !done ==> cur == old(cur) && swaps == old(swaps)
        invariant done ==> cur == Some(ViewOf(snap)) && swaps == old(swaps) + 1
        invariant done ==> !(old(cur).Some? && snap.version <= old(cur).value.version)
        decreases !done
      {
        var loaded, view := swaps, cur;
        if view.Some? && snap.version <= view.value.version {
          return ErrStaleSnapshot;
        }
        var next := NewView(snap);
        done := CompareAndSwap(loaded, next);
      }
      r := Applied;
    }
  }

  // ------------------------------------------------- concurrent updaters

  /** Where one Update call is: before its load, between load and swap with the
      number of swaps it saw, or returned.  retries counts its lost swaps. */
  datatype Phase = Begin | Loaded(seen: nat) | Finished(r: UpdateResult)

  datatype Updater = Updater(version: int, phase: Phase, retries: nat)

  /** installed lists the version of every view ever stored, in order. */
  datatype Sys = Sys(installed: seq<int>, updaters: map<nat, Updater>)

  datatype Step = Submit(u: nat, version: int) | Load(u: nat) | Swap(u: nat)

  ghost predicate Enabled(s: Sys, step: Step) {
    match step
    case Submit(u, version) => u !in s.updaters
    case Load(u) => u in s.updaters && s.updaters[u].phase.Begin?
    case Swap(u) => u in s.updaters && s.updaters[u].phase.Loaded?
  }

  /** One atomic load, followed by the version test on what it saw. */
  function AfterLoad(installed: seq<int>, x: Updater): Updater {
    var n := |installed|;
    x.(phase := if n > 0 && x.version <= installed[n - 1] then Finished(ErrStaleSnapshot) else Loaded(n))
  }

  ghost function Apply(s: Sys, step: Step): Sys
    requires Enabled(s, step)
  {
    match step
    case Submit(u, version) => s.(updaters := s.updaters[u := Updater(version, Begin, 0)])
    case Load(u) => s.(updaters := s.updaters[u := AfterLoad(s.installed, s.updaters[u])])
    case Swap(u) =>
      var x := s.updaters[u];
      if x.phase.seen == |s.installed|
      then Sys(s.installed + [x.version], s.updaters[u := x.(phase := Finished(Applied))])
      else s.(updaters := s.updaters[u := x.(phase := Begin, retries := x.retries + 1)])
  }

  ghost predicate IsRun(run: seq<Sys>) {
    && run != [] && run[0] == Sys([], map[])
    && forall i :: 0 <= i < |run| - 1 ==> StepAt(run, i)
  }

  ghost predicate StepAt(run: seq<Sys>, i: nat)
    requires i + 1 < |run|
  {
    exists step :: Enabled(run[i], step) && run[i + 1] == Apply(run[i], step)
  }

  ghost predicate Increasing(xs: seq<int>) {
    forall i, j :: 0 <= i < j < |xs| ==> xs[i] < xs[j]
  }

  /** A swap is lost only to a newer view.  So the losses of one updater are
      counted by the versions between the first one installed and the one it
      last saw, which is older than its own: the measure that ends its loop. */
  ghost predicate FewRetries(installed: seq<int>, x: Updater) {
    x.retries == 0 || (installed != [] && x.retries <= 1 + Max(0, x.version - installed[0]))
  }

  ghost predicate UpdaterOk(installed: seq<int>, x: Updater) {
    && FewRetries(installed, x)
    && match x.phase
       case Begin => x.retries == 0 || (installed != [] && x.retries <= 1 + installed[|installed| - 1] - installed[0])
       case Loaded(n) =>
         n <= |installed| &&
         if n == 0 then x.retries == 0
         else installed[n - 1] < x.version && x.retries <= 1 + installed[n - 1] - installed[0]
       case Finished(Applied) => x.version in installed
       case Finished(ErrStaleSnapshot) => installed != [] && x.version <= installed[|installed| - 1]
  }

  ghost predicate Owned(installed: seq<int>, updaters: map<nat, Updater>) {
    forall v :: v in installed ==> exists u :: u in updaters && updaters[u].version == v
  }

  ghost predicate AllOk(installed: seq<int>, updaters: map<nat, Updater>) {
    forall u :: u in updaters ==> UpdaterOk(installed, updaters[u])
  }

  ghost predicate Inv(s: Sys) {
    Increasing(s.installed) && Owned(s.installed, s.updaters) && AllOk(s.installed, s.updaters)
  }

  lemma LoadKeepsOk(installed: seq<int>, x: Updater)
    requires Increasing(installed) && UpdaterOk(installed, x) && x.phase.Begin?
    ensures UpdaterOk(installed, AfterLoad(installed, x))
  {
  }

  lemma LostSwap(installed: seq<int>, x: Updater)
    requires Increasing(installed)
    requires UpdaterOk(installed, x) && x.phase.Loaded? && x.phase.seen != |installed|
    ensures UpdaterOk(installed, x.(phase := Begin, retries := x.retries + 1))
  {
  }

  lemma InstallKeepsOk(installed: seq<int>, version: int, y: Updater)
    requires Increasing(installed) && UpdaterOk(installed, y)
    requires installed != [] ==> installed[|installed| - 1] < version
    ensures UpdaterOk(installed + [version], y)
  {
  }

  /** The installing updater saw the current pointer and was newer than it. */
  lemma InstallKeepsOrder(installed: seq<int>, x: Updater)
    requires Increasing(installed) && UpdaterOk(installed, x) && x.phase == Loaded(|installed|)
    ensures Increasing(installed + [x.version])
    ensures UpdaterOk(installed + [x.version], x.(phase := Finished(Applied)))
  {
  }

  lemma InstallKeepsInv(s: Sys, u: nat)
    requires Inv(s) && Enabled(s, Swap(u)) && s.updaters[u].phase.seen == |s.installed|
    ensures Inv(Apply(s, Swap(u)))
  {
    var s', x := Apply(s, Swap(u)), s.updaters[u];
    InstallKeepsOrder(s.installed, x);
    forall w | w in s'.updaters ensures UpdaterOk(s'.installed, s'.updaters[w]) {
      if w != u { InstallKeepsOk(s.installed, x.version, s.updaters[w]); }
    }
    OwnersStay(s.installed, s.updaters, s'.updaters);
    assert s'.updaters[u].version == x.version;
  }

  lemma StepKeepsInv(s: Sys, step: Step)
    requires Inv(s) && Enabled(s, step)
    ensures Inv(Apply(s, step))
  {
    var s' := Apply(s, step);
    match step
    case Submit(u, version) => OwnersStay(s.installed, s.updaters, s'.updaters);
    case Load(u) =>
      LoadKeepsOk(s.installed, s.updaters[u]);
      OwnersStay(s.installed, s.updaters, s'.updaters);
    case Swap(u) =>
      if s.updaters[u].phase.seen == |s.installed| {
        InstallKeepsInv(s, u);
      } else {
        LostSwap(s.installed, s.updaters[u]);
        OwnersStay(s.installed, s.updaters, s'.updaters);
      }
  }

  lemma OwnersStay(installed: seq<int>, before: map<nat, Updater>, after: map<nat, Updater>)
    requires Owned(installed, before)
    requires forall w :: w in before ==> w in after && after[w].version == before[w].version
    ensures Owned(installed, after)
  {
  }

  lemma {:induction false} RunKeepsInv(run: seq<Sys>, n: nat)
    requires IsRun(run) && n < |run|
    ensures Inv(run[n])
  {
    if n > 0 {
      RunKeepsInv(run, n - 1);
      assert StepAt(run, n - 1);
      var step :| Enabled(run[n - 1], step) && run[n] == Apply(run[n - 1], step);
      StepKeepsInv(run[n - 1], step);
    }
  }

  /** When every updater has returned, the store holds the highest version
      submitted, whatever the interleaving. */
  lemma HighestWins(run: seq<Sys>, n: nat)
    requires IsRun(run) && n < |run| && run[n].updaters != map[]
    requires forall u :: u in run[n].updaters ==> run[n].updaters[u].phase.Finished?
    ensures var s := run[n];
      && s.installed != []
      && (exists u :: u in s.updaters && s.updaters[u].version == s.installed[|s.installed| - 1])
      && (forall u :: u in s.updaters ==> s.updaters[u].version <= s.installed[|s.installed| - 1])
  {
    RunKeepsInv(run, n);
    var s := run[n];
    var last := |s.installed| - 1;
    forall u | u in s.updaters ensures s.installed != [] && s.updaters[u].version <= s.installed[last] {
      assert UpdaterOk(s.installed, s.updaters[u]);
    }
    var any :| any in s.updaters;
    assert s.installed[last] in s.installed;
  }

  /** Installed versions only rise; an applied update was installed; a stale
      error means a version at least as new had been; and an updater loses at
      most one swap more than there are versions from the first one installed
      up to its own. */
  lemma UpdatesLinearize(run: seq<Sys>, n: nat, u: nat)
    requires IsRun(run) && n < |run| && u in run[n].updaters
    ensures Increasing(run[n].installed)
    ensures var x, s := run[n].updaters[u], run[n];
      && (x.phase == Finished(Applied) ==> x.version in s.installed)
      && (x.phase == Finished(ErrStaleSnapshot) ==> exists v :: v in s.installed && v >= x.version)
      && FewRetries(s.installed, x)
  {
    RunKeepsInv(run, n);
    var s := run[n];
    assert UpdaterOk(s.installed, s.updaters[u]);
    if s.updaters[u].phase == Finished(ErrStaleSnapshot) {
      assert s.installed[|s.installed| - 1] in s.installed;
    }
  }
}
