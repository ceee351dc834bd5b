/** control-plane/src/controlplane/configstate: the watcher, the snapshot cache
    and the long-poll handler as the objects one replica runs. */
module ConfigState {
  import opened Basics
  import opened Tables
  import opened PlaneConfig
  import opened Propagation

  /** The version a watcher holds after applying all these reads. */
  function LastRead(version: int, polls: seq<int>): int {
    if polls == [] then version else polls[|polls| - 1]
  }

  /** The same over whole batches of reads. */
  function AfterBatches(version: int, batches: seq<seq<int>>): int {
    if batches == [] then version
    else LastRead(AfterBatches(version, batches[..|batches| - 1]), batches[|batches| - 1])
  }

  ghost predicate NoneAbove(batches: seq<seq<int>>, bound: int) {
    forall i, j :: 0 <= i < |batches| && 0 <= j < |batches[i]| ==> batches[i][j] <= bound
  }

  lemma {:induction false} BatchesBounded(version: int, batches: seq<seq<int>>, bound: int)
    requires version <= bound && NoneAbove(batches, bound)
    ensures AfterBatches(version, batches) <= bound
  {
    if batches != [] {
      BatchesBounded(version, batches[..|batches| - 1], bound);
    }
  }

  /** event identifies the asyncio.Event that waiters park on: setting the
      current event and replacing it moves to the next number. */
  class VersionWatcher {
    var version: int
    var event: nat

    constructor ()
      ensures version == NEW_REPLICA.watch && event == NEW_REPLICA.event
    {
      version, event := 0, 0;
    }

    /** poll_once, given the version its query read. */
    method PollOnce(read: int)
      modifies this
      ensures var before := Replica(old(version), old(event), Some(read), None, Free);
        Polled(before, read) == Replica(version, event, None, None, Free)
      ensures version == read && (event == old(event) <==> read == old(version))
    {
      if read != version {
        version, event := read, event + 1;
      }
    }

    method PollAll(polls: seq<int>)
      modifies this
      ensures version == LastRead(old(version), polls)
      ensures event >= old(event)
      ensures event == old(event) ==> version == old(version)
    {
      for i := 0 to |polls|
        invariant version == LastRead(old(version), polls[..i])
        invariant event >= old(event)
        invariant event == old(event) ==> version == old(version)
      {
        PollOnce(polls[i]);
      }
    }

    /** wait_newer: the waiter sleeps on the event it saw, and only a set event
        or the timeout resumes it.  Each batch holds the polls that happen
        before it may be resumed; the timeout passes after the last batch.
        Sleeping on the event is as good as looking at the version after every
        batch: the wait ends at the first batch that leaves a newer version. */
    method WaitNewer(after: int, batches: seq<seq<int>>) returns (newer: bool, used: nat)
      modifies this
      ensures used <= |batches|
      ensures version == AfterBatches(old(version), batches[..used])
      ensures newer <==> version > after
      ensures !newer ==> used == |batches|
      ensures forall k :: 0 <= k < used ==> AfterBatches(old(version), batches[..k]) <= after
    {
      used := 0;
      while version <= after && used < |batches|
        invariant used <= |batches|
        invariant version == AfterBatches(old(version), batches[..used])
        invariant forall k :: 0 <= k < used ==> AfterBatches(old(version), batches[..k]) <= after
        decreases |batches| - used
      {
        var changed := event;
        ghost var start := used;
        while event == changed && used < |batches|
          invariant start <= used <= |batches| && event >= changed
          invariant used == start ==> event == changed
          invariant version == AfterBatches(old(version), batches[..used])
          invariant event == changed ==> version <= after
          invariant forall k :: 0 <= k < used ==> AfterBatches(old(version), batches[..k]) <= after
          decreases |batches| - used
        {
          PollAll(batches[used]);
          assert batches[..used + 1][..used] == batches[..used];
          used := used + 1;
        }
      }
      newer := version > after;
    }
  }

  class SnapshotService {
    const watcher: VersionWatcher
    var cached: Option<Snapshot>

    constructor (watcher: VersionWatcher)
      ensures this.watcher == watcher && cached == None
    {
      this.watcher, cached := watcher, None;
    }

    /** current: the cache while it is at least as new as the watcher, and
        otherwise one fresh read of the database, which becomes the cache. */
    method Current(db: DB, order: RowOrder) returns (snap: Snapshot)
      requires Answers(db, order)
      modifies this
      ensures cached == Some(snap)
      ensures var before := Replica(watcher.version, watcher.event, None, old(cached), Free);
        snap == if Fresh(before) then before.cached.value else ReadSnapshot(db, order)
      ensures var still := old(cached).Some? && old(cached).value.version >= watcher.version;
        (still ==> snap == old(cached).value) && (!still ==> snap == ReadSnapshot(db, order))
      ensures db.version >= watcher.version ==> snap.version >= watcher.version
    {
      if cached.Some? && cached.value.version >= watcher.version {
        return cached.value;
      }
      snap := ReadSnapshot(db, order);
      cached := Some(snap);
    }

    /** get_snapshot: wait, answer from current, decide.  When no poll reads
        past the database, the answer is "not modified" exactly when the wait
        timed out, and a body is never older than the version that woke it. */
    method GetSnapshot(after: Option<int>, batches: seq<seq<int>>, db: DB, order: RowOrder) returns (answer: Answer)
      requires Answers(db, order)
      requires watcher.version <= db.version && NoneAbove(batches, db.version)
      modifies this, watcher
      ensures answer.NotModified? <==> after.Some? && watcher.version <= after.value
      ensures answer.NotModified? ==> watcher.version == AfterBatches(old(watcher.version), batches)
      ensures answer.Body? ==> answer.snap.version >= watcher.version && cached == Some(answer.snap)
      ensures answer.Body? && after.Some? ==> answer.snap.version > after.value
      ensures answer.Body? ==> Some(answer.snap) == old(cached) || answer.snap == ReadSnapshot(db, order)
    {
      if after.Some? && watcher.version <= after.value {
        var newer, used := watcher.WaitNewer(after.value, batches);
        BatchesBounded(old(watcher.version), batches[..used], db.version);
        if !newer {
          assert batches[..used] == batches;
          return NotModified;
        }
      }
      var snap := Current(db, order);
      answer := Decide(after, snap);
    }
  }
}
