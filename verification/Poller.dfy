/** dataplane/internal/config/poller.go: the poll loop and its backoff. */
module Poller {
  import opened Basics
  import opened Tables
  import opened PlaneConfig
  import Store

  // ---------------------------------------------------------------- backoff

  function Pow2(k: nat): int
    ensures Pow2(k) >= 1
  {
    if k == 0 then 1 else 2 * Pow2(k - 1)
  }

  const TWO_63 := 0x8000_0000_0000_0000
  const TWO_64 := 0x1_0000_0000_0000_0000
  const MILLISECOND := 1_000_000

  /** A 64-bit two's complement value of n: shifting left drops high bits. */
  function Wrap64(n: int): (r: int)
    ensures -TWO_63 <= r < TWO_63
    ensures -TWO_63 <= n < TWO_63 ==> r == n
  {
    var m := n % TWO_64;
    if m < TWO_63 then m else m - TWO_64
  }

  function Min(a: int, b: int): int {
    if a < b then a else b
  }

  function MinBackoff(configured: int): int {
    if configured <= 0 then 500 * MILLISECOND else configured
  }

  function MaxBackoff(configured: int): int {
    if configured <= 0 then 10_000 * MILLISECOND else configured
  }

  /** The upper end of the wait after the given number of failures in a row. */
  method BackoffCeiling(minConfigured: int, maxConfigured: int, failures: nat) returns (c: int)
    requires failures >= 1 && minConfigured < TWO_63
    ensures c == Ceiling(if minConfigured > 0 then minConfigured else 500_000_000,
                         if maxConfigured > 0 then maxConfigured else 10_000_000_000, failures)
  {
    var lo, hi := MinBackoff(minConfigured), MaxBackoff(maxConfigured);
    c := Wrap64(lo * Pow2(Min(failures - 1, 20)));
    if c <= 0 || c > hi {
      c := hi;
    }
  }

  ghost function Ceiling(lo: int, hi: int, failures: nat): int
    requires failures >= 1
  {
    var shifted := Wrap64(lo * Pow2(Min(failures - 1, 20)));
    if shifted <= 0 || shifted > hi then hi else shifted
  }

  lemma ScaledMonotone(lo: int, j: nat, k: nat)
    requires lo > 0 && j <= k
    ensures 0 < lo * Pow2(j) <= lo * Pow2(k)
  {
  }

  /** k doublings of lo either stay below hi, or do not wrap around to something
      below it: their remainder modulo 2^64 is 0 or at least hi. */
  predicate ShiftSound(lo: int, hi: int, k: nat) {
    lo * Pow2(k) < hi || !(0 < lo * Pow2(k) % TWO_64 < hi)
  }

  /** What the code's two tests make of a shifted value. */
  lemma WrapExact(scaled: int, hi: int)
    requires 0 < scaled && 0 < hi < TWO_63
    ensures var w := Wrap64(scaled);
      (if w <= 0 || w > hi then hi else w) == Min(hi, scaled) <==> scaled < hi || !(0 < scaled % TWO_64 < hi)
  {
  }

  /** For any minimum and maximum, exactly when the ceiling is the doubling that
      stops after twenty failures, capped at the maximum. */
  lemma CeilingExact(lo: int, hi: int, failures: nat)
    requires 0 < lo < TWO_63 && 0 < hi < TWO_63 && failures >= 1
    ensures var k := Min(failures - 1, 20);
      Ceiling(lo, hi, failures) == Min(hi, lo * Pow2(k)) <==> ShiftSound(lo, hi, k)
    ensures var left := lo * Pow2(Min(failures - 1, 20)) % TWO_64;
      Ceiling(lo, hi, failures) == if 0 < left <= hi then left else hi
  {
    var k := Min(failures - 1, 20);
    ScaledMonotone(lo, 0, k);
    WrapExact(lo * Pow2(k), hi);
  }

  lemma Pow2At20()
    ensures Pow2(20) == 0x10_0000
  {
    assert Pow2(4) == 16;
    assert Pow2(8) == 256;
    assert Pow2(12) == 4096;
    assert Pow2(16) == 65536;
    assert Pow2(20) == 1048576;
  }

  /** For every minimum below 2^43 ns the shift cannot wrap at all. */
  lemma CeilingSafe(lo: int, hi: int, failures: nat)
    requires 0 < lo < 0x800_0000_0000 && 0 < hi < TWO_63 && failures >= 1
    ensures Ceiling(lo, hi, failures) == Min(hi, lo * Pow2(Min(failures - 1, 20)))
  {
    SmallFits(lo, Min(failures - 1, 20));
  }

  /** A minimum of 2^44 + 1 ns wraps to 2^20 ns: the wait would collapse to a
      millisecond instead of the maximum. */
  lemma CeilingWraps()
    ensures Ceiling(0x1000_0000_0001, 0x2000_0000_0000, 21) == 0x10_0000
    ensures Min(0x2000_0000_0000, 0x1000_0000_0001 * Pow2(20)) == 0x2000_0000_0000
  {
    Pow2At20();
    assert Min(21 - 1, 20) == 20;
  }

  /** The waits never shrink while failures go on. */
  lemma CeilingMonotone(lo: int, hi: int, m: nat, n: nat)
    requires 0 < lo < 0x800_0000_0000 && 0 < hi < TWO_63 && 1 <= m <= n
    ensures Ceiling(lo, hi, m) <= Ceiling(lo, hi, n)
  {
    CeilingSafe(lo, hi, m);
    CeilingSafe(lo, hi, n);
    ScaledMonotone(lo, Min(m - 1, 20), Min(n - 1, 20));
  }

  /** The documented min(max, min * 2^(n-1)). */
  ghost predicate Documented(lo: int, hi: int, n: nat)
    requires n >= 1
  {
    Ceiling(lo, hi, n) == Min(hi, lo * Pow2(n - 1))
  }

  /** Once twenty doublings reach the maximum, so do more. */
  lemma StaysCapped(lo: int, hi: int, n: nat)
    requires lo > 0 && n > 21 && lo * Pow2(20) >= hi
    ensures Min(hi, lo * Pow2(n - 1)) == hi == Min(hi, lo * Pow2(20))
  {
    ScaledMonotone(lo, 20, n - 1);
  }

  /** If they do not, the ceiling stays behind from the twenty-second failure on. */
  lemma FallsBehind(lo: int, hi: int, n: nat)
    requires 0 < lo < TWO_63 && 0 < hi < TWO_63 && n > 21 && lo * Pow2(20) < hi
    ensures !Documented(lo, hi, n)
  {
    CeilingExact(lo, hi, n);
    ScaledMonotone(lo, 21, n - 1);
    ScaledMonotone(lo, 0, 20);
    Doubled(lo);
  }

  lemma Doubled(lo: int)
    ensures lo * Pow2(21) == 2 * (lo * Pow2(20))
  {
    assert Pow2(21) == 2 * Pow2(20);
  }

  /** For one failure count, any minimum and any maximum. */
  lemma DocumentedAt(lo: int, hi: int, n: nat)
    requires 0 < lo < TWO_63 && 0 < hi < TWO_63 && n >= 1
    ensures Documented(lo, hi, n) <==> ShiftSound(lo, hi, Min(n - 1, 20)) && (n > 21 ==> lo * Pow2(20) >= hi)
  {
    CeilingExact(lo, hi, n);
    if n > 21 {
      if lo * Pow2(20) >= hi { StaysCapped(lo, hi, n); } else { FallsBehind(lo, hi, n); }
    }
  }

  /** The documented formula holds for every failure count exactly when twenty
      doublings of the minimum reach the maximum and none of them wraps around
      to less. */
  lemma DocumentedFormula(lo: int, hi: int)
    requires 0 < lo < TWO_63 && 0 < hi < TWO_63
    ensures (forall n: nat :: n >= 1 ==> Documented(lo, hi, n)) <==>
      lo * Pow2(20) >= hi && forall k: nat :: k <= 20 ==> ShiftSound(lo, hi, k)
  {
    if forall n: nat :: n >= 1 ==> Documented(lo, hi, n) {
      DocumentedAt(lo, hi, 22);
      forall k: nat | k <= 20 ensures ShiftSound(lo, hi, k) {
        assert Documented(lo, hi, k + 1);
        DocumentedAt(lo, hi, k + 1);
      }
    } else {
      var n: nat :| n >= 1 && !Documented(lo, hi, n);
      DocumentedAt(lo, hi, n);
    }
  }

  /** Below 2^43 ns nothing wraps, and reaching the maximum is the condition. */
  lemma DocumentedForSmall(lo: int, hi: int)
    requires 0 < lo < 0x800_0000_0000 && 0 < hi < TWO_63
    ensures (forall n: nat :: n >= 1 ==> Documented(lo, hi, n)) <==> lo * Pow2(20) >= hi
  {
    DocumentedFormula(lo, hi);
    forall k: nat | k <= 20 ensures ShiftSound(lo, hi, k) {
      SmallFits(lo, k);
    }
  }

  lemma SmallFits(lo: int, k: nat)
    requires 0 < lo < 0x800_0000_0000 && k <= 20
    ensures 0 < lo * Pow2(k) < TWO_63
  {
    ScaledMonotone(lo, k, 20);
    Pow2At20();
    ScaledMonotone(lo, 0, k);
  }

  // --------------------------------------------------------------- the loop

  datatype Fetch = Failed | NotModified | Got(snap: Snapshot)

  /** What follows one answer: the next long-poll at once, a short pause after
      a stale snapshot, or a backoff after so many failures in a row. */
  datatype Pause = AtOnce | Short | Backoff(failures: nat)

  /** How many failures in a row end with the i-th answer. */
  function Streak(fetches: seq<Fetch>, i: nat): nat
    requires i < |fetches|
  {
    if !fetches[i].Failed? then 0
    else if i == 0 then 1
    else 1 + Streak(fetches, i - 1)
  }

  function VersionOf(cur: Option<View>): int {
    if cur.Some? then cur.value.version else -1
  }

  /** The newest version seen before the i-th fetch, starting from v. */
  function Newest(v: int, fetches: seq<Fetch>, i: nat): int
    requires i <= |fetches|
  {
    if i == 0 then v
    else
      var before := Newest(v, fetches, i - 1);
      if fetches[i - 1].Got? then Max(before, fetches[i - 1].snap.version) else before
  }

  /** What follows the i-th answer, when the fetch asked for what is newer
      than `asked`. */
  function After(fetches: seq<Fetch>, asked: int, i: nat): Pause
    requires i < |fetches|
  {
    match fetches[i]
    case Failed => Backoff(Streak(fetches, i))
    case NotModified => AtOnce
    case Got(snap) => if snap.version <= asked then Short else AtOnce
  }

  /** What the first n fetches ask for, and what follows their answers. */
  function AskedUpTo(v: int, fetches: seq<Fetch>, n: nat): seq<int>
    requires n <= |fetches|
  {
    if n == 0 then [] else AskedUpTo(v, fetches, n - 1) + [Newest(v, fetches, n - 1)]
  }

  function PausesUpTo(v: int, fetches: seq<Fetch>, n: nat): seq<Pause>
    requires n <= |fetches|
  {
    if n == 0 then [] else PausesUpTo(v, fetches, n - 1) + [After(fetches, Newest(v, fetches, n - 1), n - 1)]
  }

  /** One turn of the loop, once an answer is in. */
  method Handle(store: Store.Store, fetch: Fetch, after: int, failures: nat)
      returns (after': int, failures': nat, pause: Pause)
    requires fetch.Got? ==> fetch.snap.version >= 1
    requires after == VersionOf(store.cur) && (store.cur.Some? ==> after >= 1)
    modifies store
    ensures after' == VersionOf(store.cur) == (if fetch.Got? then Max(after, fetch.snap.version) else after)
    ensures store.cur.Some? ==> after' >= 1
    ensures failures' == if fetch.Failed? then failures + 1 else 0
    ensures pause == if fetch.Failed? then Backoff(failures + 1)
                     else if fetch.Got? && fetch.snap.version <= after then Short else AtOnce
  {
    after' := after;
    var stale := false;
    if fetch.Got? {
      var r := store.Update(fetch.snap);
      match r
      case ErrStaleSnapshot => stale := true;
      case Applied => after' := fetch.snap.version;
    }
    if !fetch.Failed? {
      failures' := 0;
      pause := if stale then Short else AtOnce;
    } else {
      failures' := failures + 1;
      pause := Backoff(failures');
    }
  }

  /** Run over a finite sequence of answers.  Every fetch asks for what is
      newer than the newest version seen; the failure count restarts after
      every answer that is no failure; the store ends at the newest version. */
  method Run(store: Store.Store, fetches: seq<Fetch>) returns (asked: seq<int>, pauses: seq<Pause>)
    requires forall i :: 0 <= i < |fetches| && fetches[i].Got? ==> fetches[i].snap.version >= 1
    requires store.cur.Some? ==> store.cur.value.version >= 1
    modifies store
    ensures asked == AskedUpTo(old(VersionOf(store.cur)), fetches, |fetches|)
    ensures pauses == PausesUpTo(old(VersionOf(store.cur)), fetches, |fetches|)
    ensures VersionOf(store.cur) == Newest(old(VersionOf(store.cur)), fetches, |fetches|)
  {
    var after := -1;
    if store.cur.Some? {
      after := store.cur.value.version;
    }
    ghost var v := after;
    var failures := 0;
    asked, pauses := [], [];
    var i := 0;
    while i < |fetches|
      invariant 0 <= i <= |fetches|
      invariant after == VersionOf(store.cur) == Newest(v, fetches, i)
      invariant store.cur.Some? ==> after >= 1
      invariant failures == if i == 0 then 0 else Streak(fetches, i - 1)
      invariant asked == AskedUpTo(v, fetches, i) && pauses == PausesUpTo(v, fetches, i)
    {
      asked := asked + [after];
      var pause;
      after, failures, pause := Handle(store, fetches[i], after, failures);
      pauses := pauses + [pause];
      i := i + 1;
    }
  }

  /** The i-th fetch asks for what is newer than the newest version before it,
      and its answer decides the pause on its own and the streak it ends. */
  lemma {:induction false} RunMeaning(v: int, fetches: seq<Fetch>, n: nat, i: nat)
    requires i < n <= |fetches|
    ensures |AskedUpTo(v, fetches, n)| == |PausesUpTo(v, fetches, n)| == n
    ensures AskedUpTo(v, fetches, n)[i] == Newest(v, fetches, i)
    ensures PausesUpTo(v, fetches, n)[i] == After(fetches, Newest(v, fetches, i), i)
    decreases n
  {
    if i < n - 1 {
      RunMeaning(v, fetches, n - 1, i);
    } else if n > 1 {
      RunMeaning(v, fetches, n - 1, 0);
    }
  }

  /** Streak counts exactly the failures since the last other answer. */
  lemma {:induction false} StreakMeaning(fetches: seq<Fetch>, i: nat)
    requires i < |fetches|
    ensures Streak(fetches, i) <= i + 1
    ensures forall j :: i - Streak(fetches, i) < j <= i ==> fetches[j].Failed?
    ensures Streak(fetches, i) <= i ==> !fetches[i - Streak(fetches, i)].Failed?
  {
    if fetches[i].Failed? && i > 0 {
      StreakMeaning(fetches, i - 1);
    }
  }

  /** Newest is the maximum of the start version and all versions fetched. */
  lemma {:induction false} NewestMeaning(v: int, fetches: seq<Fetch>, i: nat)
    requires i <= |fetches|
    ensures Newest(v, fetches, i) >= v
    ensures forall j :: 0 <= j < i && fetches[j].Got? ==> fetches[j].snap.version <= Newest(v, fetches, i)
    ensures Newest(v, fetches, i) == v ||
      exists j :: 0 <= j < i && fetches[j].Got? && fetches[j].snap.version == Newest(v, fetches, i)
  {
    if i > 0 {
      NewestMeaning(v, fetches, i - 1);
    }
  }
}
