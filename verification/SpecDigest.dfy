/** dataplane/internal/executor/executor.go: the text that identifies what a
    module is compiled under, and when two specs share it. */
module SpecDigest {
  import opened Sorting
  import opened Text
  import opened Tables

  /** sandbox.ModuleSpec. */
  datatype Spec = Spec(pages: nat, timeoutMs: nat, functions: seq<string>)

  /** Hook validation keeps every timeout within half a minute. */
  predicate Timed(s: Spec) {
    0 < s.timeoutMs <= 30000
  }

  // ------------------------------------------------- time.Duration.String

  /** The fraction with these three digits, without trailing zeros. */
  function Trimmed(a: nat, b: nat, c: nat): string
    requires a < 10 && b < 10 && c < 10
  {
    if c > 0 then ['.', Digit(a), Digit(b), Digit(c)]
    else if b > 0 then ['.', Digit(a), Digit(b)]
    else if a > 0 then ['.', Digit(a)]
    else ""
  }

  /** The fractional seconds of f milliseconds. */
  function Fraction(f: nat): string
    requires f < 1000
  {
    Trimmed(f / 100, f / 10 % 10, f % 10)
  }

  /** Duration.String of a whole number of milliseconds below a minute. */
  function Duration(ms: nat): string
    requires 0 < ms < 60000
  {
    if ms < 1000 then Decimal(ms) + "ms" else Decimal(ms / 1000) + (Fraction(ms % 1000) + "s")
  }

  lemma TrimmedInjective(a: nat, b: nat, c: nat, x: nat, y: nat, z: nat)
    requires a < 10 && b < 10 && c < 10 && x < 10 && y < 10 && z < 10
    requires Trimmed(a, b, c) == Trimmed(x, y, z)
    ensures a == x && b == y && c == z
  {
  }

  lemma ThreeDigits(f: nat)
    requires f < 1000
    ensures f == 100 * (f / 100) + 10 * (f / 10 % 10) + f % 10
  {
    assert f / 100 == f / 10 / 10;
  }

  lemma FractionInjective(f: nat, g: nat)
    requires f < 1000 && g < 1000 && Fraction(f) == Fraction(g)
    ensures f == g
  {
    TrimmedInjective(f / 100, f / 10 % 10, f % 10, g / 100, g / 10 % 10, g % 10);
    ThreeDigits(f);
    ThreeDigits(g);
  }

  /** What follows the leading digits of a duration. */
  function Unit(ms: nat): string {
    if ms < 1000 then "ms" else Fraction(ms % 1000) + "s"
  }

  lemma UnitShape(ms: nat)
    ensures Unit(ms) != [] && !IsDigit(Unit(ms)[0])
    ensures ms < 1000 <==> Unit(ms)[0] == 'm'
    ensures forall i :: 0 <= i < |Unit(ms)| ==> Unit(ms)[i] != '/'
  {
  }

  lemma DurationInjective(a: nat, b: nat)
    requires 0 < a < 60000 && 0 < b < 60000 && Duration(a) == Duration(b)
    ensures a == b
  {
    var x, y := if a < 1000 then a else a / 1000, if b < 1000 then b else b / 1000;
    UnitShape(a);
    UnitShape(b);
    assert Decimal(x) + Unit(a) == Decimal(y) + Unit(b);
    DigitsEnd(Decimal(x), Unit(a), Decimal(y), Unit(b));
    DecimalInjective(x, y);
    if a >= 1000 {
      assert Unit(a)[..|Unit(a)| - 1] == Fraction(a % 1000);
      assert Unit(b)[..|Unit(b)| - 1] == Fraction(b % 1000);
      FractionInjective(a % 1000, b % 1000);
    }
  }

  // ------------------------------------------------------------- the digest

  function Digest(s: Spec): string
    requires Timed(s)
  {
    Decimal(s.pages) + (['/'] + (Duration(s.timeoutMs) + (['/'] + Join(Sort(StringLe, s.functions), [',']))))
  }

  lemma NoSlashes(pages: nat, ms: nat)
    requires 0 < ms < 60000
    ensures '/' !in Decimal(pages) && '/' !in Duration(ms)
  {
    var n := if ms < 1000 then ms else ms / 1000;
    UnitShape(ms);
    assert Duration(ms) == Decimal(n) + Unit(ms);
  }

  /** Exactly which specs share a digest: the limits are always told apart,
      and function lists up to order and up to how names break at commas. */
  lemma DigestEqual(s: Spec, t: Spec)
    requires Timed(s) && Timed(t)
    ensures Digest(s) == Digest(t) <==>
      s.pages == t.pages && s.timeoutMs == t.timeoutMs
      && Pieces(Sort(StringLe, s.functions), ',') == Pieces(Sort(StringLe, t.functions), ',')
  {
    var fs, gs := Sort(StringLe, s.functions), Sort(StringLe, t.functions);
    JoinEqual(fs, gs, ',');
    if Digest(s) == Digest(t) {
      NoSlashes(s.pages, s.timeoutMs);
      NoSlashes(t.pages, t.timeoutMs);
      var x, y := Duration(s.timeoutMs) + (['/'] + Join(fs, [','])), Duration(t.timeoutMs) + (['/'] + Join(gs, [',']));
      CutAtFirst(Decimal(s.pages), x, Decimal(t.pages), y, '/');
      DecimalInjective(s.pages, t.pages);
      CutAtFirst(Duration(s.timeoutMs), Join(fs, [',']), Duration(t.timeoutMs), Join(gs, [',']), '/');
      DurationInjective(s.timeoutMs, t.timeoutMs);
    }
  }

  /** Equal up to the order in which functions are listed: what the digest is
      meant to capture, and all that compiling depends on. */
  ghost predicate SameSpec(s: Spec, t: Spec) {
    s.pages == t.pages && s.timeoutMs == t.timeoutMs && multiset(s.functions) == multiset(t.functions)
  }

  predicate PlainNames(s: Spec) {
    forall i :: 0 <= i < |s.functions| ==> Plain(s.functions[i], ',')
  }

  lemma SortedStaysPlain(s: Spec)
    requires PlainNames(s)
    ensures forall x :: x in Sort(StringLe, s.functions) ==> Plain(x, ',')
  {
    StringOrder();
    SortSorts(StringLe, s.functions);
    forall x | x in Sort(StringLe, s.functions) ensures Plain(x, ',') {
      assert x in multiset(Sort(StringLe, s.functions));
      assert x in s.functions;
    }
  }

  /** For names that are neither empty nor contain a comma, equal digests mean
      equal specs, up to the order of the list. */
  lemma DigestIdentifies(s: Spec, t: Spec)
    requires Timed(s) && Timed(t) && PlainNames(s) && PlainNames(t)
    ensures Digest(s) == Digest(t) <==> SameSpec(s, t)
  {
    DigestEqual(s, t);
    StringOrder();
    SortCanonical(StringLe, s.functions, t.functions);
    SortedStaysPlain(s);
    SortedStaysPlain(t);
    var fs, gs := Sort(StringLe, s.functions), Sort(StringLe, t.functions);
    PiecesPlain(fs, ',');
    PiecesPlain(gs, ',');
    assert fs != [] ==> fs[0] in fs;
    assert gs != [] ==> gs[0] in gs;
  }

  /** Without that condition it fails both ways a name can be malformed. */
  lemma DigestCollides(pages: nat)
    ensures Digest(Spec(pages, 1, ["a,b"])) == Digest(Spec(pages, 1, ["a", "b"]))
    ensures !SameSpec(Spec(pages, 1, ["a,b"]), Spec(pages, 1, ["a", "b"]))
    ensures Digest(Spec(pages, 1, [])) == Digest(Spec(pages, 1, [""]))
    ensures !SameSpec(Spec(pages, 1, []), Spec(pages, 1, [""]))
  {
    assert Sort(StringLe, ["b"]) == ["b"];
    assert Sort(StringLe, ["a,b"]) == ["a,b"];
    assert Sort(StringLe, ["a", "b"]) == ["a", "b"];
    assert Join(["a", "b"], ",") == "a" + "," + Join(["b"], ",") == "a,b";
    assert Sort(StringLe, [""]) == [""];
    assert |multiset(["a,b"])| == 1 && |multiset(["a", "b"])| == 2;
    assert |multiset([""])| == 1;
  }

  // --------------------------------------------------------------- the keys

  /** modKey. */
  datatype ModKey = ModKey(hash: string, spec: string)

  function KeyOf(hash: string, s: Spec): ModKey
    requires Timed(s)
  {
    ModKey(hash, Digest(s))
  }

  /** The name under which concurrent compiles of one key are merged. */
  function FlightName(k: ModKey): string {
    k.hash + (['|'] + k.spec)
  }

  /** Flights of different keys never merge: a content hash has no bar. */
  lemma FlightNameIdentifies(k: ModKey, l: ModKey)
    requires IsModuleHash(k.hash) && IsModuleHash(l.hash)
    ensures FlightName(k) == FlightName(l) <==> k == l
  {
    if FlightName(k) == FlightName(l) {
      assert FlightName(k)[..71] == k.hash && FlightName(l)[..71] == l.hash;
      assert FlightName(k)[72..] == k.spec && FlightName(l)[72..] == l.spec;
    }
  }
}
