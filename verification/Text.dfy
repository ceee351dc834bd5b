/** Sorting by a total order, and the strings the code sorts, joins and prints. */
module Sorting {

  ghost predicate TotalOrder<T(!new)>(le: (T, T) -> bool) {
    && (forall x, y :: le(x, y) || le(y, x))
    && (forall x, y :: le(x, y) && le(y, x) ==> x == y)
    && (forall x, y, z :: le(x, y) && le(y, z) ==> le(x, z))
  }

  ghost predicate Sorted<T>(le: (T, T) -> bool, xs: seq<T>) {
    forall i, j :: 0 <= i < j < |xs| ==> le(xs[i], xs[j])
  }

  function Insert<T>(le: (T, T) -> bool, x: T, xs: seq<T>): seq<T> {
    if xs == [] then [x]
    else if le(x, xs[0]) then [x] + xs
    else [xs[0]] + Insert(le, x, xs[1..])
  }

  function Sort<T>(le: (T, T) -> bool, xs: seq<T>): seq<T> {
    if xs == [] then [] else Insert(le, xs[0], Sort(le, xs[1..]))
  }

  lemma {:induction false} InsertAdds<T>(le: (T, T) -> bool, x: T, xs: seq<T>)
    ensures multiset(Insert(le, x, xs)) == multiset(xs) + multiset{x}
  {
    if xs != [] {
      assert xs == [xs[0]] + xs[1..];
      if !le(x, xs[0]) {
        InsertAdds(le, x, xs[1..]);
      }
    }
  }

  lemma {:induction false} InsertKeeps<T(!new)>(le: (T, T) -> bool, x: T, xs: seq<T>)
    requires TotalOrder(le) && Sorted(le, xs)
    ensures Sorted(le, Insert(le, x, xs))
  {
    if xs != [] && !le(x, xs[0]) {
      InsertKeeps(le, x, xs[1..]);
      InsertAdds(le, x, xs[1..]);
      var rest := Insert(le, x, xs[1..]);
      forall i | 0 <= i < |rest| ensures le(xs[0], rest[i]) {
        assert rest[i] in multiset(rest);
        assert rest[i] == x || rest[i] in xs[1..];
      }
    }
  }

  lemma {:induction false} SortSorts<T(!new)>(le: (T, T) -> bool, xs: seq<T>)
    requires TotalOrder(le)
    ensures Sorted(le, Sort(le, xs))
    ensures multiset(Sort(le, xs)) == multiset(xs)
  {
    if xs != [] {
      SortSorts(le, xs[1..]);
      InsertKeeps(le, xs[0], Sort(le, xs[1..]));
      InsertAdds(le, xs[0], Sort(le, xs[1..]));
      assert xs == [xs[0]] + xs[1..];
    }
  }

  /** There is one sorted arrangement of a multiset. */
  lemma {:induction false} SortedUnique<T(!new)>(le: (T, T) -> bool, xs: seq<T>, ys: seq<T>)
    requires TotalOrder(le) && Sorted(le, xs) && Sorted(le, ys)
    requires multiset(xs) == multiset(ys)
    ensures xs == ys
  {
    assert |xs| == |multiset(xs)| == |ys|;
    if xs != [] {
      HeadIsLeast(le, xs, ys[0]);
      HeadIsLeast(le, ys, xs[0]);
      HeadAndTail(xs);
      HeadAndTail(ys);
      SortedUnique(le, xs[1..], ys[1..]);
    }
  }

  lemma HeadAndTail<T>(xs: seq<T>)
    requires xs != []
    ensures xs == [xs[0]] + xs[1..] && multiset(xs) == multiset{xs[0]} + multiset(xs[1..])
    ensures multiset(xs[1..]) == multiset(xs) - multiset{xs[0]} && xs[0] in multiset(xs)
  {
    assert xs == [xs[0]] + xs[1..];
  }

  lemma HeadIsLeast<T(!new)>(le: (T, T) -> bool, xs: seq<T>, x: T)
    requires TotalOrder(le) && Sorted(le, xs) && x in multiset(xs)
    ensures xs != [] && le(xs[0], x)
  {
    var i :| 0 <= i < |xs| && xs[i] == x;
  }

  /** Sorting forgets the order of its input, and nothing else. */
  lemma SortCanonical<T(!new)>(le: (T, T) -> bool, xs: seq<T>, ys: seq<T>)
    requires TotalOrder(le)
    ensures Sort(le, xs) == Sort(le, ys) <==> multiset(xs) == multiset(ys)
  {
    SortSorts(le, xs);
    SortSorts(le, ys);
    if multiset(xs) == multiset(ys) {
      SortedUnique(le, Sort(le, xs), Sort(le, ys));
    }
  }
}

module Text {
  import opened Sorting

  /** strings.Compare(a, b) <= 0. */
  predicate StringLe(a: string, b: string) {
    a == [] || (b != [] && (a[0] < b[0] || (a[0] == b[0] && StringLe(a[1..], b[1..]))))
  }

  lemma {:induction false} StringLeTotal(a: string, b: string)
    ensures StringLe(a, b) || StringLe(b, a)
  {
    if a != [] && b != [] {
      StringLeTotal(a[1..], b[1..]);
    }
  }

  lemma {:induction false} StringLeAntisymmetric(a: string, b: string)
    requires StringLe(a, b) && StringLe(b, a)
    ensures a == b
  {
    if a != [] && b != [] {
      StringLeAntisymmetric(a[1..], b[1..]);
      assert a == [a[0]] + a[1..] && b == [b[0]] + b[1..];
    }
  }

  lemma {:induction false} StringLeTransitive(a: string, b: string, c: string)
    requires StringLe(a, b) && StringLe(b, c)
    ensures StringLe(a, c)
  {
    if a != [] && a[0] == b[0] && b[0] == c[0] {
      StringLeTransitive(a[1..], b[1..], c[1..]);
    }
  }

  lemma StringOrder()
    ensures TotalOrder(StringLe)
  {
    forall a, b ensures StringLe(a, b) || StringLe(b, a) { StringLeTotal(a, b); }
    forall a, b | StringLe(a, b) && StringLe(b, a) ensures a == b { StringLeAntisymmetric(a, b); }
    forall a, b, c | StringLe(a, b) && StringLe(b, c) ensures StringLe(a, c) { StringLeTransitive(a, b, c); }
  }

  /** Lexicographic: b goes on where a ends, or has the greater character where
      they first differ. */
  lemma {:induction false} StringLeMeaning(a: string, b: string)
    ensures StringLe(a, b) <==> a <= b || exists k: nat :: k < |a| && k < |b| && a[..k] == b[..k] && a[k] < b[k]
  {
    if a != [] && b != [] {
      StringLeMeaning(a[1..], b[1..]);
      if a[0] == b[0] {
        if k: nat :| k < |a[1..]| && k < |b[1..]| && a[1..][..k] == b[1..][..k] && a[1..][k] < b[1..][k] {
          assert a[..k + 1] == [a[0]] + a[1..][..k] && b[..k + 1] == [b[0]] + b[1..][..k];
        }
        if k: nat :| k < |a| && k < |b| && a[..k] == b[..k] && a[k] < b[k] {
          assert k > 0;
          assert a[1..][..k - 1] == a[..k][1..] && b[1..][..k - 1] == b[..k][1..];
        }
        assert a == [a[0]] + a[1..] && b == [b[0]] + b[1..];
        assert a <= b <==> a[1..] <= b[1..];
      } else if a[0] < b[0] {
        assert a[..0] == b[..0];
      } else {
        assert forall k: nat :: 0 < k <= |a| && k <= |b| ==> a[..k][0] != b[..k][0];
      }
    }
  }

  // ------------------------------------------------------------- decimals

  function Digit(d: nat): char
    requires d < 10
  {
    "0123456789"[d]
  }

  predicate IsDigit(c: char) {
    '0' <= c <= '9'
  }

  /** strconv.FormatUint(n, 10). */
  function Decimal(n: nat): (s: string)
    ensures s != [] && forall i :: 0 <= i < |s| ==> IsDigit(s[i])
  {
    if n < 10 then [Digit(n)] else Decimal(n / 10) + [Digit(n % 10)]
  }

  lemma {:induction false} DecimalInjective(m: nat, n: nat)
    requires Decimal(m) == Decimal(n)
    ensures m == n
  {
    var s := Decimal(m);
    if m >= 10 && n >= 10 {
      assert s[..|s| - 1] == Decimal(m / 10) == Decimal(n / 10);
      DecimalInjective(m / 10, n / 10);
    }
  }

  function DigitValue(c: char): nat
    requires IsDigit(c)
  {
    c as int - '0' as int
  }

  /** The number a run of digits stands for. */
  function Value(s: string): nat
    requires forall i :: 0 <= i < |s| ==> IsDigit(s[i])
  {
    if s == [] then 0 else 10 * Value(s[..|s| - 1]) + DigitValue(s[|s| - 1])
  }

  /** The digits of n, in order, without a leading zero. */
  lemma {:induction false} DecimalMeaning(n: nat)
    ensures Value(Decimal(n)) == n
    ensures Decimal(n)[0] == '0' ==> n == 0 && Decimal(n) == "0"
  {
    var s := Decimal(n);
    if n >= 10 {
      DecimalMeaning(n / 10);
      assert s[..|s| - 1] == Decimal(n / 10);
    } else {
      assert s[..0] == [];
    }
  }

  /** A run of digits ends where the first other character stands. */
  lemma DigitsEnd(a: string, x: string, b: string, y: string)
    requires a + x == b + y
    requires forall i :: 0 <= i < |a| ==> IsDigit(a[i])
    requires forall i :: 0 <= i < |b| ==> IsDigit(b[i])
    requires x != [] && y != [] && !IsDigit(x[0]) && !IsDigit(y[0])
    ensures a == b && x == y
  {
    var s := a + x;
    assert s[|a|] == x[0] && s[|b|] == y[0];
    assert forall i :: 0 <= i < |a| ==> IsDigit(s[i]);
    assert forall i :: 0 <= i < |b| ==> s[i] == b[i];
    assert (a + x)[..|a|] == a && (b + y)[..|b|] == b;
    assert (a + x)[|a|..] == x && (b + y)[|b|..] == y;
  }

  /** Two texts whose first separator stands where a and b end. */
  lemma CutAtFirst(a: string, x: string, b: string, y: string, sep: char)
    requires a + ([sep] + x) == b + ([sep] + y)
    requires sep !in a && sep !in b
    ensures a == b && x == y
  {
    var s := a + ([sep] + x);
    assert s[|a|] == sep && s[|b|] == sep;
    assert forall i :: 0 <= i < |a| ==> s[i] == a[i];
    assert forall i :: 0 <= i < |b| ==> s[i] == b[i];
    assert a == s[..|a|] && b == s[..|b|];
    assert x == s[|a| + 1..] && y == s[|b| + 1..];
  }

  // ------------------------------------------------------ joining by commas

  /** strings.Join(xs, sep). */
  function Join(xs: seq<string>, sep: string): string {
    if xs == [] then [] else if |xs| == 1 then xs[0] else xs[0] + sep + Join(xs[1..], sep)
  }

  /** The pieces of s between its separators. */
  function Split(s: string, sep: char): (r: seq<string>)
    ensures r != []
    decreases s
  {
    if s == [] then [[]]
    else
      var rest := Split(s[1..], sep);
      if s[0] == sep then [[]] + rest else [[s[0]] + rest[0]] + rest[1..]
  }

  /** All the pieces of all the names; a list of none has one empty piece. */
  function Pieces(xs: seq<string>, sep: char): seq<string> {
    if xs == [] then [[]]
    else if |xs| == 1 then Split(xs[0], sep)
    else Split(xs[0], sep) + Pieces(xs[1..], sep)
  }

  lemma {:induction false} SplitJoint(a: string, b: string, sep: char)
    ensures Split(a + [sep] + b, sep) == Split(a, sep) + Split(b, sep)
  {
    if a == [] {
      assert a + [sep] + b == [sep] + b;
    } else {
      assert (a + [sep] + b)[1..] == a[1..] + [sep] + b;
      SplitJoint(a[1..], b, sep);
    }
  }

  /** Splitting a joined list gives its pieces back. */
  lemma {:induction false} SplitOfJoin(xs: seq<string>, sep: char)
    ensures Split(Join(xs, [sep]), sep) == Pieces(xs, sep)
  {
    if |xs| > 1 {
      SplitOfJoin(xs[1..], sep);
      SplitJoint(xs[0], Join(xs[1..], [sep]), sep);
    }
  }

  lemma {:induction false} JoinOfSplit(s: string, sep: char)
    ensures Join(Split(s, sep), [sep]) == s
  {
    if s != [] {
      JoinOfSplit(s[1..], sep);
      var rest := Split(s[1..], sep);
      if s[0] == sep {
        assert ([[]] + rest)[1..] == rest;
      } else {
        var r := [[s[0]] + rest[0]] + rest[1..];
        assert r[1..] == rest[1..];
        if |rest| > 1 {
          assert Join(r, [sep]) == [s[0]] + (rest[0] + [sep] + Join(rest[1..], [sep]));
        }
      }
    }
  }

  /** Two joined lists read the same exactly when their pieces are the same. */
  lemma JoinEqual(xs: seq<string>, ys: seq<string>, sep: char)
    ensures Join(xs, [sep]) == Join(ys, [sep]) <==> Pieces(xs, sep) == Pieces(ys, sep)
  {
    SplitOfJoin(xs, sep);
    SplitOfJoin(ys, sep);
    JoinOfSplit(Join(xs, [sep]), sep);
    JoinOfSplit(Join(ys, [sep]), sep);
  }

  predicate Plain(s: string, sep: char) {
    s != [] && sep !in s
  }

  lemma {:induction false} SplitPlain(s: string, sep: char)
    requires sep !in s
    ensures Split(s, sep) == [s]
  {
    if s != [] {
      SplitPlain(s[1..], sep);
      assert s == [s[0]] + s[1..];
    }
  }

  lemma {:induction false} PiecesPlain(xs: seq<string>, sep: char)
    requires forall x :: x in xs ==> Plain(x, sep)
    ensures Pieces(xs, sep) == if xs == [] then [[]] else xs
  {
    if xs != [] {
      assert xs[0] in xs;
      SplitPlain(xs[0], sep);
      assert xs == [xs[0]] + xs[1..];
      if |xs| > 1 {
        PiecesPlain(xs[1..], sep);
      }
    }
  }

  // -------------------------------------------------- sorted without repeats

  function InsertUnique(x: string, xs: seq<string>): seq<string> {
    if xs == [] then [x]
    else if x == xs[0] then xs
    else if StringLe(x, xs[0]) then [x] + xs
    else [xs[0]] + InsertUnique(x, xs[1..])
  }

  /** Python's sorted(set(xs)). */
  function SortedSet(xs: seq<string>): seq<string> {
    if xs == [] then [] else InsertUnique(xs[0], SortedSet(xs[1..]))
  }

  ghost predicate Increasing(xs: seq<string>) {
    forall i, j :: 0 <= i < j < |xs| ==> StringLe(xs[i], xs[j]) && xs[i] != xs[j]
  }

  lemma {:induction false} InsertUniqueKeeps(x: string, xs: seq<string>)
    requires Increasing(xs)
    ensures Increasing(InsertUnique(x, xs))
    ensures forall y :: y in InsertUnique(x, xs) <==> y == x || y in xs
  {
    StringOrder();
    if xs != [] {
      assert xs == [xs[0]] + xs[1..];
      if x != xs[0] && !StringLe(x, xs[0]) {
        InsertUniqueKeeps(x, xs[1..]);
        var rest := InsertUnique(x, xs[1..]);
        forall i | 0 <= i < |rest| ensures StringLe(xs[0], rest[i]) && xs[0] != rest[i] {
          assert rest[i] in rest;
        }
      }
    }
  }

  /** SortedSet keeps the elements, orders them and drops repeats. */
  lemma {:induction false} SortedSetMeaning(xs: seq<string>)
    ensures Increasing(SortedSet(xs))
    ensures forall y :: y in SortedSet(xs) <==> y in xs
  {
    if xs != [] {
      SortedSetMeaning(xs[1..]);
      InsertUniqueKeeps(xs[0], SortedSet(xs[1..]));
      assert xs == [xs[0]] + xs[1..];
    }
  }
}
