/** What the other modules share: options, enumerations of sets, and the
    sequences of steps that lead from one state of a system to another. */
module Basics {

  datatype Option<+T> = None | Some(value: T)

  function Max(a: int, b: int): int {
    if a > b then a else b
  }

  /** xs lists s, each element once, in whatever order a query or a range over
      a map happens to give. */
  ghost predicate Lists<T(!new)>(xs: seq<T>, s: set<T>) {
    && (forall i, j :: 0 <= i < j < |xs| ==> xs[i] != xs[j])
    && (forall i :: 0 <= i < |xs| ==> xs[i] in s)
    && (forall x :: x in s ==> x in xs)
  }

  /** Every finite set can be listed. */
  lemma {:induction false} SomeListing<T(!new)>(s: set<T>) returns (xs: seq<T>)
    ensures Lists(xs, s)
    decreases |s|
  {
    xs := [];
    if s != {} {
      var x :| x in s;
      var rest := SomeListing(s - {x});
      xs := [x] + rest;
    }
  }
}

module Paths {

  /** These steps lead from s to t; goes(s, x, t) says that step x may take s to t. */
  ghost predicate Leads<S(!new), X(!new)>(goes: (S, X, S) -> bool, s: S, steps: seq<X>, t: S)
    decreases |steps|
  {
    if steps == [] then s == t
    else exists mid :: goes(s, steps[0], mid) && Leads(goes, mid, steps[1..], t)
  }

  lemma {:induction false} LeadsOn<S(!new), X(!new)>(goes: (S, X, S) -> bool, s: S, a: seq<X>, mid: S, b: seq<X>, t: S)
    requires Leads(goes, s, a, mid) && Leads(goes, mid, b, t)
    ensures Leads(goes, s, a + b, t)
    decreases |a|
  {
    if a == [] {
      assert a + b == b;
    } else {
      var next :| goes(s, a[0], next) && Leads(goes, next, a[1..], mid);
      assert (a + b)[1..] == a[1..] + b;
      LeadsOn(goes, next, a[1..], mid, b, t);
    }
  }

  lemma LeadsThen<S(!new), X(!new)>(goes: (S, X, S) -> bool, s: S, steps: seq<X>, mid: S, x: X, t: S)
    requires Leads(goes, s, steps, mid) && goes(mid, x, t)
    ensures Leads(goes, s, steps + [x], t)
  {
    assert Leads(goes, t, [], t);
    assert [x][1..] == [];
    LeadsOn(goes, s, steps, mid, [x], t);
  }

  /** A path can be split anywhere. */
  lemma {:induction false} LeadsSplit<S(!new), X(!new)>(goes: (S, X, S) -> bool, s: S, a: seq<X>, b: seq<X>, t: S)
      returns (mid: S)
    requires Leads(goes, s, a + b, t)
    ensures Leads(goes, s, a, mid) && Leads(goes, mid, b, t)
    decreases |a|
  {
    if a == [] {
      assert a + b == b;
      mid := s;
    } else {
      var next :| goes(s, (a + b)[0], next) && Leads(goes, next, (a + b)[1..], t);
      assert (a + b)[1..] == a[1..] + b;
      mid := LeadsSplit(goes, next, a[1..], b, t);
    }
  }
}
