/** dataplane/internal/schema/schema.go: one error out of a tree whose children
    come in no fixed order, and the cache of compiled schemas. */
module Schema {
  import opened Sorting
  import opened Text
  import opened Documents
  import opened Tables
  import History

  /** jsonschema.ValidationError; message is its rendered kind. */
  datatype Node = Node(location: seq<string>, message: string, causes: seq<Node>)

  /** What two leaves are compared by. */
  datatype Finding = Finding(pointer: string, message: string)

  function PointerOf(n: Node): string {
    "/" + Join(n.location, "/")
  }

  function FindingOf(n: Node): Finding {
    Finding(PointerOf(n), n.message)
  }

  predicate FindingLe(a: Finding, b: Finding) {
    if a.pointer == b.pointer then StringLe(a.message, b.message) else StringLe(a.pointer, b.pointer)
  }

  lemma FindingOrder()
    ensures TotalOrder(FindingLe)
  {
    StringOrder();
  }

  /** collectLeaves: the nodes without causes, in the order of a walk. */
  function Leaves(n: Node): (r: seq<Node>)
    ensures r != []
    decreases n, 1
  {
    if n.causes == [] then [n] else LeavesOf(n, n.causes)
  }

  function LeavesOf(parent: Node, causes: seq<Node>): (r: seq<Node>)
    requires forall i :: 0 <= i < |causes| ==> causes[i] < parent
    ensures causes != [] ==> r != []
    decreases parent, 0, |causes|
  {
    if causes == [] then [] else Leaves(causes[0]) + LeavesOf(parent, causes[1..])
  }

  /** x is n, or below one of its causes. */
  ghost predicate Below(x: Node, n: Node)
    decreases n
  {
    x == n || exists i :: 0 <= i < |n.causes| && Below(x, n.causes[i])
  }

  /** The leaves are exactly the nodes of the tree that have no causes. */
  lemma {:induction false} LeavesMeaning(n: Node)
    ensures forall x :: x in Leaves(n) <==> Below(x, n) && x.causes == []
    decreases n, 1
  {
    if n.causes != [] {
      LeavesOfMeaning(n, n.causes);
      forall x ensures x in Leaves(n) <==> Below(x, n) && x.causes == [] {
        assert x in Leaves(n) <==> exists i :: 0 <= i < |n.causes| && Below(x, n.causes[i]) && x.causes == [];
      }
    }
  }

  lemma {:induction false} LeavesOfMeaning(parent: Node, causes: seq<Node>)
    requires forall i :: 0 <= i < |causes| ==> causes[i] < parent
    ensures forall x :: x in LeavesOf(parent, causes) <==>
      exists i :: 0 <= i < |causes| && Below(x, causes[i]) && x.causes == []
    decreases parent, 0, |causes|
  {
    if causes != [] {
      LeavesMeaning(causes[0]);
      LeavesOfMeaning(parent, causes[1..]);
      forall x ensures x in LeavesOf(parent, causes) <==>
        exists i :: 0 <= i < |causes| && Below(x, causes[i]) && x.causes == []
      {
        assert x in LeavesOf(parent, causes) <==> x in Leaves(causes[0]) || x in LeavesOf(parent, causes[1..]);
        if i :| 0 <= i < |causes[1..]| && Below(x, causes[1..][i]) && x.causes == [] { assert causes[1..][i] == causes[i + 1]; }
        if i :| 0 <= i < |causes| && Below(x, causes[i]) && x.causes == [] {
          assert i == 0 || causes[1..][i - 1] == causes[i];
        }
      }
    }
  }

  function FindingsOf(nodes: seq<Node>): seq<Finding> {
    seq(|nodes|, i requires 0 <= i < |nodes| => FindingOf(nodes[i]))
  }

  function Render(f: Finding): string {
    f.pointer + ": " + f.message
  }

  /** The least finding over all leaves. */
  function LeastFinding(n: Node): Finding {
    var sorted := Sort(FindingLe, FindingsOf(Leaves(n)));
    if sorted == [] then FindingOf(n) else sorted[0]
  }

  function DetailOf(n: Node): string {
    Render(LeastFinding(n))
  }

  /** LeastFinding is a leaf's finding, and no leaf has a smaller one. */
  lemma LeastIsLeast(n: Node)
    ensures LeastFinding(n) in FindingsOf(Leaves(n))
    ensures forall f :: f in FindingsOf(Leaves(n)) ==> FindingLe(LeastFinding(n), f)
    ensures forall f :: f in FindingsOf(Leaves(n)) ==>
      StringLe(LeastFinding(n).pointer, f.pointer)
      && (f.pointer == LeastFinding(n).pointer ==> StringLe(LeastFinding(n).message, f.message))
  {
    StringOrder();
    FindingOrder();
    var findings := FindingsOf(Leaves(n));
    var sorted := Sort(FindingLe, findings);
    SortSorts(FindingLe, findings);
    assert |sorted| == |multiset(sorted)| == |findings|;
    assert sorted[0] in multiset(sorted);
    forall f | f in findings ensures FindingLe(sorted[0], f) {
      assert f in multiset(sorted);
      var i :| 0 <= i < |sorted| && sorted[i] == f;
    }
  }

  /** The code sorts nodes, not findings, and the sort is not stable: whatever
      arrangement it leaves, the first node renders to the same text. */
  lemma AnyArrangementWillDo(n: Node, arranged: seq<Node>)
    requires multiset(arranged) == multiset(Leaves(n))
    requires forall i, j :: 0 <= i < j < |arranged| ==> FindingLe(FindingOf(arranged[i]), FindingOf(arranged[j]))
    ensures arranged != [] && Render(FindingOf(arranged[0])) == DetailOf(n)
    ensures DetailOf(n) == ("/" + Join(arranged[0].location, "/")) + ": " + arranged[0].message
  {
    FindingOrder();
    LeastIsLeast(n);
    var leaves := Leaves(n);
    assert |arranged| == |multiset(arranged)| == |leaves|;
    assert arranged[0] in multiset(leaves);
    var i :| 0 <= i < |leaves| && leaves[i] == arranged[0];
    assert FindingsOf(leaves)[i] == FindingOf(arranged[0]);
    var j :| 0 <= j < |leaves| && FindingsOf(leaves)[j] == LeastFinding(n);
    assert leaves[j] in multiset(arranged);
    var k :| 0 <= k < |arranged| && arranged[k] == leaves[j];
  }

  // ------------------------------------ the order of causes does not matter

  function WithoutAt(xs: seq<Node>, j: nat): seq<Node>
    requires j < |xs|
  {
    xs[..j] + xs[j + 1..]
  }

  /** Equal up to permuting the causes at every node. */
  ghost predicate Permuted(a: Node, b: Node)
    decreases a, 1
  {
    a.location == b.location && a.message == b.message && PermutedCauses(a, a.causes, b.causes)
  }

  ghost predicate PermutedCauses(parent: Node, xs: seq<Node>, ys: seq<Node>)
    requires forall i :: 0 <= i < |xs| ==> xs[i] < parent
    decreases parent, 0, |xs|
  {
    if xs == [] then ys == []
    else exists j :: 0 <= j < |ys| && Permuted(xs[0], ys[j]) && PermutedCauses(parent, xs[1..], WithoutAt(ys, j))
  }

  ghost function Tally(nodes: seq<Node>): multiset<Finding> {
    multiset(FindingsOf(nodes))
  }

  lemma TallyAppend(xs: seq<Node>, ys: seq<Node>)
    ensures Tally(xs + ys) == Tally(xs) + Tally(ys)
  {
    assert FindingsOf(xs + ys) == FindingsOf(xs) + FindingsOf(ys);
  }

  /** Taking one cause out takes its leaves out, wherever it stood. */
  lemma {:induction false} TallyWithout(parent: Node, ys: seq<Node>, j: nat)
    requires (forall i :: 0 <= i < |ys| ==> ys[i] < parent) && j < |ys|
    ensures forall i :: 0 <= i < |WithoutAt(ys, j)| ==> WithoutAt(ys, j)[i] < parent
    ensures Tally(LeavesOf(parent, ys)) == Tally(Leaves(ys[j])) + Tally(LeavesOf(parent, WithoutAt(ys, j)))
    decreases |ys|
  {
    var rest := WithoutAt(ys, j);
    TallyAppend(Leaves(ys[0]), LeavesOf(parent, ys[1..]));
    if j == 0 {
      assert rest == ys[1..];
    } else {
      TallyWithout(parent, ys[1..], j - 1);
      assert rest[0] == ys[0] && rest[1..] == WithoutAt(ys[1..], j - 1);
      TallyAppend(Leaves(rest[0]), LeavesOf(parent, rest[1..]));
    }
  }

  lemma {:induction false} PermutedTally(a: Node, b: Node)
    requires Permuted(a, b)
    ensures Tally(Leaves(a)) == Tally(Leaves(b))
    decreases a, 1
  {
    if a.causes == [] {
      assert FindingsOf([a]) == [FindingOf(a)] && FindingsOf([b]) == [FindingOf(b)];
    } else {
      PermutedCausesTally(a, b, a.causes, b.causes);
    }
  }

  lemma {:induction false} PermutedCausesTally(a: Node, b: Node, xs: seq<Node>, ys: seq<Node>)
    requires forall i :: 0 <= i < |xs| ==> xs[i] < a
    requires forall i :: 0 <= i < |ys| ==> ys[i] < b
    requires PermutedCauses(a, xs, ys)
    ensures Tally(LeavesOf(a, xs)) == Tally(LeavesOf(b, ys))
    ensures xs == [] <==> ys == []
    decreases a, 0, |xs|
  {
    if xs != [] {
      var j :| 0 <= j < |ys| && Permuted(xs[0], ys[j]) && PermutedCauses(a, xs[1..], WithoutAt(ys, j));
      PermutedTally(xs[0], ys[j]);
      TallyWithout(b, ys, j);
      PermutedCausesTally(a, b, xs[1..], WithoutAt(ys, j));
      TallyAppend(Leaves(xs[0]), LeavesOf(a, xs[1..]));
    }
  }

  /** The detail is a function of the tree without any order of causes. */
  lemma DetailIgnoresOrder(a: Node, b: Node)
    requires Permuted(a, b)
    ensures DetailOf(a) == DetailOf(b)
  {
    PermutedTally(a, b);
    FindingOrder();
    SortCanonical(FindingLe, FindingsOf(Leaves(a)), FindingsOf(Leaves(b)));
    LeastIsLeast(a);
    LeastIsLeast(b);
    SortSorts(FindingLe, FindingsOf(Leaves(a)));
    assert |Sort(FindingLe, FindingsOf(Leaves(a)))| == |multiset(FindingsOf(Leaves(a)))|;
  }

  /** Following the first cause instead, as the comment in the source warns,
      would not be: the same failures in another order, another text. */
  function FirstCause(n: Node): string
    decreases n
  {
    if n.causes == [] then Render(FindingOf(n)) else FirstCause(n.causes[0])
  }

  function Pair(x: Node, y: Node): Node {
    Node([], "m", [x, y])
  }

  lemma SwappedPair(x: Node, y: Node)
    requires x.causes == [] && y.causes == []
    ensures Permuted(Pair(x, y), Pair(y, x))
  {
    var a := Pair(x, y);
    assert WithoutAt([y, x], 1) == [y] && WithoutAt([y], 0) == [];
    assert [x, y][1..] == [y] && [y][1..] == [];
    assert Permuted(x, x) && Permuted(y, y);
    assert PermutedCauses(a, [y], [y]);
    assert PermutedCauses(a, [x, y], [y, x]);
  }

  lemma FirstCauseFlaps(x: Node, y: Node)
    requires x.causes == [] && y.causes == [] && Render(FindingOf(x)) != Render(FindingOf(y))
    ensures Permuted(Pair(x, y), Pair(y, x)) && FirstCause(Pair(x, y)) != FirstCause(Pair(y, x))
  {
    SwappedPair(x, y);
    assert FirstCause(Pair(x, y)) == FirstCause(x) && FirstCause(Pair(y, x)) == FirstCause(y);
  }

  // ------------------------------------------------------------------ Cache

  datatype Kind = Input | Output

  /** A compiled schema or the error of compiling, as a function of the text. */
  datatype Compiled = CompiledFrom(raw: Json)

  function KindName(k: Kind): string {
    if k.Input? then "input" else "output"
  }

  /** HookDef.SchemaKey. */
  function SchemaKey(h: HookOut, k: Kind): string
    requires h.defVersion >= 0
  {
    h.name + (['@'] + (Decimal(h.defVersion) + (['/'] + KindName(k))))
  }

  function SchemaOf(h: HookOut, k: Kind): Json {
    if k.Input? then h.spec.inputSchema else h.spec.outputSchema
  }

  class Cache {
    var entries: map<string, Compiled>
    var compiles: nat

    constructor ()
      ensures entries == map[] && compiles == 0
    {
      entries, compiles := map[], 0;
    }

    /** Compiles the first text seen under a key, and only that. */
    method Get(key: string, raw: Json) returns (c: Compiled)
      modifies this
      ensures key in entries && c == entries[key]
      ensures key in old(entries) ==> entries == old(entries) && compiles == old(compiles)
      ensures key !in old(entries) ==> entries == old(entries)[key := CompiledFrom(raw)] && compiles == old(compiles) + 1
    {
      if key !in entries {
        entries := entries[key := CompiledFrom(raw)];
        compiles := compiles + 1;
      }
      c := entries[key];
    }
  }

  /** For hook names, a schema key names one definition and one kind. */
  lemma SchemaKeyIdentifies(a: HookOut, k: Kind, b: HookOut, l: Kind)
    requires IsHookName(a.name) && IsHookName(b.name) && a.defVersion >= 0 && b.defVersion >= 0
    ensures SchemaKey(a, k) == SchemaKey(b, l) <==> a.name == b.name && a.defVersion == b.defVersion && k == l
  {
    if SchemaKey(a, k) == SchemaKey(b, l) {
      assert '@' !in a.name && '@' !in b.name;
      CutAtFirst(a.name, Decimal(a.defVersion) + (['/'] + KindName(k)),
                 b.name, Decimal(b.defVersion) + (['/'] + KindName(l)), '@');
      CutAtFirst(Decimal(a.defVersion), KindName(k), Decimal(b.defVersion), KindName(l), '/');
      DecimalInjective(a.defVersion, b.defVersion);
      assert KindName(k)[0] == KindName(l)[0];
    }
  }

  /** Each cached schema was compiled from the definition its key names. */
  ghost predicate CacheGenuine(run: seq<History.Sys>, entries: map<string, Compiled>) {
    forall key :: key in entries ==> exists i, h, k :: Published(run, i, h) && SchemaKey(h, k) == key
                                                       && entries[key] == CompiledFrom(SchemaOf(h, k))
  }

  ghost predicate Published(run: seq<History.Sys>, i: nat, h: HookOut) {
    i < |run| && h in Visible(run[i].db).hooks && h.defVersion >= 0
  }

  /** So a hook that was ever published is always checked against its own
      schema, however many versions and hooks share the cache. */
  lemma CacheServesOwnSchema(run: seq<History.Sys>, entries: map<string, Compiled>, i: nat, h: HookOut, k: Kind)
    requires History.IsRun(run) && CacheGenuine(run, entries) && Published(run, i, h)
    ensures var key := SchemaKey(h, k);
      var after := if key in entries then entries else entries[key := CompiledFrom(SchemaOf(h, k))];
      CacheGenuine(run, after) && after[key] == CompiledFrom(if k.Input? then h.spec.inputSchema else h.spec.outputSchema)
  {
    var key := SchemaKey(h, k);
    if key in entries {
      var j, g, l :| Published(run, j, g) && SchemaKey(g, l) == key && entries[key] == CompiledFrom(SchemaOf(g, l));
      PublishedName(run, i, h);
      PublishedName(run, j, g);
      SchemaKeyIdentifies(h, k, g, l);
      History.DefVersionPins(run, i, j, h, g);
    }
  }

  lemma PublishedName(run: seq<History.Sys>, i: nat, h: HookOut)
    requires History.IsRun(run) && Published(run, i, h)
    ensures IsHookName(h.name)
  {
    History.RunKeepsInv(run, i);
    var x :| x in run[i].db.hooks && h == ShowHook(run[i].db, x);
    assert HookOk(run[i].db.hooks[x]);
  }
}
