/** JSON documents as Python decodes them, and what its == overlooks. */
module Documents {
  import opened Basics

  /** Numbers keep the kind they were written in: true, 1 and 1.0 are different
      documents. */
  datatype Json =
    | JNull
    | JBool(truth: bool)
    | JInt(whole: int)
    | JFloat(decimal: real)
    | JString(text: string)
    | JList(items: seq<Json>)
    | JObject(members: map<string, Json>)

  /** bool is a subclass of int in Python. */
  predicate IsNumber(j: Json) {
    j.JBool? || j.JInt? || j.JFloat?
  }

  function Number(j: Json): real
    requires IsNumber(j)
  {
    match j
    case JBool(b) => if b then 1.0 else 0.0
    case JInt(n) => n as real
    case JFloat(r) => r
  }

  /** a == b: numbers by value whatever their kind, lists item by item, dicts by
      key. */
  predicate PyEqual(a: Json, b: Json)
    decreases a
  {
    if IsNumber(a) && IsNumber(b) then Number(a) == Number(b)
    else
      match (a, b)
      case (JList(xs), JList(ys)) => |xs| == |ys| && forall i :: 0 <= i < |xs| ==> PyEqual(xs[i], ys[i])
      case (JObject(m), JObject(n)) => m.Keys == n.Keys && forall k :: k in m ==> PyEqual(m[k], n[k])
      case _ => a == b
  }

  // ------------------------------------------------------- an equivalence

  /** The document with every number written as a float. */
  function AsFloats(j: Json): Json
    decreases j
  {
    if IsNumber(j) then JFloat(Number(j))
    else
      match j
      case JList(xs) => JList(seq(|xs|, i requires 0 <= i < |xs| => AsFloats(xs[i])))
      case JObject(m) => JObject(map k | k in m :: AsFloats(m[k]))
      case _ => j
  }

  lemma {:induction false} ListsAsFloats(xs: seq<Json>, ys: seq<Json>)
    requires AsFloats(JList(xs)) == AsFloats(JList(ys))
    ensures |xs| == |ys| && forall i :: 0 <= i < |xs| ==> AsFloats(xs[i]) == AsFloats(ys[i])
  {
    var us, vs := AsFloats(JList(xs)).items, AsFloats(JList(ys)).items;
    assert |us| == |xs| && |vs| == |ys|;
    assert forall i :: 0 <= i < |xs| ==> us[i] == AsFloats(xs[i]);
    assert forall i :: 0 <= i < |ys| ==> vs[i] == AsFloats(ys[i]);
  }

  lemma {:induction false} ObjectsAsFloats(m: map<string, Json>, n: map<string, Json>)
    requires AsFloats(JObject(m)) == AsFloats(JObject(n))
    ensures m.Keys == n.Keys && forall k :: k in m ==> AsFloats(m[k]) == AsFloats(n[k])
  {
    var u, v := AsFloats(JObject(m)).members, AsFloats(JObject(n)).members;
    assert u.Keys == m.Keys && v.Keys == n.Keys;
    assert forall k :: k in m ==> u[k] == AsFloats(m[k]);
    assert forall k :: k in n ==> v[k] == AsFloats(n[k]);
  }

  /** Two documents are equal to Python exactly when they are the same once every
      number is written as a float. */
  lemma {:induction false} PyEqualMeaning(a: Json, b: Json)
    ensures PyEqual(a, b) <==> AsFloats(a) == AsFloats(b)
    decreases a
  {
    match (a, b)
    case (JList(xs), JList(ys)) =>
      forall i | 0 <= i < |xs| && |xs| == |ys| ensures PyEqual(xs[i], ys[i]) <==> AsFloats(xs[i]) == AsFloats(ys[i]) {
        PyEqualMeaning(xs[i], ys[i]);
      }
      if AsFloats(a) == AsFloats(b) { ListsAsFloats(xs, ys); }
    case (JObject(m), JObject(n)) =>
      forall k | k in m && k in n ensures PyEqual(m[k], n[k]) <==> AsFloats(m[k]) == AsFloats(n[k]) {
        PyEqualMeaning(m[k], n[k]);
      }
      if AsFloats(a) == AsFloats(b) { ObjectsAsFloats(m, n); }
    case _ =>
  }

  lemma PyEqualEquivalence(a: Json, b: Json, c: Json)
    ensures PyEqual(a, a)
    ensures PyEqual(a, b) ==> PyEqual(b, a)
    ensures PyEqual(a, b) && PyEqual(b, c) ==> PyEqual(a, c)
  {
    PyEqualMeaning(a, a);
    PyEqualMeaning(a, b);
    PyEqualMeaning(b, a);
    PyEqualMeaning(b, c);
    PyEqualMeaning(a, c);
  }

  /** What numbers of different kinds are equal to, and that nothing else is. */
  lemma NumbersAcrossKinds(b: bool, n: int, r: real, other: Json)
    ensures PyEqual(JBool(b), JInt(n)) <==> n == if b then 1 else 0
    ensures PyEqual(JInt(n), JFloat(r)) <==> r == n as real
    ensures PyEqual(JBool(b), JFloat(r)) <==> r == if b then 1.0 else 0.0
    ensures PyEqual(JInt(n), other) ==> other.JBool? || other.JInt? || other.JFloat?
  {
  }

  // ------------------------------------------------------ what it overlooks

  datatype Hop = Item(i: nat) | Member(name: string)

  /** What stands at a place of a document. */
  function At(j: Json, place: seq<Hop>): Option<Json>
    decreases |place|
  {
    if place == [] then Some(j)
    else
      match (j, place[0])
      case (JList(xs), Item(i)) => if i < |xs| then At(xs[i], place[1..]) else None
      case (JObject(m), Member(k)) => if k in m then At(m[k], place[1..]) else None
      case _ => None
  }

  predicate SameKind(x: Json, y: Json) {
    x.JBool? == y.JBool? && x.JInt? == y.JInt? && x.JFloat? == y.JFloat?
  }

  /** Equal numbers of different kinds, such as 1 and true. */
  predicate Alias(x: Json, y: Json) {
    IsNumber(x) && IsNumber(y) && Number(x) == Number(y) && !SameKind(x, y)
  }

  predicate AliasAt(a: Json, b: Json, place: seq<Hop>) {
    At(a, place).Some? && At(b, place).Some? && Alias(At(a, place).value, At(b, place).value)
  }

  lemma Deeper(a: Json, b: Json, hop: Hop, x: Json, y: Json, place: seq<Hop>)
    requires At(a, [hop]) == Some(x) && At(b, [hop]) == Some(y) && AliasAt(x, y, place)
    ensures AliasAt(a, b, [hop] + place)
  {
    assert [hop][1..] == [] && ([hop] + place)[1..] == place;
  }

  /** Where two documents that Python takes for equal differ. */
  lemma {:induction false} FindAlias(a: Json, b: Json) returns (place: seq<Hop>)
    requires PyEqual(a, b) && a != b
    ensures AliasAt(a, b, place)
    decreases a
  {
    match (a, b)
    case (JList(xs), JList(ys)) =>
      var i :| 0 <= i < |xs| && xs[i] != ys[i];
      place := FindAlias(xs[i], ys[i]);
      Deeper(a, b, Item(i), xs[i], ys[i], place);
      place := [Item(i)] + place;
    case (JObject(m), JObject(n)) =>
      var k :| k in m && m[k] != n[k];
      place := FindAlias(m[k], n[k]);
      Deeper(a, b, Member(k), m[k], n[k], place);
      place := [Member(k)] + place;
    case _ => place := [];
  }

  /** Exactly when Python takes different documents for equal: some place holds
      equal numbers of different kinds in the two. */
  lemma OverlooksIff(a: Json, b: Json)
    requires PyEqual(a, b)
    ensures a != b <==> exists place :: AliasAt(a, b, place)
  {
    if a != b {
      var place := FindAlias(a, b);
      assert AliasAt(a, b, place);
    }
  }
}
