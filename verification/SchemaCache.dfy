/** The schema cache of dataplane/internal/schema/schema.go under concurrent
    callers: an entry per key, stored once, and a sync.Once in each entry. */
module SchemaCache {
  import opened Basics
  import opened Documents
  import opened Tables
  import opened Schema
  import History

  type Name = nat

  /** Running: inside once.Do, which everybody else waits for. */
  datatype Once = Fresh | Running(runner: Name) | Done(c: Compiled)

  datatype At = Asked | AtOnce | Compiling | Got(c: Compiled)

  datatype Caller = Caller(key: string, raw: Json, at: At)

  /** asked records every call; compiles counts the compilations of each key. */
  datatype Sys = Sys(entries: map<string, Once>, callers: map<Name, Caller>,
                     asked: set<(string, Json)>, compiles: multiset<string>)

  const START := Sys(map[], map[], {}, multiset{})

  datatype Step =
    | Call(c: Name, key: string, raw: Json)
    | LoadOrStore(c: Name)
    | EnterOnce(c: Name)
    | FinishOnce(c: Name)
    | PassOnce(c: Name)

  predicate Stands(s: Sys, c: Name, at: At) {
    c in s.callers && s.callers[c].at == at
  }

  function EntryOf(s: Sys, c: Name): Once
    requires c in s.callers
  {
    var key := s.callers[c].key;
    if key in s.entries then s.entries[key] else Fresh
  }

  ghost predicate Enabled(s: Sys, step: Step) {
    match step
    case Call(c, _, _) => c !in s.callers
    case LoadOrStore(c) => Stands(s, c, Asked)
    case EnterOnce(c) => Stands(s, c, AtOnce) && EntryOf(s, c).Fresh?
    case FinishOnce(c) => Stands(s, c, Compiling)
    case PassOnce(c) => Stands(s, c, AtOnce) && EntryOf(s, c).Done?
  }

  function With(s: Sys, c: Name, entry: Once, at: At): Sys
    requires c in s.callers
  {
    s.(entries := s.entries[s.callers[c].key := entry], callers := s.callers[c := s.callers[c].(at := at)])
  }

  ghost function Apply(s: Sys, step: Step): Sys
    requires Enabled(s, step)
  {
    match step
    case Call(c, key, raw) =>
      s.(callers := s.callers[c := Caller(key, raw, Asked)], asked := s.asked + {(key, raw)})
    case LoadOrStore(c) => With(s, c, EntryOf(s, c), AtOnce)
    case EnterOnce(c) => With(s, c, Running(c), Compiling).(compiles := s.compiles + multiset{s.callers[c].key})
    case FinishOnce(c) => With(s, c, Done(CompiledFrom(s.callers[c].raw)), Got(CompiledFrom(s.callers[c].raw)))
    case PassOnce(c) => With(s, c, EntryOf(s, c), Got(EntryOf(s, c).c))
  }

  ghost predicate StepAt(run: seq<Sys>, i: nat)
    requires i + 1 < |run|
  {
    exists step :: Enabled(run[i], step) && run[i + 1] == Apply(run[i], step)
  }

  ghost predicate IsRun(run: seq<Sys>) {
    && run != [] && run[0] == START
    && forall i :: 0 <= i < |run| - 1 ==> StepAt(run, i)
  }

  // ------------------------------------------------------------ invariants

  ghost predicate CallerOk(s: Sys, c: Name)
    requires c in s.callers
  {
    var x := s.callers[c];
    && (x.key, x.raw) in s.asked
    && (x.at.AtOnce? ==> x.key in s.entries)
    && (x.at.Compiling? ==> x.key in s.entries && s.entries[x.key] == Running(c))
    && (x.at.Got? ==> x.key in s.entries && s.entries[x.key] == Done(x.at.c))
  }

  /** An entry's result is what some caller of its key asked to compile. */
  ghost predicate EntryOk(s: Sys, key: string)
    requires key in s.entries
  {
    && s.compiles[key] == (if s.entries[key].Fresh? then 0 else 1)
    && (s.entries[key].Done? ==> (key, s.entries[key].c.raw) in s.asked)
  }

  ghost predicate Inv(s: Sys) {
    && (forall c :: c in s.callers ==> CallerOk(s, c))
    && (forall key :: key in s.entries ==> EntryOk(s, key))
    && (forall key :: key !in s.entries ==> s.compiles[key] == 0)
  }

  lemma StepKeepsInv(s: Sys, step: Step)
    requires Inv(s) && Enabled(s, step)
    ensures Inv(Apply(s, step))
  {
    var t := Apply(s, step);
    forall c | c in t.callers ensures CallerOk(t, c) {
      assert c in s.callers ==> CallerOk(s, c);
      assert step.c in s.callers ==> CallerOk(s, step.c);
    }
    forall key | key in t.entries ensures EntryOk(t, key) {
      assert key in s.entries ==> EntryOk(s, key);
      assert step.c in s.callers ==> CallerOk(s, step.c);
    }
  }

  lemma {:induction false} RunKeepsInv(run: seq<Sys>, n: nat)
    requires IsRun(run) && n < |run|
    ensures Inv(run[n])
  {
    if n > 0 {
      RunKeepsInv(run, n - 1);
      assert StepAt(run, n - 1);
      var step :| Enabled(run[n - 1], step) && run[n] == Apply(run[n - 1], step);
      StepKeepsInv(run[n - 1], step);
    }
  }

  /** However many goroutines ask for a key at once, it is compiled at most once
      and all of them get the same schema. */
  lemma CompiledOnce(run: seq<Sys>, n: nat, a: Name, b: Name)
    requires IsRun(run) && n < |run| && a in run[n].callers && b in run[n].callers
    requires run[n].callers[a].key == run[n].callers[b].key
    ensures run[n].compiles[run[n].callers[a].key] <= 1
    ensures run[n].callers[a].at.Got? && run[n].callers[b].at.Got? ==> run[n].callers[a].at.c == run[n].callers[b].at.c
  {
    RunKeepsInv(run, n);
    var s := run[n];
    assert CallerOk(s, a) && CallerOk(s, b);
    assert s.callers[a].key in s.entries ==> EntryOk(s, s.callers[a].key);
  }

  /** The calls an executor makes: with the key and the text of a definition. */
  ghost predicate Calls(history: seq<History.Sys>, call: (string, Json)) {
    exists i, h, k :: Published(history, i, h) && call == (SchemaKey(h, k), SchemaOf(h, k))
  }

  /** So each call is served the schema of its very own definition, whoever won
      the race to compile it. */
  lemma ServedOwnSchema(history: seq<History.Sys>, run: seq<Sys>, n: nat, c: Name)
    requires History.IsRun(history) && IsRun(run) && n < |run|
    requires forall call :: call in run[n].asked ==> Calls(history, call)
    requires c in run[n].callers && run[n].callers[c].at.Got?
    ensures run[n].callers[c].at.c == CompiledFrom(run[n].callers[c].raw)
    ensures exists i, h, k :: Published(history, i, h) && run[n].callers[c].key == SchemaKey(h, k)
              && run[n].callers[c].at.c == CompiledFrom(if k.Input? then h.spec.inputSchema else h.spec.outputSchema)
  {
    RunKeepsInv(run, n);
    var s, x := run[n], run[n].callers[c];
    assert CallerOk(s, c) && EntryOk(s, x.key);
    OneTextPerKey(history, x.key, x.raw, x.at.c.raw);
  }

  lemma OneTextPerKey(history: seq<History.Sys>, key: string, a: Json, b: Json)
    requires History.IsRun(history) && Calls(history, (key, a)) && Calls(history, (key, b))
    ensures a == b
  {
    var i, g, k :| Published(history, i, g) && (key, a) == (SchemaKey(g, k), SchemaOf(g, k));
    var j, h, l :| Published(history, j, h) && (key, b) == (SchemaKey(h, l), SchemaOf(h, l));
    PublishedName(history, i, g);
    PublishedName(history, j, h);
    SchemaKeyIdentifies(g, k, h, l);
    History.DefVersionPins(history, i, j, g, h);
  }
}
