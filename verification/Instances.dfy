/** What is inside the pooled instances of one data plane: the pool, the module
    cache and the remembered definitions running together, as run() in
    dataplane/internal/executor/executor.go uses them. */
module Instances {
  import opened Basics
  import opened Tables
  import opened PlaneConfig
  import opened SpecDigest
  import opened Executor
  import History
  import Propagation
  import Pool = PoolSystem
  import PoolModel
  import Compile = CompileSystem

  type Thread = Pool.Thread

  /** A call on its way through run(): its request, what the request resolved to,
      and the module it was given. */
  datatype Ticket = Ticket(req: Request, recipe: Recipe, got: Option<ModId>)

  /** commits is every committed state so far; built records, for every instance
      ever made, the ticket of the call whose factory made it. */
  datatype Sys = Sys(commits: seq<History.Sys>, hooks: Hooks, exec: Compile.Sys, pool: Pool.Sys,
                     tickets: map<Thread, Ticket>, built: map<PoolModel.Inst, Ticket>)

  const START := Sys([History.Sys(EMPTY_DB, {}, {})], map[], Compile.START, Pool.START, map[], map[])

  datatype Step =
    | Commit(next: History.Sys)
    | Accept(t: Thread, view: View, req: Request)
    | GetModule(t: Thread, c: Compile.Name)
    | Acquire(t: Thread, rawLimit: int)
    | Make(t: Thread, inst: PoolModel.Inst)
    | InExecutor(x: Compile.Step)
    | InPool(y: Pool.Step)

  function PoolKey(req: Request): PoolModel.Key {
    PoolModel.Key(req.tenant, req.hook, req.defVersion, req.hash, req.configVersion)
  }

  predicate Callable(recipe: Recipe) {
    HookValid(recipe.def)
  }

  function OriginOf(recipe: Recipe): Origin
    requires Callable(recipe)
  {
    Origin(recipe.hash, SpecOf(recipe.def))
  }

  ghost predicate Enabled(o: PoolModel.Options, s: Sys, step: Step) {
    match step
    case Commit(next) => s.commits != [] && History.Next(s.commits[|s.commits| - 1], next)
    case Accept(t, view, req) => t !in s.pool.threads && Genuine(s.commits, view) && Resolve(s.hooks, view, req).Some?
    case GetModule(t, c) =>
      && t in s.tickets && t !in s.pool.threads && Callable(s.tickets[t].recipe) && c in s.exec.callers
      && s.exec.callers[c].origin == OriginOf(s.tickets[t].recipe)
      && s.exec.callers[c].at.Answered? && s.exec.callers[c].at.r.Module?
    case Acquire(t, rawLimit) =>
      && t in s.tickets && s.tickets[t].got.Some?
      && Pool.Enabled(o, s.pool, Pool.Start(t, PoolKey(s.tickets[t].req), rawLimit))
    case Make(t, inst) => t in s.tickets && Pool.Enabled(o, s.pool, Pool.Made(t, inst))
    case InExecutor(x) => Compile.Enabled(s.exec, x)
    case InPool(y) => !y.Start? && !y.Made? && Pool.Enabled(o, s.pool, y)
  }

  ghost function Apply(o: PoolModel.Options, s: Sys, step: Step): Sys
    requires Enabled(o, s, step)
  {
    match step
    case Commit(next) => s.(commits := s.commits + [next])
    case Accept(t, view, req) =>
      s.(hooks := Remember(s.hooks, view, req.hook),
         tickets := s.tickets[t := Ticket(req, Resolve(s.hooks, view, req).value, None)])
    case GetModule(t, c) => s.(tickets := s.tickets[t := s.tickets[t].(got := Some(s.exec.callers[c].at.r.id))])
    case Acquire(t, rawLimit) => s.(pool := Pool.Apply(o, s.pool, Pool.Start(t, PoolKey(s.tickets[t].req), rawLimit)))
    case Make(t, inst) =>
      s.(pool := Pool.Apply(o, s.pool, Pool.Made(t, inst)), built := s.built[inst := s.tickets[t]])
    case InExecutor(x) => s.(exec := Compile.Apply(s.exec, x))
    case InPool(y) => s.(pool := Pool.Apply(o, s.pool, y))
  }

  ghost predicate StepAt(o: PoolModel.Options, run: seq<Sys>, i: nat)
    requires i + 1 < |run|
  {
    exists step :: Enabled(o, run[i], step) && run[i + 1] == Apply(o, run[i], step)
  }

  ghost predicate IsRun(o: PoolModel.Options, run: seq<Sys>) {
    && run != [] && run[0] == START
    && forall i :: 0 <= i < |run| - 1 ==> StepAt(o, run, i)
  }

  // ------------------------------------------------------------ invariants

  /** id was compiled from the recipe's bytes, under a spec with the digest of the
      recipe's. */
  ghost predicate CompiledFor(home: map<ModId, Origin>, id: ModId, recipe: Recipe) {
    && id in home && Compile.Sound(home[id]) && Callable(recipe)
    && Compile.Key(home[id]) == KeyOf(recipe.hash, SpecOf(recipe.def))
  }

  ghost predicate TicketOk(commits: seq<History.Sys>, home: map<ModId, Origin>, x: Ticket) {
    Pinned(commits, x.req, x.recipe) && (x.got.Some? ==> CompiledFor(home, x.got.value, x.recipe))
  }

  ghost predicate TicketsOk<K(!new)>(commits: seq<History.Sys>, home: map<ModId, Origin>, tickets: map<K, Ticket>) {
    forall t :: t in tickets ==> TicketOk(commits, home, tickets[t])
  }

  /** Every goroutine in the pool carries a full ticket for its key. */
  ghost predicate Ticketed(threads: map<Thread, Pool.Phase>, tickets: map<Thread, Ticket>) {
    forall t :: t in threads ==> t in tickets && tickets[t].got.Some? && threads[t].key == PoolKey(tickets[t].req)
  }

  ghost predicate BuiltOk(home: map<PoolModel.Inst, PoolModel.Key>, built: map<PoolModel.Inst, Ticket>) {
    home.Keys == built.Keys && forall i :: i in built ==> built[i].got.Some? && home[i] == PoolKey(built[i].req)
  }

  /** The part of the invariant that this module adds. */
  ghost predicate Carried(s: Sys) {
    && Remembered(s.commits, s.hooks)
    && TicketsOk(s.commits, s.exec.home, s.tickets) && TicketsOk(s.commits, s.exec.home, s.built)
    && Ticketed(s.pool.threads, s.tickets) && BuiltOk(s.pool.home, s.built)
  }

  ghost predicate Inv(o: PoolModel.Options, s: Sys) {
    && o.globalMax > 0 && o.maxUses > 0
    && History.IsRun(s.commits) && Compile.Inv(s.exec) && Pool.Inv(o, s.pool) && Carried(s)
  }

  // ---------------------------------------------------- each part's own step

  /** What was published stays published. */
  lemma PinnedGrows(commits: seq<History.Sys>, next: History.Sys, req: Request, recipe: Recipe)
    requires Pinned(commits, req, recipe)
    ensures Pinned(commits + [next], req, recipe)
  {
    var i :| 0 <= i < |commits| && ShownAt(commits, i, recipe.def);
    assert ShownAt(commits + [next], i, recipe.def);
    var j :| 0 <= j < |commits| && ConfiguredAt(commits, j, req, recipe.config);
    assert ConfiguredAt(commits + [next], j, req, recipe.config);
  }

  lemma TicketsGrow<K(!new)>(commits: seq<History.Sys>, next: History.Sys, home: map<ModId, Origin>, tickets: map<K, Ticket>)
    requires TicketsOk(commits, home, tickets)
    ensures TicketsOk(commits + [next], home, tickets)
  {
    forall t | t in tickets ensures TicketOk(commits + [next], home, tickets[t]) {
      assert TicketOk(commits, home, tickets[t]);
      PinnedGrows(commits, next, tickets[t].req, tickets[t].recipe);
    }
  }

  lemma RememberedGrows(commits: seq<History.Sys>, next: History.Sys, hooks: Hooks)
    requires Remembered(commits, hooks)
    ensures Remembered(commits + [next], hooks)
  {
    forall q | q in hooks ensures exists i :: 0 <= i < |commits + [next]| && ShownAt(commits + [next], i, hooks[q]) {
      var i :| 0 <= i < |commits| && ShownAt(commits, i, hooks[q]);
      assert ShownAt(commits + [next], i, hooks[q]);
    }
  }

  lemma CommitKeepsCarried(o: PoolModel.Options, s: Sys, next: History.Sys)
    requires Carried(s) && Enabled(o, s, Commit(next))
    ensures Carried(Apply(o, s, Commit(next)))
  {
    RememberedGrows(s.commits, next, s.hooks);
    TicketsGrow(s.commits, next, s.exec.home, s.tickets);
    TicketsGrow(s.commits, next, s.exec.home, s.built);
  }

  /** One ticket more, or one in another state. */
  lemma TicketPut<K(!new)>(commits: seq<History.Sys>, home: map<ModId, Origin>, tickets: map<K, Ticket>, t: K, x: Ticket)
    requires TicketsOk(commits, home, tickets) && TicketOk(commits, home, x)
    ensures TicketsOk(commits, home, tickets[t := x])
  {
  }

  lemma AcceptedTicket(commits: seq<History.Sys>, hooks: Hooks, home: map<ModId, Origin>, tickets: map<Thread, Ticket>,
                       t: Thread, view: View, req: Request)
    requires Remembered(commits, hooks) && Genuine(commits, view) && Resolve(hooks, view, req).Some?
    requires TicketsOk(commits, home, tickets)
    ensures TicketsOk(commits, home, tickets[t := Ticket(req, Resolve(hooks, view, req).value, None)])
  {
    ResolvePins(commits, hooks, view, req);
    TicketPut(commits, home, tickets, t, Ticket(req, Resolve(hooks, view, req).value, None));
  }

  lemma TicketedPut(threads: map<Thread, Pool.Phase>, tickets: map<Thread, Ticket>, t: Thread, x: Ticket)
    requires Ticketed(threads, tickets) && t !in threads
    ensures Ticketed(threads, tickets[t := x])
  {
  }

  lemma AcceptKeepsCarried(o: PoolModel.Options, s: Sys, t: Thread, view: View, req: Request)
    requires Carried(s) && Enabled(o, s, Accept(t, view, req))
    ensures Carried(Apply(o, s, Accept(t, view, req)))
  {
    RememberKeeps(s.commits, s.hooks, view, req.hook);
    AcceptedTicket(s.commits, s.hooks, s.exec.home, s.tickets, t, view, req);
    TicketedPut(s.pool.threads, s.tickets, t, Ticket(req, Resolve(s.hooks, view, req).value, None));
  }

  /** The module a caller was given is one compiled for its origin. */
  lemma GivenModule(e: Compile.Sys, c: Compile.Name, recipe: Recipe)
    requires c in e.callers && Compile.CallerOk(e, e.callers[c]) && Callable(recipe)
    requires e.callers[c].origin == OriginOf(recipe) && e.callers[c].at.Answered? && e.callers[c].at.r.Module?
    ensures CompiledFor(e.home, e.callers[c].at.r.id, recipe)
  {
  }

  lemma GivenTicket(commits: seq<History.Sys>, e: Compile.Sys, tickets: map<Thread, Ticket>, t: Thread, c: Compile.Name)
    requires TicketsOk(commits, e.home, tickets) && t in tickets && c in e.callers
    requires Compile.CallerOk(e, e.callers[c]) && Callable(tickets[t].recipe)
    requires e.callers[c].origin == OriginOf(tickets[t].recipe) && e.callers[c].at.Answered? && e.callers[c].at.r.Module?
    ensures TicketsOk(commits, e.home, tickets[t := tickets[t].(got := Some(e.callers[c].at.r.id))])
  {
    GivenModule(e, c, tickets[t].recipe);
    assert TicketOk(commits, e.home, tickets[t]);
    TicketPut(commits, e.home, tickets, t, tickets[t].(got := Some(e.callers[c].at.r.id)));
  }

  lemma GetModuleKeepsCarried(o: PoolModel.Options, s: Sys, t: Thread, c: Compile.Name)
    requires Carried(s) && Enabled(o, s, GetModule(t, c)) && Compile.CallerOk(s.exec, s.exec.callers[c])
    ensures Carried(Apply(o, s, GetModule(t, c)))
  {
    GivenTicket(s.commits, s.exec, s.tickets, t, c);
    TicketedPut(s.pool.threads, s.tickets, t, s.tickets[t].(got := Some(s.exec.callers[c].at.r.id)));
  }

  /** Modules are never recompiled under an identity already used. */
  lemma HomeGrows(e: Compile.Sys, x: Compile.Step)
    requires Compile.Enabled(e, x)
    ensures forall id :: id in e.home ==> id in Compile.Apply(e, x).home && Compile.Apply(e, x).home[id] == e.home[id]
  {
  }

  lemma TicketsOutlive<K(!new)>(commits: seq<History.Sys>, home: map<ModId, Origin>, home': map<ModId, Origin>,
                                tickets: map<K, Ticket>)
    requires TicketsOk(commits, home, tickets)
    requires forall id :: id in home ==> id in home' && home'[id] == home[id]
    ensures TicketsOk(commits, home', tickets)
  {
  }

  lemma ExecutorKeepsCarried(o: PoolModel.Options, s: Sys, x: Compile.Step)
    requires Carried(s) && Enabled(o, s, InExecutor(x))
    ensures Carried(Apply(o, s, InExecutor(x)))
  {
    HomeGrows(s.exec, x);
    TicketsOutlive(s.commits, s.exec.home, Compile.Apply(s.exec, x).home, s.tickets);
    TicketsOutlive(s.commits, s.exec.home, Compile.Apply(s.exec, x).home, s.built);
  }

  /** A try under the lock keeps the goroutine's key, if not the goroutine. */
  lemma TryKeepsKeys(o: PoolModel.Options, p: Pool.Sys, t: Thread, a: PoolModel.Attempt)
    requires Pool.Enabled(o, p, Pool.Try(t, a))
    ensures var q := Pool.AfterTry(o, p, t, a);
      && q.home == p.home && forall u :: u in q.threads ==> u in p.threads && q.threads[u].key == p.threads[u].key
  {
  }

  /** Goroutines enter the pool only at Start and keep their key; instances enter
      only at Made. */
  lemma PoolKeepsKeys(o: PoolModel.Options, p: Pool.Sys, y: Pool.Step)
    requires Pool.Enabled(o, p, y)
    ensures var q := Pool.Apply(o, p, y);
      && (forall t :: t in q.threads && !(y.Start? && y.t == t) ==> t in p.threads && q.threads[t].key == p.threads[t].key)
      && (!y.Made? ==> q.home == p.home)
  {
    if y.Try? { TryKeepsKeys(o, p, y.t, y.a); }
  }

  lemma AcquireTicketed(o: PoolModel.Options, p: Pool.Sys, tickets: map<Thread, Ticket>, t: Thread, rawLimit: int)
    requires Ticketed(p.threads, tickets) && t in tickets && tickets[t].got.Some?
    requires Pool.Enabled(o, p, Pool.Start(t, PoolKey(tickets[t].req), rawLimit))
    ensures Ticketed(Pool.Apply(o, p, Pool.Start(t, PoolKey(tickets[t].req), rawLimit)).threads, tickets)
  {
  }

  lemma AcquireKeepsCarried(o: PoolModel.Options, s: Sys, t: Thread, rawLimit: int)
    requires Carried(s) && Enabled(o, s, Acquire(t, rawLimit))
    ensures Carried(Apply(o, s, Acquire(t, rawLimit)))
  {
    AcquireTicketed(o, s.pool, s.tickets, t, rawLimit);
    PoolKeepsKeys(o, s.pool, Pool.Start(t, PoolKey(s.tickets[t].req), rawLimit));
  }

  /** A new instance is built from its maker's ticket, under its maker's key. */
  lemma MakeBuilt(o: PoolModel.Options, p: Pool.Sys, tickets: map<Thread, Ticket>, built: map<PoolModel.Inst, Ticket>,
                  t: Thread, inst: PoolModel.Inst)
    requires Ticketed(p.threads, tickets) && BuiltOk(p.home, built) && t in tickets
    requires Pool.Enabled(o, p, Pool.Made(t, inst))
    ensures var q := Pool.Apply(o, p, Pool.Made(t, inst));
      Ticketed(q.threads, tickets) && BuiltOk(q.home, built[inst := tickets[t]])
  {
  }

  lemma BuiltTicket(commits: seq<History.Sys>, home: map<ModId, Origin>, tickets: map<Thread, Ticket>,
                    built: map<PoolModel.Inst, Ticket>, t: Thread, inst: PoolModel.Inst)
    requires TicketsOk(commits, home, tickets) && TicketsOk(commits, home, built) && t in tickets
    ensures TicketsOk(commits, home, built[inst := tickets[t]])
  {
    assert TicketOk(commits, home, tickets[t]);
    TicketPut(commits, home, built, inst, tickets[t]);
  }

  lemma MakeKeepsCarried(o: PoolModel.Options, s: Sys, t: Thread, inst: PoolModel.Inst)
    requires Carried(s) && Enabled(o, s, Make(t, inst))
    ensures Carried(Apply(o, s, Make(t, inst)))
  {
    MakeBuilt(o, s.pool, s.tickets, s.built, t, inst);
    BuiltTicket(s.commits, s.exec.home, s.tickets, s.built, t, inst);
  }

  lemma PoolKeepsCarried(o: PoolModel.Options, s: Sys, y: Pool.Step)
    requires Carried(s) && Enabled(o, s, InPool(y))
    ensures Carried(Apply(o, s, InPool(y)))
  {
    PoolKeepsKeys(o, s.pool, y);
  }

  lemma StepKeepsCarried(o: PoolModel.Options, s: Sys, step: Step)
    requires Carried(s) && Enabled(o, s, step)
    requires forall c :: c in s.exec.callers ==> Compile.CallerOk(s.exec, s.exec.callers[c])
    ensures Carried(Apply(o, s, step))
  {
    match step
    case Commit(next) => CommitKeepsCarried(o, s, next);
    case Accept(t, view, req) => AcceptKeepsCarried(o, s, t, view, req);
    case GetModule(t, c) => GetModuleKeepsCarried(o, s, t, c);
    case Acquire(t, rawLimit) => AcquireKeepsCarried(o, s, t, rawLimit);
    case Make(t, inst) => MakeKeepsCarried(o, s, t, inst);
    case InExecutor(x) => ExecutorKeepsCarried(o, s, x);
    case InPool(y) => PoolKeepsCarried(o, s, y);
  }

  /** The step that the pool makes, if any; likewise the executor. */
  lemma PartsKeepTheirs(o: PoolModel.Options, s: Sys, step: Step)
    requires o.globalMax > 0 && o.maxUses > 0 && Enabled(o, s, step)
    requires History.IsRun(s.commits) && Compile.Inv(s.exec) && Pool.Inv(o, s.pool)
    ensures var t := Apply(o, s, step);
      History.IsRun(t.commits) && Compile.Inv(t.exec) && Pool.Inv(o, t.pool)
  {
    match step
    case Commit(next) => Propagation.CommitGrows(s.commits, next);
    case Acquire(t, rawLimit) => Pool.StepKeepsInv(o, s.pool, Pool.Start(t, PoolKey(s.tickets[t].req), rawLimit));
    case Make(t, inst) => Pool.StepKeepsInv(o, s.pool, Pool.Made(t, inst));
    case InExecutor(x) => Compile.StepKeepsInv(s.exec, x);
    case InPool(y) => Pool.StepKeepsInv(o, s.pool, y);
    case _ =>
  }

  lemma StepKeepsInv(o: PoolModel.Options, s: Sys, step: Step)
    requires Inv(o, s) && Enabled(o, s, step)
    ensures Inv(o, Apply(o, s, step))
  {
    PartsKeepTheirs(o, s, step);
    StepKeepsCarried(o, s, step);
  }

  lemma StartKeepsInv(o: PoolModel.Options)
    requires o.globalMax > 0 && o.maxUses > 0
    ensures Inv(o, START)
  {
    Pool.StartInv(o);
  }

  lemma {:induction false} RunKeepsInv(o: PoolModel.Options, run: seq<Sys>, n: nat)
    requires IsRun(o, run) && n < |run| && o.globalMax > 0 && o.maxUses > 0
    ensures Inv(o, run[n])
  {
    if n == 0 {
      StartKeepsInv(o);
    } else {
      RunKeepsInv(o, run, n - 1);
      assert StepAt(o, run, n - 1);
      var step :| Enabled(o, run[n - 1], step) && run[n] == Apply(o, run[n - 1], step);
      StepKeepsInv(o, run[n - 1], step);
    }
  }

  // ---------------------------------------------------------------- results

  /** All instances ever made under one pool key, by whichever calls and however
      far apart, were built from one recipe, and their modules from its bytes
      under one spec digest. */
  lemma OneRecipePerKey(o: PoolModel.Options, run: seq<Sys>, n: nat, i: PoolModel.Inst, j: PoolModel.Inst)
    requires IsRun(o, run) && n < |run| && o.globalMax > 0 && o.maxUses > 0
    requires i in run[n].pool.home && j in run[n].pool.home && run[n].pool.home[i] == run[n].pool.home[j]
    ensures i in run[n].built && j in run[n].built
    ensures var s, a, b := run[n], run[n].built[i], run[n].built[j];
      && a.req == b.req && a.recipe == b.recipe && a.got.Some? && b.got.Some?
      && CompiledFor(s.exec.home, a.got.value, a.recipe) && CompiledFor(s.exec.home, b.got.value, a.recipe)
  {
    RunKeepsInv(o, run, n);
    var s := run[n];
    assert TicketOk(s.commits, s.exec.home, s.built[i]) && TicketOk(s.commits, s.exec.home, s.built[j]);
    PinnedOnce(s.commits, s.built[i].req, s.built[i].recipe, s.built[j].recipe);
  }

  /** So the instance a call is leased, which some other call may have made long
      ago, is what its own request resolved to: bytes, definition and config. */
  lemma LeaseFitsRequest(o: PoolModel.Options, run: seq<Sys>, n: nat, t: Thread)
    requires IsRun(o, run) && n < |run| && o.globalMax > 0 && o.maxUses > 0
    requires t in run[n].pool.threads && run[n].pool.threads[t].Leased?
    ensures var s, i := run[n], run[n].pool.threads[t].e.inst;
      && t in s.tickets && i in s.built && s.built[i].recipe == s.tickets[t].recipe
      && s.built[i].got.Some? && CompiledFor(s.exec.home, s.built[i].got.value, s.tickets[t].recipe)
  {
    RunKeepsInv(o, run, n);
    var s, i := run[n], run[n].pool.threads[t].e.inst;
    assert Pool.Conserved(s.pool);
    assert TicketOk(s.commits, s.exec.home, s.built[i]) && TicketOk(s.commits, s.exec.home, s.tickets[t]);
    PinnedOnce(s.commits, s.tickets[t].req, s.built[i].recipe, s.tickets[t].recipe);
  }

  ghost predicate HooksKnowTickets(hooks: Hooks, tickets: map<Thread, Ticket>) {
    forall t :: t in tickets ==> (tickets[t].req.hook, tickets[t].req.defVersion) in hooks
  }

  lemma StepKnowsTickets(o: PoolModel.Options, s: Sys, step: Step)
    requires Enabled(o, s, step) && HooksKnowTickets(s.hooks, s.tickets)
    ensures HooksKnowTickets(Apply(o, s, step).hooks, Apply(o, s, step).tickets)
  {
  }

  lemma {:induction false} RunKnowsTickets(o: PoolModel.Options, run: seq<Sys>, n: nat)
    requires IsRun(o, run) && n < |run|
    ensures HooksKnowTickets(run[n].hooks, run[n].tickets)
  {
    if n > 0 {
      RunKnowsTickets(o, run, n - 1);
      assert StepAt(o, run, n - 1);
      var step :| Enabled(o, run[n - 1], step) && run[n] == Apply(o, run[n - 1], step);
      StepKnowsTickets(o, run[n - 1], step);
    }
  }

  /** A definition that some call was accepted with is found by its version ever
      after, whatever the configuration moved on to. */
  lemma AcceptedStaysFound(o: PoolModel.Options, run: seq<Sys>, n: nat, t: Thread)
    requires IsRun(o, run) && n < |run| && o.globalMax > 0 && o.maxUses > 0 && t in run[n].tickets
    ensures var req := run[n].tickets[t].req;
      Recall(run[n].hooks, req.hook, req.defVersion) == Some(run[n].tickets[t].recipe.def)
  {
    RunKeepsInv(o, run, n);
    RunKnowsTickets(o, run, n);
    FoundIsPinned(run[n], t);
  }

  lemma FoundIsPinned(s: Sys, t: Thread)
    requires History.IsRun(s.commits) && Carried(s) && HooksKnowTickets(s.hooks, s.tickets) && t in s.tickets
    ensures Recall(s.hooks, s.tickets[t].req.hook, s.tickets[t].req.defVersion) == Some(s.tickets[t].recipe.def)
  {
    var x := s.tickets[t];
    assert TicketOk(s.commits, s.exec.home, x);
    var found := s.hooks[(x.req.hook, x.req.defVersion)];
    var i :| 0 <= i < |s.commits| && ShownAt(s.commits, i, found);
    var j :| 0 <= j < |s.commits| && ShownAt(s.commits, j, x.recipe.def);
    History.DefVersionPins(s.commits, i, j, found, x.recipe.def);
  }

  /** With plain function names the digest is the spec: the module was compiled
      under the very limits and grants of the resolved definition. */
  lemma CompiledUnderItsSpec(home: map<ModId, Origin>, id: ModId, recipe: Recipe)
    requires CompiledFor(home, id, recipe) && PlainNames(home[id].spec) && PlainNames(SpecOf(recipe.def))
    ensures home[id].hash == recipe.hash && SameSpec(home[id].spec, SpecOf(recipe.def))
    ensures var made, def := home[id].spec, recipe.def.spec;
      && made.pages == def.memoryMaxPages && made.timeoutMs == def.timeoutMs
      && multiset(made.functions) == multiset(def.hostFunctions)
  {
    DigestIdentifies(home[id].spec, SpecOf(recipe.def));
  }
}
