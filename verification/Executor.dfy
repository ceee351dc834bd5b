/** dataplane/internal/executor/executor.go: the state behind its mutex, one
    lock-held region at a time, and what a pool key pins. */
module Executor {
  import opened Basics
  import opened Tables
  import opened PlaneConfig
  import opened SpecDigest
  import History
  import Propagation

  // ------------------------------------------------------- the module cache

  /** A compiled module's identity, and what it was compiled from. */
  type ModId = nat

  datatype Origin = Origin(hash: string, spec: Spec)

  /** Why a module's bytes are invalid under a spec. */
  datatype Fault = InvalidModule(origin: Origin)

  datatype Cache = Cache(modules: map<ModKey, ModId>, invalid: map<ModKey, Fault>, closed: bool)

  const NEW_CACHE := Cache(map[], map[], false)

  /** What the runtime made of the bytes. */
  datatype Compiled = Made(id: ModId) | Invalid(fault: Fault) | Broken

  /** What a caller gets. */
  datatype Result = Module(id: ModId) | Faulty(fault: Fault) | FetchError | PlatformError | ExecutorClosed

  /** cached(). */
  function Lookup(c: Cache, key: ModKey): Option<Result> {
    if key in c.modules then Some(Module(c.modules[key]))
    else if key in c.invalid then Some(Faulty(c.invalid[key]))
    else None
  }

  /** The locked end of compile(): the cache afterwards and the result. */
  function Stored(c: Cache, key: ModKey, out: Compiled): (Cache, Result) {
    match out
    case Invalid(fault) => (c.(invalid := c.invalid[key := fault]), Faulty(fault))
    case Broken => (c, PlatformError)
    case Made(id) =>
      if c.closed then (c, ExecutorClosed) else (c.(modules := c.modules[key := id]), Module(id))
  }

  function Emptied(c: Cache): Cache {
    Cache(map[], c.invalid, true)
  }

  function ModulesIn(modules: map<ModKey, ModId>, order: seq<ModKey>): seq<ModId>
    requires forall k :: k in order ==> k in modules
  {
    seq(|order|, i requires 0 <= i < |order| => modules[order[i]])
  }

  // ------------------------------------------------ remembered definitions

  type Hooks = map<(string, int), HookOut>

  function Remember(hooks: Hooks, view: View, name: string): Hooks {
    match view.Hook(name)
    case Some(h) => hooks[(h.name, h.defVersion) := h]
    case None => hooks
  }

  function Recall(hooks: Hooks, name: string, version: int): Option<HookOut> {
    if (name, version) in hooks then Some(hooks[(name, version)]) else None
  }

  class Executor {
    var modules: map<ModKey, ModId>
    var invalid: map<ModKey, Fault>
    var hooks: Hooks
    var closed: bool

    ghost function Abs(): Cache
      reads this
    {
      Cache(modules, invalid, closed)
    }

    constructor ()
      ensures Abs() == NEW_CACHE && hooks == map[]
    {
      modules, invalid, hooks, closed := map[], map[], map[], false;
    }

    method HookDef(view: View, name: string, version: int) returns (r: Option<HookOut>)
      modifies this`hooks
      ensures hooks == Remember(old(hooks), view, name)
      ensures r == Recall(hooks, name, version)
      ensures name in view.hooks ==>
        var h := view.hooks[name];
        && hooks.Keys == old(hooks).Keys + {(h.name, h.defVersion)} && hooks[(h.name, h.defVersion)] == h
        && forall q :: q in old(hooks) && q != (h.name, h.defVersion) ==> hooks[q] == old(hooks)[q]
      ensures name !in view.hooks ==> hooks == old(hooks)
      ensures r.Some? <==> (name, version) in old(hooks)
                           || (name in view.hooks && view.hooks[name].name == name && view.hooks[name].defVersion == version)
      ensures r.Some? ==> r.value == hooks[(name, version)]
    {
      var h := view.Hook(name);
      if h.Some? {
        hooks := hooks[(h.value.name, h.value.defVersion) := h.value];
      }
      if (name, version) in hooks {
        return Some(hooks[(name, version)]);
      }
      return None;
    }

    method Cached(key: ModKey) returns (r: Option<Result>)
      ensures r == Lookup(Abs(), key)
      ensures r.None? <==> key !in modules && key !in invalid
      ensures key in modules ==> r == Some(Module(modules[key]))
      ensures key !in modules && key in invalid ==> r == Some(Faulty(invalid[key]))
    {
      if key in modules {
        return Some(Module(modules[key]));
      }
      if key in invalid {
        return Some(Faulty(invalid[key]));
      }
      return None;
    }

    /** shut: the module compiled too late, closed on the spot. */
    method Store(key: ModKey, out: Compiled) returns (r: Result, shut: Option<ModId>)
      modifies this`modules, this`invalid
      ensures (Abs(), r) == Stored(old(Abs()), key, out)
      ensures shut == if old(closed) && out.Made? then Some(out.id) else None
      ensures modules == if out.Made? && !old(closed) then old(modules)[key := out.id] else old(modules)
      ensures invalid == if out.Invalid? then old(invalid)[key := out.fault] else old(invalid)
      ensures out.Made? ==> r == if old(closed) then ExecutorClosed else Module(out.id)
      ensures out.Invalid? ==> r == Faulty(out.fault)
      ensures out.Broken? ==> r == PlatformError
    {
      shut := None;
      match out {
        case Invalid(fault) =>
          invalid := invalid[key := fault];
          r := Faulty(fault);
        case Broken =>
          r := PlatformError;
        case Made(id) =>
          if closed {
            shut, r := Some(id), ExecutorClosed;
          } else {
            modules := modules[key := id];
            r := Module(id);
          }
      }
    }

    /** Closes every cached module once, in some order of the keys. */
    method Close() returns (shut: seq<ModId>, ghost order: seq<ModKey>)
      modifies this`modules, this`closed
      ensures Abs() == Emptied(old(Abs()))
      ensures closed && modules == map[] && invalid == old(invalid)
      ensures Lists(order, old(modules).Keys)
      ensures shut == ModulesIn(old(modules), order)
    {
      closed := true;
      var mods := modules;
      modules := map[];
      var left := mods.Keys;
      shut, order := [], [];
      while left != {}
        invariant left <= mods.Keys
        invariant Lists(order, mods.Keys - left)
        invariant shut == ModulesIn(mods, order)
        decreases |left|
      {
        var k :| k in left;
        left := left - {k};
        shut, order := shut + [mods[k]], order + [k];
      }
    }

    /** module() with nobody else compiling: the cached answer, or the compiler's
        answer, cached unless the failure is worth another try. */
    method ModuleFor(hash: string, hook: HookOut, fetched: bool, out: Compiled)
        returns (r: Result, shut: Option<ModId>)
      requires HookValid(hook)
      modifies this`modules, this`invalid
      ensures var key := KeyOf(hash, SpecOf(hook));
        match Lookup(old(Abs()), key) {
          case Some(known) => r == known && Abs() == old(Abs()) && shut == None
          case None =>
            if !fetched then r == FetchError && Abs() == old(Abs()) && shut == None
            else (Abs(), r) == Stored(old(Abs()), key, out)
                 && shut == if old(closed) && out.Made? then Some(out.id) else None
        }
      ensures r.Module? || r.Faulty? ==> Lookup(Abs(), KeyOf(hash, SpecOf(hook))) == Some(r)
    {
      var key := KeyOf(hash, SpecOf(hook));
      var known := Cached(key);
      if known.Some? {
        return known.value, None;
      }
      if !fetched {
        return FetchError, None;
      }
      r, shut := Store(key, out);
    }
  }

  function SpecOf(h: HookOut): (s: Spec)
    requires HookValid(h)
    ensures Timed(s)
  {
    Spec(h.spec.memoryMaxPages, h.spec.timeoutMs, h.spec.hostFunctions)
  }

  // ------------------------------------------------- what a pool key pins

  /** What every instance of a request's pool key is built from: the module's
      content hash, the definition it is compiled under, and its config. */
  datatype Recipe = Recipe(hash: string, def: HookOut, config: map<string, string>)

  datatype Request = Request(tenant: string, hook: string, defVersion: int, hash: string, configVersion: int)

  /** The start of run(): None is the stale_config answer. */
  function Resolve(hooks: Hooks, view: View, req: Request): Option<Recipe> {
    var def := Recall(Remember(hooks, view, req.hook), req.hook, req.defVersion);
    var binding := view.Binding(req.tenant, req.hook);
    if def.None? || binding.None? || binding.value.configVersion != req.configVersion then None
    else Some(Recipe(req.hash, def.value, binding.value.config))
  }

  /** A request is answered exactly if its definition was seen under its version, now
      or before, and its binding is in the view under its config version. */
  lemma ResolveMeaning(hooks: Hooks, view: View, req: Request)
    ensures var r, q, b := Resolve(hooks, view, req), (req.hook, req.defVersion), (req.tenant, req.hook);
      var current := req.hook in view.hooks && (view.hooks[req.hook].name, view.hooks[req.hook].defVersion) == q;
      && (r.Some? <==> (q in hooks || current) && b in view.bindings && view.bindings[b].configVersion == req.configVersion)
      && (r.Some? ==>
            && r.value.hash == req.hash && r.value.config == view.bindings[b].config
            && r.value.def == if current then view.hooks[req.hook] else hooks[q])
  {
  }

  /** A view of some committed state. */
  ghost predicate Genuine(run: seq<History.Sys>, view: View) {
    exists i :: 0 <= i < |run| && Shows(view, Visible(run[i].db))
  }

  /** Every view a data plane ever installs is genuine. */
  lemma PlanesAreGenuine(run: seq<Propagation.Sys>, n: nat, p: nat)
    requires Propagation.IsRun(run) && n < |run| && p in run[n].planes && run[n].planes[p].cur.Some?
    ensures History.IsRun(run[n].commits)
    ensures Genuine(run[n].commits, ViewOf(run[n].planes[p].cur.value))
  {
    Propagation.RunKeepsInv(run, n);
    var s := run[n];
    var snap := s.planes[p].cur.value;
    assert Propagation.PlaneOk(s.commits, Propagation.Now(s).db.version, s.planes[p]);
    var i :| 0 <= i < |s.commits| && Propagation.ShownBy(s.commits[i], snap);
    ViewShowsContent(snap);
    assert Shows(ViewOf(snap), Visible(s.commits[i].db));
  }

  ghost predicate ShownAt(run: seq<History.Sys>, i: nat, h: HookOut)
    requires i < |run|
  {
    h in Visible(run[i].db).hooks
  }

  /** Each remembered definition was shown by some committed state. */
  ghost predicate Remembered(run: seq<History.Sys>, hooks: Hooks) {
    forall q :: q in hooks ==>
      (hooks[q].name, hooks[q].defVersion) == q && exists i :: 0 <= i < |run| && ShownAt(run, i, hooks[q])
  }

  lemma RememberKeeps(run: seq<History.Sys>, hooks: Hooks, view: View, name: string)
    requires Remembered(run, hooks) && Genuine(run, view)
    ensures Remembered(run, Remember(hooks, view, name))
  {
    var i :| 0 <= i < |run| && Shows(view, Visible(run[i].db));
    if view.Hook(name).Some? {
      assert ShownAt(run, i, view.Hook(name).value);
    }
  }

  /** An executor that took genuine views, in whatever order it took them and
      however many it missed, remembers genuine definitions only. */
  lemma {:induction false} ViewsKeepRemembered(run: seq<History.Sys>, views: seq<View>, names: seq<string>)
    requires |views| == |names| && forall i :: 0 <= i < |views| ==> Genuine(run, views[i])
    ensures Remembered(run, AfterViews(views, names))
  {
    if views != [] {
      var n := |views| - 1;
      ViewsKeepRemembered(run, views[..n], names[..n]);
      RememberKeeps(run, AfterViews(views[..n], names[..n]), views[n], names[n]);
    }
  }

  /** What any of the views showed under its name is remembered. */
  lemma {:induction false} SeenIsRemembered(views: seq<View>, names: seq<string>, i: nat)
    requires |views| == |names| && i < |views| && views[i].Hook(names[i]).Some?
    ensures var h := views[i].Hook(names[i]).value; (h.name, h.defVersion) in AfterViews(views, names)
  {
    var n := |views| - 1;
    if i < n {
      SeenIsRemembered(views[..n], names[..n], i);
    }
  }

  /** So an executor that once took a genuine view with a definition finds that
      very definition by its version, whatever it took since. */
  lemma SeenIsFound(run: seq<History.Sys>, views: seq<View>, names: seq<string>, i: nat)
    requires History.IsRun(run) && |views| == |names| && i < |views| && views[i].Hook(names[i]).Some?
    requires forall j :: 0 <= j < |views| ==> Genuine(run, views[j])
    ensures var h := views[i].Hook(names[i]).value;
      h.name == names[i] && Recall(AfterViews(views, names), names[i], h.defVersion) == Some(h)
  {
    var h := views[i].Hook(names[i]).value;
    SeenIsRemembered(views, names, i);
    ViewsKeepRemembered(run, views, names);
    var j :| 0 <= j < |run| && Shows(views[i], Visible(run[j].db));
    assert ShownAt(run, j, h);
    var found := AfterViews(views, names)[(h.name, h.defVersion)];
    var k :| 0 <= k < |run| && ShownAt(run, k, found);
    History.DefVersionPins(run, j, k, h, found);
  }

  function AfterViews(views: seq<View>, names: seq<string>): Hooks
    requires |views| == |names|
  {
    if views == [] then map[]
    else
      var n := |views| - 1;
      Remember(AfterViews(views[..n], names[..n]), views[n], names[n])
  }

  ghost predicate ConfiguredAt(run: seq<History.Sys>, i: nat, req: Request, config: map<string, string>)
    requires i < |run|
  {
    exists b :: b in Visible(run[i].db).bindings && b.tenantId == req.tenant && b.hook == req.hook
                && b.configVersion == req.configVersion && b.config == config
  }

  /** What a request is resolved to was published: its definition at some commit,
      its config at some commit. */
  ghost predicate Pinned(run: seq<History.Sys>, req: Request, recipe: Recipe) {
    && recipe.hash == req.hash && (recipe.def.name, recipe.def.defVersion) == (req.hook, req.defVersion)
    && (exists i :: 0 <= i < |run| && ShownAt(run, i, recipe.def))
    && (exists i :: 0 <= i < |run| && ConfiguredAt(run, i, req, recipe.config))
  }

  lemma ResolvePins(run: seq<History.Sys>, hooks: Hooks, view: View, req: Request)
    requires Remembered(run, hooks) && Genuine(run, view) && Resolve(hooks, view, req).Some?
    ensures Pinned(run, req, Resolve(hooks, view, req).value)
  {
    RememberKeeps(run, hooks, view, req.hook);
    var i :| 0 <= i < |run| && Shows(view, Visible(run[i].db));
    var b := view.Binding(req.tenant, req.hook).value;
    assert b in Visible(run[i].db).bindings;
    assert ConfiguredAt(run, i, req, b.config);
  }

  lemma OneConfig(run: seq<History.Sys>, m: nat, n: nat, req: Request, a: map<string, string>, b: map<string, string>)
    requires History.IsRun(run) && m < |run| && n < |run|
    requires ConfiguredAt(run, m, req, a) && ConfiguredAt(run, n, req, b)
    ensures a == b
  {
    var x :| x in Visible(run[m].db).bindings && x.tenantId == req.tenant && x.hook == req.hook
             && x.configVersion == req.configVersion && x.config == a;
    var y :| y in Visible(run[n].db).bindings && y.tenantId == req.tenant && y.hook == req.hook
             && y.configVersion == req.configVersion && y.config == b;
    History.ConfigVersionPins(run, m, n, x, y);
  }

  /** A request pins one recipe. */
  lemma PinnedOnce(run: seq<History.Sys>, req: Request, a: Recipe, b: Recipe)
    requires History.IsRun(run) && Pinned(run, req, a) && Pinned(run, req, b)
    ensures a == b
  {
    var i :| 0 <= i < |run| && ShownAt(run, i, a.def);
    var j :| 0 <= j < |run| && ShownAt(run, j, b.def);
    History.DefVersionPins(run, i, j, a.def, b.def);
    var m :| 0 <= m < |run| && ConfiguredAt(run, m, req, a.config);
    var n :| 0 <= n < |run| && ConfiguredAt(run, n, req, b.config);
    OneConfig(run, m, n, req, a.config, b.config);
  }

  /** Two executors, each with its own past and its own view, that accept
      requests with one pool key build the same instance: same bytes, same
      definition, same config.  So a pooled instance may serve any of them. */
  lemma PoolKeyPins(run: seq<History.Sys>, a: Hooks, u: View, b: Hooks, v: View, req: Request)
    requires History.IsRun(run)
    requires Remembered(run, a) && Genuine(run, u) && Remembered(run, b) && Genuine(run, v)
    requires Resolve(a, u, req).Some? && Resolve(b, v, req).Some?
    ensures Resolve(a, u, req) == Resolve(b, v, req)
    ensures Resolve(a, u, req).value.def.name == req.hook && Resolve(a, u, req).value.def.defVersion == req.defVersion
  {
    ResolvePins(run, a, u, req);
    ResolvePins(run, b, v, req);
    PinnedOnce(run, req, Resolve(a, u, req).value, Resolve(b, v, req).value);
  }
}
