/** The snapshot as control-plane/src/controlplane/configstate/snapshot.py
    reads it, and as dataplane/internal/config/config.go checks and indexes it. */
module PlaneConfig {
  import opened Basics
  import opened Tables

  datatype Snapshot = Snapshot(version: int, keys: seq<KeyOut>, hooks: seq<HookOut>,
                               tenants: seq<TenantOut>, bindings: seq<BindingOut>)

  // ----------------------------------------------------------- read_snapshot

  /** The order in which each query of one read returns its rows. */
  datatype RowOrder = RowOrder(keys: seq<string>, hooks: seq<Uuid>, tenants: seq<Uuid>, bindings: seq<BindingId>)

  function LiveKeys(db: DB): set<string> {
    set id | id in db.keys && !db.keys[id].revoked
  }

  function JoinedBindings(db: DB): set<BindingId> {
    set id | id in db.bindings && Joins(db, id)
  }

  ghost predicate Answers(db: DB, o: RowOrder) {
    && Lists(o.keys, LiveKeys(db)) && Lists(o.hooks, db.hooks.Keys)
    && Lists(o.tenants, db.tenants.Keys) && Lists(o.bindings, JoinedBindings(db))
  }

  function ReadSnapshot(db: DB, o: RowOrder): Snapshot
    requires Answers(db, o)
  {
    Snapshot(db.version,
             seq(|o.keys|, i requires 0 <= i < |o.keys| && o.keys[i] in db.keys => ShowKey(db, o.keys[i])),
             seq(|o.hooks|, i requires 0 <= i < |o.hooks| && o.hooks[i] in db.hooks => ShowHook(db, o.hooks[i])),
             seq(|o.tenants|, i requires 0 <= i < |o.tenants| && o.tenants[i] in db.tenants => ShowTenant(db, o.tenants[i])),
             seq(|o.bindings|, i requires 0 <= i < |o.bindings| && Joins(db, o.bindings[i]) => ShowBinding(db, o.bindings[i])))
  }

  function Range<T>(xs: seq<T>): set<T> {
    set x | x in xs
  }

  function ContentOf(s: Snapshot): Content {
    Content(Range(s.keys), Range(s.hooks), Range(s.tenants), Range(s.bindings))
  }

  lemma ReadShowsKeys(db: DB, o: RowOrder)
    requires Answers(db, o)
    ensures Range(ReadSnapshot(db, o).keys) == Visible(db).keys
  {
    var s, v := ReadSnapshot(db, o), Visible(db);
    forall x | x in v.keys ensures x in Range(s.keys) {
      var id :| id in db.keys && !db.keys[id].revoked && x == ShowKey(db, id);
      assert id in LiveKeys(db);
      var i :| 0 <= i < |o.keys| && o.keys[i] == id;
      assert s.keys[i] == x;
    }
  }

  lemma ReadShowsHooks(db: DB, o: RowOrder)
    requires Answers(db, o)
    ensures Range(ReadSnapshot(db, o).hooks) == Visible(db).hooks
  {
    var s, v := ReadSnapshot(db, o), Visible(db);
    forall x | x in v.hooks ensures x in Range(s.hooks) {
      var id :| id in db.hooks && x == ShowHook(db, id);
      var i :| 0 <= i < |o.hooks| && o.hooks[i] == id;
      assert s.hooks[i] == x;
    }
  }

  lemma ReadShowsTenants(db: DB, o: RowOrder)
    requires Answers(db, o)
    ensures Range(ReadSnapshot(db, o).tenants) == Visible(db).tenants
  {
    var s, v := ReadSnapshot(db, o), Visible(db);
    forall x | x in v.tenants ensures x in Range(s.tenants) {
      var id :| id in db.tenants && x == ShowTenant(db, id);
      var i :| 0 <= i < |o.tenants| && o.tenants[i] == id;
      assert s.tenants[i] == x;
    }
  }

  lemma ReadShowsBindings(db: DB, o: RowOrder)
    requires Answers(db, o)
    ensures Range(ReadSnapshot(db, o).bindings) == Visible(db).bindings
  {
    var s, v := ReadSnapshot(db, o), Visible(db);
    forall x | x in v.bindings ensures x in Range(s.bindings) {
      var id :| id in db.bindings && Joins(db, id) && x == ShowBinding(db, id);
      assert id in JoinedBindings(db);
      var i :| 0 <= i < |o.bindings| && o.bindings[i] == id;
      assert s.bindings[i] == x;
    }
  }

  /** A read shows the visible projection of the state it reads, and no more. */
  lemma ReadShowsVisible(db: DB, o: RowOrder)
    requires Answers(db, o)
    ensures ContentOf(ReadSnapshot(db, o)) == Visible(db)
    ensures ReadSnapshot(db, o).version == db.version
  {
    ReadShowsKeys(db, o);
    ReadShowsHooks(db, o);
    ReadShowsTenants(db, o);
    ReadShowsBindings(db, o);
  }

  /** Column by column: the rows of a read are the live keys, the hooks, the
      tenants and the bindings that run a module. */
  lemma ReadShowsRows(db: DB, o: RowOrder)
    requires Answers(db, o)
    ensures forall x :: x in ReadSnapshot(db, o).keys <==> KeyShown(db, x)
    ensures forall x :: x in ReadSnapshot(db, o).hooks <==> HookShown(db, x)
    ensures forall x :: x in ReadSnapshot(db, o).tenants <==> TenantShown(db, x)
    ensures forall x :: x in ReadSnapshot(db, o).bindings <==> BindingShown(db, x)
  {
    var s := ReadSnapshot(db, o);
    ReadShowsVisible(db, o);
    VisibleRows(db);
    assert forall x :: x in s.keys <==> x in Range(s.keys);
    assert forall x :: x in s.hooks <==> x in Range(s.hooks);
    assert forall x :: x in s.tenants <==> x in Range(s.tenants);
    assert forall x :: x in s.bindings <==> x in Range(s.bindings);
  }

  // --------------------------------------------------------------- validate

  const MAX_TIMEOUT_MS := 30000
  const MIN_MEMORY_PAGES := 16
  const MAX_MEMORY_PAGES := 16384

  datatype Problem =
    | BadVersion
    | DuplicateHook(name: string)
    | BadHook(name: string)
    | DuplicateTenant(id: string)
    | BadTenant(id: string)
    | DuplicateBinding(id: string, hook: string)
    | BadModuleHash(id: string, hook: string)
    | UnknownHook(id: string, hook: string)
    | UnknownTenant(id: string, hook: string)
    | BadKey(id: string)

  /** HookDef.Validate. */
  predicate HookValid(h: HookOut) {
    && h.defVersion >= 1
    && 0 < h.spec.timeoutMs <= MAX_TIMEOUT_MS
    && MIN_MEMORY_PAGES <= h.spec.memoryMaxPages <= MAX_MEMORY_PAGES
    && h.spec.inputSchema.JObject? && h.spec.outputSchema.JObject?
  }

  /** What is wrong with a refused definition. */
  predicate OutOfBounds(h: HookOut) {
    || h.defVersion < 1
    || h.spec.timeoutMs < 1 || h.spec.timeoutMs > 30000
    || h.spec.memoryMaxPages < 16 || h.spec.memoryMaxPages > 16384
    || !h.spec.inputSchema.JObject? || !h.spec.outputSchema.JObject?
  }

  /** The data plane refuses a definition exactly where the database's own
      constraints on its columns do; the name and the sample input are the
      database's affair alone. */
  lemma TablesMirrorPlane(h: HookRow)
    ensures HookOk(h) <==> IsHookName(h.name) && h.spec.sampleInput.JObject? && HookValid(HookOut(h.name, h.defVersion, h.spec))
    ensures HookValid(HookOut(h.name, h.defVersion, h.spec)) <==> !OutOfBounds(HookOut(h.name, h.defVersion, h.spec))
  {
  }

  ghost predicate KnowsHook(s: Snapshot, name: string) {
    exists h :: h in s.hooks && h.name == name
  }

  ghost predicate KnowsTenant(s: Snapshot, id: string) {
    exists t :: t in s.tenants && t.externalId == id
  }

  predicate SameBinding(a: BindingOut, b: BindingOut) {
    a.tenantId == b.tenantId && a.hook == b.hook
  }

  /** What the data plane demands of a snapshot before it runs on it. */
  ghost predicate Acceptable(s: Snapshot) {
    && s.version >= 1
    && (forall i, j :: 0 <= i < j < |s.hooks| ==> s.hooks[i].name != s.hooks[j].name)
    && (forall h :: h in s.hooks ==> HookValid(h))
    && (forall i, j :: 0 <= i < j < |s.tenants| ==> s.tenants[i].externalId != s.tenants[j].externalId)
    && (forall t :: t in s.tenants ==> t.concurrency >= 0)
    && (forall i, j :: 0 <= i < j < |s.bindings| ==> !SameBinding(s.bindings[i], s.bindings[j]))
    && (forall b :: b in s.bindings ==>
          IsModuleHash(b.moduleHash) && KnowsHook(s, b.hook) && KnowsTenant(s, b.tenantId))
    && (forall k :: k in s.keys ==> IsHex64(k.sha256))
  }

  /** The problem a rejection names is really there. */
  ghost predicate Real(s: Snapshot, p: Problem) {
    match p
    case BadVersion => s.version < 1
    case DuplicateHook(n) => exists i, j :: 0 <= i < j < |s.hooks| && s.hooks[i].name == s.hooks[j].name == n
    case BadHook(n) => exists h :: h in s.hooks && h.name == n && OutOfBounds(h)
    case DuplicateTenant(n) =>
      exists i, j :: 0 <= i < j < |s.tenants| && s.tenants[i].externalId == s.tenants[j].externalId == n
    case BadTenant(n) => exists t :: t in s.tenants && t.externalId == n && t.concurrency < 0
    case DuplicateBinding(n, h) =>
      exists i, j :: 0 <= i < j < |s.bindings| && SameBinding(s.bindings[i], s.bindings[j])
                     && s.bindings[j].tenantId == n && s.bindings[j].hook == h
    case BadModuleHash(n, h) =>
      exists b :: b in s.bindings && b.tenantId == n && b.hook == h && !IsModuleHash(b.moduleHash)
    case UnknownHook(n, h) => !KnowsHook(s, h) && exists b :: b in s.bindings && b.tenantId == n && b.hook == h
    case UnknownTenant(n, h) => !KnowsTenant(s, n) && exists b :: b in s.bindings && b.tenantId == n && b.hook == h
    case BadKey(id) => exists k :: k in s.keys && k.id == id && !IsHex64(k.sha256)
  }

  method CheckHooks(s: Snapshot) returns (p: Option<Problem>, names: set<string>)
    ensures p.Some? ==> Real(s, p.value)
    ensures p.None? ==>
      && (forall i, j :: 0 <= i < j < |s.hooks| ==> s.hooks[i].name != s.hooks[j].name)
      && (forall h :: h in s.hooks ==> HookValid(h))
      && (forall n :: n in names <==> KnowsHook(s, n))
  {
    names := {};
    var i := 0;
    while i < |s.hooks|
      invariant 0 <= i <= |s.hooks|
      invariant forall j :: 0 <= j < i ==> s.hooks[j].name in names && HookValid(s.hooks[j])
      invariant forall n :: n in names ==> exists j :: 0 <= j < i && s.hooks[j].name == n
      invariant forall j, k :: 0 <= j < k < i ==> s.hooks[j].name != s.hooks[k].name
    {
      var h := s.hooks[i];
      if h.name in names {
        return Some(DuplicateHook(h.name)), names;
      }
      names := names + {h.name};
      if !HookValid(h) {
        assert h in s.hooks;
        return Some(BadHook(h.name)), names;
      }
      i := i + 1;
    }
    forall n | n in names ensures KnowsHook(s, n) {
      var j :| 0 <= j < i && s.hooks[j].name == n;
      assert s.hooks[j] in s.hooks;
    }
    p := None;
  }

  method CheckTenants(s: Snapshot) returns (p: Option<Problem>, ids: set<string>)
    ensures p.Some? ==> Real(s, p.value)
    ensures p.None? ==>
      && (forall i, j :: 0 <= i < j < |s.tenants| ==> s.tenants[i].externalId != s.tenants[j].externalId)
      && (forall t :: t in s.tenants ==> t.concurrency >= 0)
      && (forall n :: n in ids <==> KnowsTenant(s, n))
  {
    ids := {};
    var i := 0;
    while i < |s.tenants|
      invariant 0 <= i <= |s.tenants|
      invariant forall j :: 0 <= j < i ==> s.tenants[j].externalId in ids && s.tenants[j].concurrency >= 0
      invariant forall n :: n in ids ==> exists j :: 0 <= j < i && s.tenants[j].externalId == n
      invariant forall j, k :: 0 <= j < k < i ==> s.tenants[j].externalId != s.tenants[k].externalId
    {
      var t := s.tenants[i];
      if t.externalId in ids {
        return Some(DuplicateTenant(t.externalId)), ids;
      }
      ids := ids + {t.externalId};
      if t.concurrency < 0 {
        assert t in s.tenants;
        return Some(BadTenant(t.externalId)), ids;
      }
      i := i + 1;
    }
    forall n | n in ids ensures KnowsTenant(s, n) {
      var j :| 0 <= j < i && s.tenants[j].externalId == n;
      assert s.tenants[j] in s.tenants;
    }
    p := None;
  }

  method CheckBindings(s: Snapshot, names: set<string>, ids: set<string>) returns (p: Option<Problem>)
    requires forall n :: n in names <==> KnowsHook(s, n)
    requires forall n :: n in ids <==> KnowsTenant(s, n)
    ensures p.Some? ==> Real(s, p.value)
    ensures p.None? ==>
      && (forall i, j :: 0 <= i < j < |s.bindings| ==> !SameBinding(s.bindings[i], s.bindings[j]))
      && (forall b :: b in s.bindings ==>
            IsModuleHash(b.moduleHash) && KnowsHook(s, b.hook) && KnowsTenant(s, b.tenantId))
  {
    var seen: set<(string, string)> := {};
    var i := 0;
    while i < |s.bindings|
      invariant 0 <= i <= |s.bindings|
      invariant forall j :: 0 <= j < i ==>
        (s.bindings[j].tenantId, s.bindings[j].hook) in seen && IsModuleHash(s.bindings[j].moduleHash)
        && s.bindings[j].hook in names && s.bindings[j].tenantId in ids
      invariant forall q :: q in seen ==> exists j :: 0 <= j < i && (s.bindings[j].tenantId, s.bindings[j].hook) == q
      invariant forall j, k :: 0 <= j < k < i ==> !SameBinding(s.bindings[j], s.bindings[k])
    {
      var b := s.bindings[i];
      assert b in s.bindings;
      if (b.tenantId, b.hook) in seen {
        ghost var j :| 0 <= j < i && (s.bindings[j].tenantId, s.bindings[j].hook) == (b.tenantId, b.hook);
        assert SameBinding(s.bindings[j], s.bindings[i]);
        return Some(DuplicateBinding(b.tenantId, b.hook));
      }
      seen := seen + {(b.tenantId, b.hook)};
      if !IsModuleHash(b.moduleHash) {
        return Some(BadModuleHash(b.tenantId, b.hook));
      }
      if b.hook !in names {
        return Some(UnknownHook(b.tenantId, b.hook));
      }
      if b.tenantId !in ids {
        return Some(UnknownTenant(b.tenantId, b.hook));
      }
      i := i + 1;
    }
    p := None;
  }

  /** validate: accepts exactly the acceptable snapshots, and names a real
      problem of every other. */
  method Validate(s: Snapshot) returns (p: Option<Problem>)
    ensures p.None? <==> Acceptable(s)
    ensures p.Some? ==> Real(s, p.value)
  {
    if s.version < 1 {
      return Some(BadVersion);
    }
    var names, ids;
    p, names := CheckHooks(s);
    if p.Some? { RealIsUnacceptable(s, p.value); return; }
    p, ids := CheckTenants(s);
    if p.Some? { RealIsUnacceptable(s, p.value); return; }
    p := CheckBindings(s, names, ids);
    if p.Some? { RealIsUnacceptable(s, p.value); return; }
    var i := 0;
    while i < |s.keys|
      invariant 0 <= i <= |s.keys|
      invariant forall j :: 0 <= j < i ==> IsHex64(s.keys[j].sha256)
    {
      if !IsHex64(s.keys[i].sha256) {
        p := Some(BadKey(s.keys[i].id));
        assert s.keys[i] in s.keys;
        RealIsUnacceptable(s, p.value);
        return;
      }
      i := i + 1;
    }
    p := None;
  }

  lemma RealIsUnacceptable(s: Snapshot, p: Problem)
    requires Real(s, p)
    ensures !Acceptable(s)
  {
  }

  // -------------------------------------------------- from database to plane

  lemma ReadHooksAcceptable(db: DB, o: RowOrder)
    requires Constraints(db) && Answers(db, o)
    ensures var s := ReadSnapshot(db, o);
      && (forall i, j :: 0 <= i < j < |s.hooks| ==> s.hooks[i].name != s.hooks[j].name)
      && (forall h :: h in s.hooks ==> HookValid(h))
      && (forall i, j :: 0 <= i < j < |s.tenants| ==> s.tenants[i].externalId != s.tenants[j].externalId)
      && (forall t :: t in s.tenants ==> t.concurrency >= 0)
  {
  }

  lemma ReadKnows(db: DB, o: RowOrder)
    requires Answers(db, o)
    ensures forall id :: id in db.hooks ==> KnowsHook(ReadSnapshot(db, o), db.hooks[id].name)
    ensures forall id :: id in db.tenants ==> KnowsTenant(ReadSnapshot(db, o), db.tenants[id].externalId)
  {
    var s := ReadSnapshot(db, o);
    forall id | id in db.hooks ensures KnowsHook(s, db.hooks[id].name) {
      var h :| 0 <= h < |o.hooks| && o.hooks[h] == id;
      assert s.hooks[h] in s.hooks;
    }
    forall id | id in db.tenants ensures KnowsTenant(s, db.tenants[id].externalId) {
      var t :| 0 <= t < |o.tenants| && o.tenants[t] == id;
      assert s.tenants[t] in s.tenants;
    }
  }

  lemma ReadBindingAcceptable(db: DB, o: RowOrder, i: nat)
    requires Checks(db) && Answers(db, o) && i < |o.bindings|
    ensures var s := ReadSnapshot(db, o);
      IsModuleHash(s.bindings[i].moduleHash)
      && KnowsHook(s, s.bindings[i].hook) && KnowsTenant(s, s.bindings[i].tenantId)
  {
    ReadKnows(db, o);
    assert o.bindings[i] in JoinedBindings(db);
    assert ModuleOk(db, db.modules[db.bindings[o.bindings[i]].active.value]);
  }

  lemma ReadBindingsDistinct(db: DB, o: RowOrder, i: nat, j: nat)
    requires Constraints(db) && Answers(db, o) && i < j < |o.bindings|
    ensures !SameBinding(ReadSnapshot(db, o).bindings[i], ReadSnapshot(db, o).bindings[j])
  {
  }

  lemma ReadKeysAcceptable(db: DB, o: RowOrder)
    requires Checks(db) && Answers(db, o)
    ensures forall k :: k in ReadSnapshot(db, o).keys ==> IsHex64(k.sha256)
  {
  }

  /** A database that satisfies its declared constraints never yields a
      snapshot that the data plane rejects, in whatever order rows come. */
  lemma ReadIsAcceptable(db: DB, o: RowOrder)
    requires Constraints(db) && Answers(db, o)
    ensures Acceptable(ReadSnapshot(db, o))
  {
    var s := ReadSnapshot(db, o);
    ReadHooksAcceptable(db, o);
    ReadKeysAcceptable(db, o);
    forall i, j | 0 <= i < j < |s.bindings| ensures !SameBinding(s.bindings[i], s.bindings[j]) {
      ReadBindingsDistinct(db, o, i, j);
    }
    forall i | 0 <= i < |s.bindings|
      ensures IsModuleHash(s.bindings[i].moduleHash)
        && KnowsHook(s, s.bindings[i].hook) && KnowsTenant(s, s.bindings[i].tenantId)
    {
      ReadBindingAcceptable(db, o, i);
    }
  }

  // ------------------------------------------------------------------- View

  const DEFAULT_CONCURRENCY_LIMIT := 4

  /** A limit of 0 stands for the default. */
  function Effective(t: TenantOut): TenantOut {
    if t.concurrency == 0 then t.(concurrency := DEFAULT_CONCURRENCY_LIMIT) else t
  }

  datatype View = View(version: int, hooks: map<string, HookOut>, tenants: map<string, TenantOut>,
                       bindings: map<(string, string), BindingOut>)
  {
    function Hook(name: string): Option<HookOut> {
      if name in hooks then Some(hooks[name]) else None
    }

    function Tenant(id: string): Option<TenantOut> {
      if id !in tenants then None else Some(Effective(tenants[id]))
    }

    function Binding(tenantId: string, hook: string): Option<BindingOut> {
      if (tenantId, hook) in bindings then Some(bindings[(tenantId, hook)]) else None
    }
  }

  /** What indexing gives: the last row under each key wins. */
  function IndexHooks(xs: seq<HookOut>): map<string, HookOut> {
    if xs == [] then map[] else IndexHooks(xs[..|xs| - 1])[xs[|xs| - 1].name := xs[|xs| - 1]]
  }

  function IndexTenants(xs: seq<TenantOut>): map<string, TenantOut> {
    if xs == [] then map[] else IndexTenants(xs[..|xs| - 1])[xs[|xs| - 1].externalId := xs[|xs| - 1]]
  }

  function IndexBindings(xs: seq<BindingOut>): map<(string, string), BindingOut> {
    if xs == [] then map[]
    else IndexBindings(xs[..|xs| - 1])[(xs[|xs| - 1].tenantId, xs[|xs| - 1].hook) := xs[|xs| - 1]]
  }

  function ViewOf(s: Snapshot): View {
    View(s.version, IndexHooks(s.hooks), IndexTenants(s.tenants), IndexBindings(s.bindings))
  }

  method NewView(s: Snapshot) returns (v: View)
    ensures v == ViewOf(s)
  {
    var hooks: map<string, HookOut> := map[];
    var i := 0;
    while i < |s.hooks|
      invariant 0 <= i <= |s.hooks| && hooks == IndexHooks(s.hooks[..i])
    {
      assert s.hooks[..i + 1][..i] == s.hooks[..i];
      hooks := hooks[s.hooks[i].name := s.hooks[i]];
      i := i + 1;
    }
    assert s.hooks[..i] == s.hooks;
    var tenants: map<string, TenantOut> := map[];
    i := 0;
    while i < |s.tenants|
      invariant 0 <= i <= |s.tenants| && tenants == IndexTenants(s.tenants[..i])
    {
      assert s.tenants[..i + 1][..i] == s.tenants[..i];
      tenants := tenants[s.tenants[i].externalId := s.tenants[i]];
      i := i + 1;
    }
    assert s.tenants[..i] == s.tenants;
    var bindings: map<(string, string), BindingOut> := map[];
    i := 0;
    while i < |s.bindings|
      invariant 0 <= i <= |s.bindings| && bindings == IndexBindings(s.bindings[..i])
    {
      assert s.bindings[..i + 1][..i] == s.bindings[..i];
      bindings := bindings[(s.bindings[i].tenantId, s.bindings[i].hook) := s.bindings[i]];
      i := i + 1;
    }
    assert s.bindings[..i] == s.bindings;
    v := View(s.version, hooks, tenants, bindings);
  }

  lemma {:induction false} IndexHooksMeaning(xs: seq<HookOut>)
    requires forall i, j :: 0 <= i < j < |xs| ==> xs[i].name != xs[j].name
    ensures forall n :: n in IndexHooks(xs) ==> IndexHooks(xs)[n] in xs && IndexHooks(xs)[n].name == n
    ensures forall h :: h in xs ==> h.name in IndexHooks(xs) && IndexHooks(xs)[h.name] == h
  {
    if xs != [] {
      var n := |xs| - 1;
      assert xs == xs[..n] + [xs[n]];
      IndexHooksMeaning(xs[..n]);
    }
  }

  lemma {:induction false} IndexTenantsMeaning(xs: seq<TenantOut>)
    requires forall i, j :: 0 <= i < j < |xs| ==> xs[i].externalId != xs[j].externalId
    ensures forall n :: n in IndexTenants(xs) ==> IndexTenants(xs)[n] in xs && IndexTenants(xs)[n].externalId == n
    ensures forall t :: t in xs ==> t.externalId in IndexTenants(xs) && IndexTenants(xs)[t.externalId] == t
  {
    if xs != [] {
      var n := |xs| - 1;
      assert xs == xs[..n] + [xs[n]];
      IndexTenantsMeaning(xs[..n]);
    }
  }

  lemma {:induction false} IndexBindingsMeaning(xs: seq<BindingOut>)
    requires forall i, j :: 0 <= i < j < |xs| ==> !SameBinding(xs[i], xs[j])
    ensures forall q :: q in IndexBindings(xs) ==>
      IndexBindings(xs)[q] in xs && (IndexBindings(xs)[q].tenantId, IndexBindings(xs)[q].hook) == q
    ensures forall b :: b in xs ==>
      (b.tenantId, b.hook) in IndexBindings(xs) && IndexBindings(xs)[(b.tenantId, b.hook)] == b
  {
    if xs != [] {
      var n := |xs| - 1;
      assert xs == xs[..n] + [xs[n]];
      IndexBindingsMeaning(xs[..n]);
      assert forall b :: b in xs[..n] ==> !SameBinding(b, xs[n]);
    }
  }

  /** t is the tenant n of the content, with the limit it effectively has. */
  ghost predicate AnswersTenant(c: Content, n: string, t: TenantOut) {
    exists raw :: raw in c.tenants && raw.externalId == n && t == Effective(raw)
  }

  /** The view's lookups answer exactly what content holds: no row lost, none invented. */
  ghost predicate Shows(v: View, c: Content) {
    && (forall n, h :: v.Hook(n) == Some(h) <==> h in c.hooks && h.name == n)
    && (forall n, t :: v.Tenant(n) == Some(t) <==> AnswersTenant(c, n, t))
    && (forall n, h, b :: v.Binding(n, h) == Some(b) <==> b in c.bindings && b.tenantId == n && b.hook == h)
  }

  lemma ViewShowsHooks(s: Snapshot)
    requires Acceptable(s)
    ensures forall n, h :: ViewOf(s).Hook(n) == Some(h) <==> h in ContentOf(s).hooks && h.name == n
  {
    IndexHooksMeaning(s.hooks);
  }

  lemma ViewShowsTenants(s: Snapshot)
    requires Acceptable(s)
    ensures forall n, t :: ViewOf(s).Tenant(n) == Some(t) <==> AnswersTenant(ContentOf(s), n, t)
  {
    IndexTenantsMeaning(s.tenants);
    var v := ViewOf(s);
    forall n, t | v.Tenant(n) == Some(t) ensures AnswersTenant(ContentOf(s), n, t) {
      assert v.tenants[n] in ContentOf(s).tenants;
    }
  }

  lemma ViewShowsBindings(s: Snapshot)
    requires Acceptable(s)
    ensures forall n, h, b ::
      ViewOf(s).Binding(n, h) == Some(b) <==> b in ContentOf(s).bindings && b.tenantId == n && b.hook == h
  {
    IndexBindingsMeaning(s.bindings);
  }

  lemma ViewShowsContent(s: Snapshot)
    requires Acceptable(s)
    ensures Shows(ViewOf(s), ContentOf(s)) && ViewOf(s).version == s.version
  {
    ViewShowsHooks(s);
    ViewShowsTenants(s);
    ViewShowsBindings(s);
  }

  /** End to end: a constrained database, read in any order, is accepted and
      indexed into a view that answers exactly its visible projection. */
  lemma ViewShowsDatabase(db: DB, o: RowOrder)
    requires Constraints(db) && Answers(db, o)
    ensures Acceptable(ReadSnapshot(db, o))
    ensures Shows(ViewOf(ReadSnapshot(db, o)), Visible(db))
    ensures Serves(ViewOf(ReadSnapshot(db, o)), db)
  {
    ReadIsAcceptable(db, o);
    ReadShowsVisible(db, o);
    ViewShowsContent(ReadSnapshot(db, o));
    ShowsRows(ViewOf(ReadSnapshot(db, o)), db);
  }

  /** t is what the row of the tenant n says, with a limit of 4 where it says 0. */
  ghost predicate ServesTenant(db: DB, n: string, t: TenantOut) {
    exists id :: id in db.tenants && n == t.externalId == db.tenants[id].externalId
                 && t.rateLimit == db.tenants[id].rateLimit
                 && t.concurrency == if db.tenants[id].concurrency == 0 then 4 else db.tenants[id].concurrency
  }

  /** The lookups of the view answer the rows of the database, column by column. */
  ghost predicate Serves(v: View, db: DB) {
    && (forall n, h :: v.Hook(n) == Some(h) <==> HookShown(db, h) && h.name == n)
    && (forall n, t :: v.Tenant(n) == Some(t) <==> ServesTenant(db, n, t))
    && (forall n, h, b :: v.Binding(n, h) == Some(b) <==> BindingShown(db, b) && b.tenantId == n && b.hook == h)
  }

  lemma ShowsTenantRow(db: DB, n: string, t: TenantOut)
    ensures AnswersTenant(Visible(db), n, t) <==> ServesTenant(db, n, t)
  {
    if AnswersTenant(Visible(db), n, t) {
      var raw :| raw in Visible(db).tenants && raw.externalId == n && t == Effective(raw);
      var id :| id in db.tenants && raw == ShowTenant(db, id);
    }
    if ServesTenant(db, n, t) {
      var id :| id in db.tenants && n == t.externalId == db.tenants[id].externalId
                && t.rateLimit == db.tenants[id].rateLimit
                && t.concurrency == if db.tenants[id].concurrency == 0 then 4 else db.tenants[id].concurrency;
      assert ShowTenant(db, id) in Visible(db).tenants;
    }
  }

  lemma ShowsRows(v: View, db: DB)
    requires Shows(v, Visible(db))
    ensures Serves(v, db)
  {
    VisibleRows(db);
    forall n, t ensures v.Tenant(n) == Some(t) <==> ServesTenant(db, n, t) {
      ShowsTenantRow(db, n, t);
    }
  }
}
