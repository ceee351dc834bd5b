/** What every run of committed transactions keeps: the declared constraints,
    the meaning of the version numbers, and the audit trail. */
module History {
  import opened Basics
  import opened Tables
  import opened Services
  import opened Text

  /** One committed transaction (or the opening of a binding update). */
  datatype Commit =
    | HookCreated(id: Uuid, name: string, spec: HookSpec, rulesOk: bool)
    | HookReplaced(name: string, spec: HookSpec, rulesOk: bool)
    | TenantCreated(id: Uuid, row: TenantRow)
    | TenantPatchedBy(externalId: string, p: TenantPatch)
    | KeyCreated(key: string, name: string, sha256: string)
    | KeyRevoked(key: string)
    | BindingFinished(pending: Pending)
    | ModuleInserted(id: Uuid, tenant: Uuid, hook: Uuid, contentHash: string, size: int)
    | ModuleMarked(id: Uuid)
    | ModuleJudged(id: Uuid, report: Report)

  /** A binding update that has read its tenant, or its tenant and its hook; each
      statement reads the state committed by then. */
  datatype Reading = TenantRead(tenant: Uuid) | HookRead(tenant: Uuid, hook: Uuid)

  /** The committed state and the binding updates whose transaction is open: still
      reading, or past the read of their candidate. */
  datatype Sys = Sys(db: DB, reading: set<Reading>, open: set<Pending>)

  ghost predicate CanCommit(s: Sys, c: Commit) {
    (c.BindingFinished? ==> c.pending in s.open) && (c.KeyCreated? ==> IsHex64(c.sha256))
  }

  ghost function AfterCommit(db: DB, c: Commit): DB
    requires c.KeyCreated? ==> IsHex64(c.sha256)
  {
    match c
    case HookCreated(id, name, spec, ok) => CreateHook(db, id, name, spec, ok).0
    case HookReplaced(name, spec, ok) => ReplaceHook(db, name, spec, ok).0
    case TenantCreated(id, row) => CreateTenant(db, id, row).0
    case TenantPatchedBy(e, p) => PatchTenant(db, e, p).0
    case KeyCreated(id, name, sha) => CreateKey(db, id, name, sha).0
    case KeyRevoked(id) => RevokeKey(db, id).0
    case BindingFinished(p) => FinishBinding(db, p)
    case ModuleInserted(id, t, h, hash, n) => InsertModule(db, id, t, h, hash, n).0
    case ModuleMarked(id) => MarkValidating(db, id)
    case ModuleJudged(id, r) => FinishValidation(db, id, r)
  }

  ghost predicate ReadsTenant(s: Sys, s': Sys) {
    exists e :: TenantNamed(s.db, e).Some? && s' == s.(reading := s.reading + {TenantRead(TenantNamed(s.db, e).value)})
  }

  ghost predicate ReadsHook(s: Sys, s': Sys) {
    exists name, r :: r in s.reading && r.TenantRead? && HookNamed(s.db, name).Some?
                      && s' == s.(reading := s.reading + {HookRead(r.tenant, HookNamed(s.db, name).value)})
  }

  ghost predicate ReadsCandidate(s: Sys, s': Sys) {
    exists r, m, c, p :: r in s.reading && r.HookRead? && WithCandidate(s.db, r.tenant, r.hook, m, c) == Open(p)
                         && s' == s.(open := s.open + {p})
  }

  /** A read of a binding update, in a statement of its own. */
  ghost predicate Opens(s: Sys, s': Sys) {
    ReadsTenant(s, s') || ReadsHook(s, s') || ReadsCandidate(s, s')
  }

  /** The update that BindingBegin opens is one whose three reads see one state. */
  lemma BeginIsThreeReads(s: Sys, externalId: string, hookName: string, m: ModuleId,
                          config: Option<map<string, string>>, p: Pending) returns (a: Sys, b: Sys, t: Sys)
    requires BeginBinding(s.db, externalId, hookName, m, config) == Open(p)
    ensures Opens(s, a) && Opens(a, b) && Opens(b, t)
    ensures t.db == s.db && t.open == s.open + {p}
  {
    var tenant, hook := TenantNamed(s.db, externalId).value, HookNamed(s.db, hookName).value;
    a := s.(reading := s.reading + {TenantRead(tenant)});
    b := a.(reading := a.reading + {HookRead(tenant, hook)});
    t := b.(open := b.open + {p});
    assert ReadsTenant(s, a);
    assert TenantRead(tenant) in a.reading && ReadsHook(a, b);
    assert HookRead(tenant, hook) in b.reading && WithCandidate(b.db, tenant, hook, m, config) == Open(p);
    assert ReadsCandidate(b, t);
  }

  ghost predicate Commits(s: Sys, s': Sys) {
    exists c :: CanCommit(s, c) && s'.db == AfterCommit(s.db, c) && s'.reading == s.reading
                && s'.open == if c.BindingFinished? then s.open - {c.pending} else s.open
  }

  ghost predicate Next(s: Sys, s': Sys) {
    Opens(s, s') || Commits(s, s')
  }

  ghost predicate IsRun(run: seq<Sys>) {
    && run != [] && run[0] == Sys(EMPTY_DB, {}, {})
    && forall i :: 0 <= i < |run| - 1 ==> StepAt(run, i)
  }

  ghost predicate StepAt(run: seq<Sys>, i: nat)
    requires i + 1 < |run|
  {
    Next(run[i], run[i + 1])
  }

  // ------------------------------------------------------------ invariants

  /** status and report are written together: the verdict is the report's. */
  predicate VerdictOk(m: ModuleRow) {
    match m.status
    case Validated => m.report.Some? && m.report.value.ok
    case Rejected => m.report.Some? && !m.report.value.ok
    case _ => m.report.None?
  }

  ghost predicate Runnable(db: DB, id: Uuid, tenant: Uuid, hook: Uuid) {
    && id in db.modules && db.modules[id].status == Validated
    && db.modules[id].tenant == tenant && db.modules[id].hook == hook
  }

  ghost predicate PendingOk(db: DB, p: Pending) {
    && p.tenant in db.tenants && p.hook in db.hooks
    && (p.candidate.Some? ==> Runnable(db, p.candidate.value, p.tenant, p.hook))
  }

  ghost predicate ReadingOk(db: DB, r: Reading) {
    r.tenant in db.tenants && (r.HookRead? ==> r.hook in db.hooks)
  }

  /** Each snapshot version above the first has exactly one audit row. */
  ghost predicate Audited(db: DB) {
    forall v :: v in db.changes <==> 1 < v <= db.version
  }

  ghost predicate ActivesOk(db: DB) {
    forall b :: b in db.bindings && db.bindings[b].active.Some? ==>
      Runnable(db, db.bindings[b].active.value, b.0, b.1)
  }

  ghost predicate ReadingsOk(db: DB, reading: set<Reading>) {
    forall r :: r in reading ==> ReadingOk(db, r)
  }

  ghost predicate PendingsOk(db: DB, open: set<Pending>) {
    forall p :: p in open ==> PendingOk(db, p)
  }

  /** The part of the invariant that speaks of the committed rows alone. */
  ghost predicate DbInv(db: DB) {
    Constraints(db) && Audited(db) && AllVerdictsOk(db.modules) && ActivesOk(db)
  }

  ghost predicate Inv(s: Sys) {
    DbInv(s.db) && ReadingsOk(s.db, s.reading) && PendingsOk(s.db, s.open)
  }

  // -------------------------------------------------------- how rows evolve

  predicate Grows(a: HookSpec, b: HookSpec) {
    ToSet(a.hostFunctions) <= ToSet(b.hostFunctions) && ToSet(a.effectTypes) <= ToSet(b.effectTypes)
  }

  predicate HookEvolves(a: HookRow, b: HookRow) {
    && a.name == b.name && a.defVersion <= b.defVersion
    && (a.defVersion == b.defVersion ==> a.spec == b.spec)
    && Grows(a.spec, b.spec)
  }

  predicate BindingEvolves(a: BindingRow, b: BindingRow) {
    && a.configVersion <= b.configVersion
    && (a.configVersion == b.configVersion ==> a.config == b.config)
    && (a.active.Some? ==> b.active.Some?)
  }

  function Rank(s: Status): nat {
    match s case Uploaded => 0 case Validating => 1 case Validated => 2 case Rejected => 2 case Archived => 2
  }

  /** Status only moves forward, and a verdict, once written, is final. */
  predicate ModuleEvolves(a: ModuleRow, b: ModuleRow) {
    && SameModule(a, b) && a.size == b.size
    && Rank(a.status) <= Rank(b.status)
    && (Rank(a.status) == 2 ==> a == b)
  }

  predicate KeyEvolves(a: KeyRow, b: KeyRow) {
    a.name == b.name && a.sha256 == b.sha256 && (a.revoked ==> b.revoked)
  }

  ghost predicate RowsEvolve(a: DB, b: DB) {
    && (forall id :: id in a.hooks ==> id in b.hooks && HookEvolves(a.hooks[id], b.hooks[id]))
    && (forall id :: id in a.bindings ==> id in b.bindings && BindingEvolves(a.bindings[id], b.bindings[id]))
    && (forall id :: id in a.modules ==> id in b.modules && ModuleEvolves(a.modules[id], b.modules[id]))
    && (forall id :: id in a.keys ==> id in b.keys && KeyEvolves(a.keys[id], b.keys[id]))
    && (forall id :: id in a.tenants ==> id in b.tenants && a.tenants[id].externalId == b.tenants[id].externalId)
  }

  /** The snapshot version never falls, and names one visible projection. */
  ghost predicate VersionEvolves(a: DB, b: DB) {
    a.version <= b.version && (a.version == b.version ==> Visible(a) == Visible(b))
  }

  ghost predicate Evolves(a: DB, b: DB) {
    RowsEvolve(a, b) && VersionEvolves(a, b)
  }

  lemma EvolvesTransitive(a: DB, b: DB, c: DB)
    requires Evolves(a, b) && Evolves(b, c)
    ensures Evolves(a, c)
  {
  }

  // -------------------------------------------------------- one commit

  /** A commit that changes no visible row leaves the projection alone. */
  lemma HiddenChange(a: DB, b: DB)
    requires b.keys == a.keys && b.hooks == a.hooks && b.bindings == a.bindings
    requires a.tenants.Keys == b.tenants.Keys
    requires forall id :: id in a.tenants ==> ShowTenant(a, id) == ShowTenant(b, id)
    requires forall id :: id in a.modules ==> id in b.modules && a.modules[id].contentHash == b.modules[id].contentHash
    requires forall id :: id in a.bindings && a.bindings[id].active.Some? ==> a.bindings[id].active.value in a.modules
    ensures Visible(a) == Visible(b)
  {
  }

  predicate Silent(c: Commit) {
    c.TenantPatchedBy? || c.ModuleInserted? || c.ModuleMarked? || c.ModuleJudged?
  }

  predicate BumpedOrSame(db: DB, db': DB, c: Commit) {
    Bumps(db, db') || (db'.version == db.version && db'.changes == db.changes && (db' == db || Silent(c)))
  }

  predicate OfOperator(c: Commit) {
    c.HookCreated? || c.HookReplaced? || c.TenantCreated? || c.TenantPatchedBy?
  }

  lemma HookBumps(db: DB, c: Commit)
    requires c.HookCreated? || c.HookReplaced?
    ensures BumpedOrSame(db, AfterCommit(db, c), c)
  {
    if c.HookReplaced? { ReplaceBumps(db, c.name, c.spec, c.rulesOk); }
    else { CreateHookBumps(db, c.id, c.name, c.spec, c.rulesOk); }
  }

  predicate Bumps(db: DB, db': DB) {
    db'.version == db.version + 1 && db'.changes.Keys == db.changes.Keys + {db'.version}
  }

  lemma ReplaceBumps(db: DB, name: string, spec: HookSpec, ok: bool)
    ensures ReplaceHook(db, name, spec, ok).0 == db || Bumps(db, ReplaceHook(db, name, spec, ok).0)
  {
  }

  lemma CreateHookBumps(db: DB, id: Uuid, name: string, spec: HookSpec, ok: bool)
    ensures CreateHook(db, id, name, spec, ok).0 == db || Bumps(db, CreateHook(db, id, name, spec, ok).0)
  {
  }

  lemma TenantBumps(db: DB, c: Commit)
    requires c.TenantCreated? || c.TenantPatchedBy?
    ensures BumpedOrSame(db, AfterCommit(db, c), c)
  {
    if c.TenantPatchedBy? { PatchBumps(db, c.externalId, c.p); } else { CreateBumps(db, c); }
  }

  lemma CreateBumps(db: DB, c: Commit)
    requires c.TenantCreated?
    ensures BumpedOrSame(db, AfterCommit(db, c), c)
  {
  }

  lemma PatchBumps(db: DB, e: string, p: TenantPatch)
    ensures var db' := PatchTenant(db, e, p).0;
      || (db'.version == db.version + 1 && db'.changes.Keys == db.changes.Keys + {db'.version})
      || (db'.version == db.version && db'.changes == db.changes)
  {
  }

  lemma OtherBumps(db: DB, c: Commit)
    requires (c.KeyCreated? ==> IsHex64(c.sha256)) && !OfOperator(c)
    ensures BumpedOrSame(db, AfterCommit(db, c), c)
  {
  }

  lemma CommitBumps(db: DB, c: Commit)
    requires c.KeyCreated? ==> IsHex64(c.sha256)
    ensures BumpedOrSame(db, AfterCommit(db, c), c)
  {
    match c
    case HookCreated(_, _, _, _) => HookBumps(db, c);
    case HookReplaced(_, _, _) => HookBumps(db, c);
    case TenantCreated(_, _) => TenantBumps(db, c);
    case TenantPatchedBy(_, _) => TenantBumps(db, c);
    case _ => OtherBumps(db, c);
  }

  /** Every commit leaves the version and the projection alone, or bumps the
      version exactly once. */
  lemma CommitVersion(db: DB, c: Commit)
    requires Checks(db) && (c.KeyCreated? ==> IsHex64(c.sha256))
    ensures var db' := AfterCommit(db, c);
      db'.version == db.version + 1 || (db'.version == db.version && Visible(db') == Visible(db))
  {
    CommitBumps(db, c);
    match c
    case TenantPatchedBy(e, p) => PatchVersion(db, e, p);
    case ModuleInserted(_, _, _, _, _) => SilentVersion(db, c);
    case ModuleMarked(_) => SilentVersion(db, c);
    case ModuleJudged(_, _) => SilentVersion(db, c);
    case _ =>
  }

  lemma InsertShape(db: DB, c: Commit)
    requires c.ModuleInserted?
    ensures var b := AfterCommit(db, c);
      && b == db.(modules := b.modules)
      && forall id :: id in db.modules ==> id in b.modules && db.modules[id] == b.modules[id]
  {
  }

  lemma SilentShape(db: DB, c: Commit)
    requires Silent(c) && !c.TenantPatchedBy?
    ensures var b := AfterCommit(db, c);
      && b == db.(modules := b.modules)
      && forall id :: id in db.modules ==> id in b.modules && db.modules[id].contentHash == b.modules[id].contentHash
  {
    if c.ModuleInserted? { InsertShape(db, c); }
  }

  lemma SilentVersion(db: DB, c: Commit)
    requires Checks(db) && Silent(c) && !c.TenantPatchedBy?
    ensures AfterCommit(db, c).version == db.version && Visible(AfterCommit(db, c)) == Visible(db)
  {
    SilentShape(db, c);
    ModulesHidden(db, AfterCommit(db, c));
  }

  lemma ActiveExists(db: DB)
    requires Checks(db)
    ensures forall id :: id in db.bindings && db.bindings[id].active.Some? ==> db.bindings[id].active.value in db.modules
  {
  }

  lemma PatchVersion(db: DB, e: string, p: TenantPatch)
    requires Checks(db)
    ensures var db' := PatchTenant(db, e, p).0;
      db'.version == db.version + 1 || (db'.version == db.version && Visible(db') == Visible(db))
  {
    var db' := PatchTenant(db, e, p).0;
    if db'.version == db.version && db' != db {
      PatchShows(db, e, p);
      ActiveExists(db);
      HiddenChange(db, db');
    }
  }

  lemma PatchShows(db: DB, e: string, p: TenantPatch)
    requires PatchTenant(db, e, p).0.version == db.version
    ensures var db' := PatchTenant(db, e, p).0;
      && db'.tenants.Keys == db.tenants.Keys
      && db' == db.(tenants := db'.tenants)
      && (forall id :: id in db.tenants ==> ShowTenant(db, id) == ShowTenant(db', id))
  {
    var db' := PatchTenant(db, e, p).0;
    if db' != db {
      var id := TenantNamed(db, e).value;
      assert db'.tenants == db.tenants[id := db'.tenants[id]];
      assert ShowTenant(db, id) == ShowTenant(db', id);
    }
  }

  lemma ModulesHidden(a: DB, b: DB)
    requires Checks(a)
    requires b == a.(modules := b.modules)
    requires forall id :: id in a.modules ==> id in b.modules && a.modules[id].contentHash == b.modules[id].contentHash
    ensures Visible(a) == Visible(b)
  {
    ActiveExists(a);
    HiddenChange(a, b);
  }

  // Each table with one row put.

  /** Foreign keys survive as long as no referenced row goes away or moves. */
  lemma ReferencesKept(a: DB, b: DB)
    requires Checks(a)
    requires a.tenants.Keys <= b.tenants.Keys && a.hooks.Keys <= b.hooks.Keys
    requires forall i :: i in a.modules ==> i in b.modules && SameModule(a.modules[i], b.modules[i])
    ensures forall i :: i in a.modules ==> ModuleOk(b, a.modules[i])
    ensures forall i :: i in a.bindings ==> BindingOk(b, i, a.bindings[i])
  {
  }

  lemma NamesApart(hooks: map<Uuid, HookRow>, id: Uuid, row: HookRow)
    requires forall i, j :: i in hooks && j in hooks && i != j ==> hooks[i].name != hooks[j].name
    requires forall i :: i in hooks && i != id ==> hooks[i].name != row.name
    ensures var put := hooks[id := row];
      forall i, j :: i in put && j in put && i != j ==> put[i].name != put[j].name
  {
  }

  lemma PutHookChecks(db: DB, id: Uuid, row: HookRow)
    requires Checks(db) && HookOk(row)
    ensures Checks(db.(hooks := db.hooks[id := row]))
  {
    ReferencesKept(db, db.(hooks := db.hooks[id := row]));
  }

  lemma PutHook(db: DB, id: Uuid, row: HookRow)
    requires Constraints(db) && HookOk(row)
    requires forall i :: i in db.hooks && i != id ==> db.hooks[i].name != row.name
    ensures Constraints(db.(hooks := db.hooks[id := row]))
  {
    PutHookChecks(db, id, row);
    NamesApart(db.hooks, id, row);
  }

  lemma PutTenant(db: DB, id: Uuid, row: TenantRow)
    requires Constraints(db) && TenantOk(row)
    requires forall i :: i in db.tenants && i != id ==> db.tenants[i].externalId != row.externalId
    ensures Constraints(db.(tenants := db.tenants[id := row]))
  {
    ReferencesKept(db, db.(tenants := db.tenants[id := row]));
  }

  lemma PutKey(db: DB, id: string, row: KeyRow)
    requires Constraints(db) && KeyOk(row)
    requires forall i :: i in db.keys && i != id ==> db.keys[i].name != row.name && db.keys[i].sha256 != row.sha256
    ensures Constraints(db.(keys := db.keys[id := row]))
  {
    var db' := db.(keys := db.keys[id := row]);
    ReferencesKept(db, db');
    assert Checks(db');
    PutKeyApart(db.keys, id, row);
  }

  lemma PutKeyApart(keys: map<string, KeyRow>, id: string, row: KeyRow)
    requires forall i, j :: i in keys && j in keys && i != j ==> keys[i].name != keys[j].name && keys[i].sha256 != keys[j].sha256
    requires forall i :: i in keys && i != id ==> keys[i].name != row.name && keys[i].sha256 != row.sha256
    ensures var all := keys[id := row];
      forall i, j :: i in all && j in all && i != j ==> all[i].name != all[j].name && all[i].sha256 != all[j].sha256
  {
  }

  lemma PutModuleRows(db: DB, id: Uuid, row: ModuleRow)
    requires Checks(db) && ModuleOk(db, row)
    ensures var db' := db.(modules := db.modules[id := row]);
      forall i :: i in db'.modules ==> ModuleOk(db', db'.modules[i])
  {
    assert forall i :: i in db.modules ==> ModuleOk(db, db.modules[i]);
  }

  lemma PutModuleChecks(db: DB, id: Uuid, row: ModuleRow)
    requires Checks(db) && ModuleOk(db, row)
    requires id in db.modules ==> SameModule(db.modules[id], row)
    ensures Checks(db.(modules := db.modules[id := row]))
  {
    PutModuleRows(db, id, row);
    ReferencesKept(db, db.(modules := db.modules[id := row]));
  }

  lemma PutModule(db: DB, id: Uuid, row: ModuleRow)
    requires Constraints(db) && ModuleOk(db, row)
    requires forall i :: i in db.modules && i != id ==> !SameModule(db.modules[i], row)
    requires id in db.modules ==> SameModule(db.modules[id], row)
    ensures Constraints(db.(modules := db.modules[id := row]))
  {
    PutModuleChecks(db, id, row);
    UniquePut(db.modules, id, row);
  }

  lemma UniquePut(modules: map<Uuid, ModuleRow>, id: Uuid, row: ModuleRow)
    requires forall i, j :: i in modules && j in modules && i != j ==> !SameModule(modules[i], modules[j])
    requires forall i :: i in modules && i != id ==> !SameModule(modules[i], row)
    ensures var m := modules[id := row];
      forall i, j :: i in m && j in m && i != j ==> !SameModule(m[i], m[j])
  {
  }

  lemma PutBinding(db: DB, id: BindingId, row: BindingRow)
    requires Constraints(db) && BindingOk(db, id, row)
    ensures Constraints(db.(bindings := db.bindings[id := row]))
  {
  }

  lemma BumpKeeps(db: DB, kind: Kind)
    requires Constraints(db)
    ensures Constraints(Bump(db, kind))
  {
  }

  lemma CommitAudited(db: DB, c: Commit)
    requires Audited(db) && db.version >= 1 && (c.KeyCreated? ==> IsHex64(c.sha256))
    ensures Audited(AfterCommit(db, c))
  {
    CommitBumps(db, c);
  }

  lemma CreateHookKeeps(db: DB, id: Uuid, name: string, raw: HookSpec, ok: bool)
    requires Constraints(db)
    ensures Constraints(CreateHook(db, id, name, raw, ok).0)
  {
    var row := HookRow(name, 1, Normalized(raw));
    if CreateHook(db, id, name, raw, ok).1 == Done {
      PutHook(db, id, row);
      BumpKeeps(db.(hooks := db.hooks[id := row]), HookAdded);
    }
  }

  lemma ReplaceHookKeeps(db: DB, name: string, raw: HookSpec, ok: bool)
    requires Constraints(db)
    ensures Constraints(ReplaceHook(db, name, raw, ok).0)
  {
    var (db', r) := ReplaceHook(db, name, raw, ok);
    if r == Done && db' != db {
      var id := HookNamed(db, name).value;
      var row := HookRow(db.hooks[id].name, db.hooks[id].defVersion + 1, Normalized(raw));
      assert HookOk(db.hooks[id]) && WellFormed(raw);
      PutHook(db, id, row);
      BumpKeeps(db.(hooks := db.hooks[id := row]), HookUpdated);
    }
  }

  lemma CreateTenantKeeps(db: DB, id: Uuid, row: TenantRow)
    requires Constraints(db)
    ensures Constraints(CreateTenant(db, id, row).0)
  {
    if CreateTenant(db, id, row).1 == Done {
      PutTenant(db, id, row);
      BumpKeeps(db.(tenants := db.tenants[id := row]), TenantAdded);
    }
  }

  /** What a patch writes: a row that satisfies its checks under the same name. */
  lemma PatchedRow(db: DB, e: string, p: TenantPatch)
    requires Checks(db) && PatchTenant(db, e, p).0 != db
    ensures TenantNamed(db, e).Some?
    ensures var db', id := PatchTenant(db, e, p).0, TenantNamed(db, e).value;
      && db'.tenants == db.tenants[id := db'.tenants[id]] && TenantOk(db'.tenants[id])
      && db'.tenants[id].externalId == db.tenants[id].externalId
      && (db' == db.(tenants := db'.tenants) || db' == Bump(db.(tenants := db'.tenants), TenantUpdated))
  {
    assert TenantOk(db.tenants[TenantNamed(db, e).value]);
  }

  lemma PatchTenantKeeps(db: DB, e: string, p: TenantPatch)
    requires Constraints(db)
    ensures Constraints(PatchTenant(db, e, p).0)
  {
    var db' := PatchTenant(db, e, p).0;
    if db' != db {
      PatchedRow(db, e, p);
      var id := TenantNamed(db, e).value;
      PutTenant(db, id, db'.tenants[id]);
      BumpKeeps(db.(tenants := db'.tenants), TenantUpdated);
    }
  }

  lemma KeysKeep(db: DB, id: string, name: string, sha: string)
    requires Constraints(db) && IsHex64(sha)
    ensures Constraints(CreateKey(db, id, name, sha).0) && Constraints(RevokeKey(db, id).0)
  {
    if CreateKey(db, id, name, sha).1 == Done {
      PutKey(db, id, KeyRow(name, sha, false));
      BumpKeeps(db.(keys := db.keys[id := KeyRow(name, sha, false)]), KeyAdded);
    }
    if id in db.keys {
      var row := db.keys[id].(revoked := true);
      assert KeyOk(db.keys[id]);
      PutKey(db, id, row);
      BumpKeeps(db.(keys := db.keys[id := row]), KeyWithdrawn);
    }
  }

  lemma FinishBindingKeeps(db: DB, p: Pending)
    requires Constraints(db) && PendingOk(db, p)
    ensures Constraints(FinishBinding(db, p))
  {
    var db', id := FinishBinding(db, p), (p.tenant, p.hook);
    if db' != db {
      if id in db.bindings { assert BindingOk(db, id, db.bindings[id]); }
      PutBinding(db, id, db'.bindings[id]);
      BumpKeeps(db.(bindings := db.bindings[id := db'.bindings[id]]), BindingUpdated);
    }
  }

  lemma KeyRevokedKeeps(db: DB, id: string)
    requires Constraints(db)
    ensures Constraints(RevokeKey(db, id).0)
  {
    if id in db.keys {
      assert KeyOk(db.keys[id]);
      KeysKeep(db, id, "", db.keys[id].sha256);
    }
  }

  /** What an insert adds: one new row that is nobody's double. */
  lemma InsertedRow(db: DB, c: Commit)
    requires c.ModuleInserted? && AfterCommit(db, c) != db
    ensures var db' := AfterCommit(db, c);
      && c.id !in db.modules && c.id in db'.modules && ModuleOk(db, db'.modules[c.id])
      && db' == db.(modules := db.modules[c.id := db'.modules[c.id]])
      && forall i :: i in db.modules ==> !SameModule(db.modules[i], db'.modules[c.id])
  {
  }

  lemma InsertModuleKeeps(db: DB, c: Commit)
    requires Constraints(db) && c.ModuleInserted?
    ensures Constraints(AfterCommit(db, c))
  {
    var db' := AfterCommit(db, c);
    if db' != db {
      InsertedRow(db, c);
      PutModule(db, c.id, db'.modules[c.id]);
    }
  }

  lemma ModuleChangesKeep(db: DB, c: Commit)
    requires Constraints(db) && (c.ModuleMarked? || c.ModuleJudged?)
    ensures Constraints(AfterCommit(db, c))
  {
    if c.id in db.modules { ModuleRowsKeep(db, AfterCommit(db, c), c.id); }
  }

  lemma CommitConstraints(s: Sys, c: Commit)
    requires Constraints(s.db) && CanCommit(s, c) && PendingsOk(s.db, s.open)
    ensures Constraints(AfterCommit(s.db, c))
  {
    var db := s.db;
    match c
    case HookCreated(id, name, spec, ok) => CreateHookKeeps(db, id, name, spec, ok);
    case HookReplaced(name, spec, ok) => ReplaceHookKeeps(db, name, spec, ok);
    case TenantCreated(id, row) => CreateTenantKeeps(db, id, row);
    case TenantPatchedBy(e, p) => PatchTenantKeeps(db, e, p);
    case KeyCreated(id, name, sha) => KeysKeep(db, id, name, sha);
    case KeyRevoked(id) => KeyRevokedKeeps(db, id);
    case BindingFinished(p) => FinishBindingKeeps(db, p);
    case ModuleInserted(_, _, _, _, _) => InsertModuleKeeps(db, c);
    case _ => ModuleChangesKeep(db, c);
  }

  lemma ModuleRowsKeep(db: DB, db': DB, id: Uuid)
    requires Constraints(db) && id in db.modules && id in db'.modules
    requires db' == db.(modules := db.modules[id := db'.modules[id]])
    requires SameModule(db.modules[id], db'.modules[id]) && db'.modules[id].size == db.modules[id].size
    ensures Constraints(db')
  {
    assert ModuleOk(db, db.modules[id]);
    PutModule(db, id, db'.modules[id]);
  }

  lemma HooksUntouched(db: DB, c: Commit)
    requires (c.KeyCreated? ==> IsHex64(c.sha256)) && !c.HookCreated? && !c.HookReplaced?
    ensures AfterCommit(db, c).hooks == db.hooks
  {
  }

  lemma CommitHooks(s: Sys, c: Commit)
    requires CanCommit(s, c)
    ensures var b := AfterCommit(s.db, c);
      forall id :: id in s.db.hooks ==> id in b.hooks && HookEvolves(s.db.hooks[id], b.hooks[id])
  {
    if c.HookCreated? { HookCreatedKeeps(s.db, c); }
    else if c.HookReplaced? { HookReplacedKeeps(s.db, c.name, c.spec, c.rulesOk); }
    else { HooksUntouched(s.db, c); }
  }

  lemma HookCreatedKeeps(db: DB, c: Commit)
    requires c.HookCreated?
    ensures var b := AfterCommit(db, c);
      forall id :: id in db.hooks ==> id in b.hooks && b.hooks[id] == db.hooks[id]
  {
  }

  lemma HookReplacedKeeps(db: DB, name: string, spec: HookSpec, ok: bool)
    ensures var b := ReplaceHook(db, name, spec, ok).0;
      forall id :: id in db.hooks ==> id in b.hooks && HookEvolves(db.hooks[id], b.hooks[id])
  {
  }

  lemma CommitBindings(s: Sys, c: Commit)
    requires CanCommit(s, c)
    ensures var b := AfterCommit(s.db, c);
      forall id :: id in s.db.bindings ==> id in b.bindings && BindingEvolves(s.db.bindings[id], b.bindings[id])
  {
    if !c.BindingFinished? { BindingsUntouched(s.db, c); }
  }

  lemma BindingsUntouched(db: DB, c: Commit)
    requires (c.KeyCreated? ==> IsHex64(c.sha256)) && !c.BindingFinished?
    ensures AfterCommit(db, c).bindings == db.bindings
  {
  }

  lemma CommitModules(s: Sys, c: Commit)
    requires CanCommit(s, c)
    ensures var b := AfterCommit(s.db, c);
      forall id :: id in s.db.modules ==> id in b.modules && ModuleEvolves(s.db.modules[id], b.modules[id])
  {
  }

  ghost predicate AllVerdictsOk(modules: map<Uuid, ModuleRow>) {
    forall id :: id in modules ==> VerdictOk(modules[id])
  }

  lemma CommitVerdicts(s: Sys, c: Commit)
    requires CanCommit(s, c) && AllVerdictsOk(s.db.modules)
    ensures AllVerdictsOk(AfterCommit(s.db, c).modules)
  {
  }

  lemma CommitKeys(s: Sys, c: Commit)
    requires CanCommit(s, c)
    ensures var b := AfterCommit(s.db, c);
      forall id :: id in s.db.keys ==> id in b.keys && KeyEvolves(s.db.keys[id], b.keys[id])
  {
    if !c.KeyCreated? && !c.KeyRevoked? { KeysUntouched(s.db, c); }
  }

  lemma KeysUntouched(db: DB, c: Commit)
    requires !c.KeyCreated? && !c.KeyRevoked?
    ensures AfterCommit(db, c).keys == db.keys
  {
  }

  lemma TenantsUntouched(db: DB, c: Commit)
    requires (c.KeyCreated? ==> IsHex64(c.sha256)) && !c.TenantCreated? && !c.TenantPatchedBy?
    ensures AfterCommit(db, c).tenants == db.tenants
  {
  }

  lemma PatchKeepsIds(db: DB, e: string, p: TenantPatch)
    ensures var b := PatchTenant(db, e, p).0;
      forall id :: id in db.tenants ==> id in b.tenants && db.tenants[id].externalId == b.tenants[id].externalId
  {
  }

  lemma CommitTenants(s: Sys, c: Commit)
    requires CanCommit(s, c)
    ensures var b := AfterCommit(s.db, c);
      forall id :: id in s.db.tenants ==> id in b.tenants && s.db.tenants[id].externalId == b.tenants[id].externalId
  {
    match c
    case TenantCreated(_, _) =>
    case TenantPatchedBy(e, p) => PatchKeepsIds(s.db, e, p);
    case _ => TenantsUntouched(s.db, c);
  }

  lemma CommitRows(s: Sys, c: Commit)
    requires CanCommit(s, c)
    ensures RowsEvolve(s.db, AfterCommit(s.db, c))
  {
    CommitHooks(s, c);
    CommitBindings(s, c);
    CommitModules(s, c);
    CommitKeys(s, c);
    CommitTenants(s, c);
  }

  // ---------------------------------------------------------- every run

  /** What makes a module runnable, or a pending update sound, never goes away:
      validated is final, and tenants, hooks and modules are never deleted. */
  lemma RunnableStays(a: DB, b: DB, id: Uuid, tenant: Uuid, hook: Uuid)
    requires RowsEvolve(a, b) && Runnable(a, id, tenant, hook)
    ensures Runnable(b, id, tenant, hook)
  {
  }

  lemma PendingStays(a: DB, b: DB, p: Pending)
    requires RowsEvolve(a, b) && PendingOk(a, p)
    ensures PendingOk(b, p)
  {
  }

  /** Only the commit of a binding update makes another module active. */
  lemma CommitActivates(db: DB, c: Commit, b: BindingId)
    requires c.KeyCreated? ==> IsHex64(c.sha256)
    requires b in AfterCommit(db, c).bindings && AfterCommit(db, c).bindings[b].active.Some?
    ensures var active := AfterCommit(db, c).bindings[b].active;
      (b in db.bindings && db.bindings[b].active == active)
      || (c.BindingFinished? && c.pending.candidate == active && b == (c.pending.tenant, c.pending.hook))
  {
  }

  /** The candidate's status was read before the row lock, yet what the commit
      activates is validated: other commits cannot take that back. */
  lemma CommitActives(s: Sys, c: Commit)
    requires CanCommit(s, c) && RowsEvolve(s.db, AfterCommit(s.db, c))
    requires PendingsOk(s.db, s.open) && ActivesOk(s.db)
    ensures ActivesOk(AfterCommit(s.db, c))
  {
    var db' := AfterCommit(s.db, c);
    forall b | b in db'.bindings && db'.bindings[b].active.Some?
      ensures Runnable(db', db'.bindings[b].active.value, b.0, b.1)
    {
      CommitActivates(s.db, c, b);
      assert c.BindingFinished? ==> PendingOk(s.db, c.pending);
      RunnableStays(s.db, db', db'.bindings[b].active.value, b.0, b.1);
    }
  }

  lemma CommitEvolves(s: Sys, c: Commit)
    requires Checks(s.db) && CanCommit(s, c)
    ensures Evolves(s.db, AfterCommit(s.db, c))
    ensures AfterCommit(s.db, c).version <= s.db.version + 1
  {
    CommitVersion(s.db, c);
    CommitRows(s, c);
  }

  lemma CommitKeepsDbInv(s: Sys, c: Commit)
    requires Inv(s) && CanCommit(s, c)
    ensures DbInv(AfterCommit(s.db, c))
  {
    CommitConstraints(s, c);
    CommitAudited(s.db, c);
    CommitVerdicts(s, c);
    CommitRows(s, c);
    CommitActives(s, c);
  }

  lemma OpenUpdatesStay(a: DB, b: DB, reading: set<Reading>, open: set<Pending>)
    requires RowsEvolve(a, b) && ReadingsOk(a, reading) && PendingsOk(a, open)
    ensures ReadingsOk(b, reading) && PendingsOk(b, open)
  {
    forall p | p in open ensures PendingOk(b, p) {
      PendingStays(a, b, p);
    }
  }

  /** What a binding update reads is there, whichever state each read saw. */
  lemma ReadsKeepInv(s: Sys, s': Sys)
    requires Inv(s) && Opens(s, s')
    ensures Inv(s') && s'.db == s.db
  {
  }

  lemma StepKeepsInv(s: Sys, s': Sys)
    requires Inv(s) && Next(s, s')
    ensures Inv(s') && Evolves(s.db, s'.db)
    ensures s'.db.version <= s.db.version + 1
  {
    if Commits(s, s') {
      var c :| CanCommit(s, c) && s'.db == AfterCommit(s.db, c) && s'.reading == s.reading
               && s'.open == if c.BindingFinished? then s.open - {c.pending} else s.open;
      CommitKeepsDbInv(s, c);
      CommitEvolves(s, c);
      OpenUpdatesStay(s.db, s'.db, s.reading, s.open);
    } else {
      ReadsKeepInv(s, s');
      EvolvesReflexive(s.db);
    }
  }

  lemma EvolvesReflexive(a: DB)
    ensures Evolves(a, a)
  {
  }

  /** Every committed state satisfies the constraints the tables declare, has
      a complete audit trail, and runs only validated modules. */
  lemma {:induction false} RunKeepsInv(run: seq<Sys>, n: nat)
    requires IsRun(run) && n < |run|
    ensures Inv(run[n])
  {
    if n > 0 {
      RunKeepsInv(run, n - 1);
      assert StepAt(run, n - 1);
      StepKeepsInv(run[n - 1], run[n]);
    }
  }

  lemma RunStepEvolves(run: seq<Sys>, i: nat)
    requires IsRun(run) && i + 1 < |run|
    ensures Evolves(run[i].db, run[i + 1].db)
  {
    RunKeepsInv(run, i);
    assert StepAt(run, i);
    StepKeepsInv(run[i], run[i + 1]);
  }

  /** Between any two points of a run, rows only evolve. */
  lemma {:induction false} RunEvolves(run: seq<Sys>, i: nat, j: nat)
    requires IsRun(run) && i <= j < |run|
    ensures Evolves(run[i].db, run[j].db)
    decreases j
  {
    if i == j {
      EvolvesReflexive(run[i].db);
    } else {
      var a, b, c := run[i].db, run[j - 1].db, run[j].db;
      RunEvolves(run, i, j - 1);
      RunStepEvolves(run, j - 1);
      assert Evolves(a, b) && Evolves(b, c);
      EvolvesTransitive(a, b, c);
    }
  }

  /** At any time, what a binding runs is a validated module of its own tenant
      and hook with a passing report, although the candidate's status was read
      before the binding row was locked. */
  lemma ActiveIsValidated(run: seq<Sys>, n: nat, b: BindingId)
    requires IsRun(run) && n < |run|
    requires b in run[n].db.bindings && run[n].db.bindings[b].active.Some?
    ensures var id := run[n].db.bindings[b].active.value;
      && id in run[n].db.modules
      && var m := run[n].db.modules[id];
         m.status == Validated && m.report.Some? && m.report.value.ok && (m.tenant, m.hook) == b
  {
    RunKeepsInv(run, n);
    var id := run[n].db.bindings[b].active.value;
    assert Runnable(run[n].db, id, b.0, b.1) && VerdictOk(run[n].db.modules[id]);
  }

  /** One version, one projection: two states that show the same version show
      the same configuration. */
  lemma VersionNamesContent(run: seq<Sys>, i: nat, j: nat)
    requires IsRun(run) && i < |run| && j < |run| && run[i].db.version == run[j].db.version
    ensures Visible(run[i].db) == Visible(run[j].db)
  {
    if i <= j { RunEvolves(run, i, j); } else { RunEvolves(run, j, i); }
  }

  /** (hook name, def_version) names one definition over the whole history. */
  lemma DefVersionPins(run: seq<Sys>, i: nat, j: nat, a: HookOut, b: HookOut)
    requires IsRun(run) && i < |run| && j < |run|
    requires a in Visible(run[i].db).hooks && b in Visible(run[j].db).hooks
    requires a.name == b.name && a.defVersion == b.defVersion
    ensures a == b
  {
    if i <= j {
      HooksEvolve(run, i, j, a, b);
    } else {
      HooksEvolve(run, j, i, b, a);
    }
  }

  /** A later definition of the same hook never allows less. */
  lemma HooksEvolve(run: seq<Sys>, i: nat, j: nat, a: HookOut, b: HookOut)
    requires IsRun(run) && i <= j < |run|
    requires a in Visible(run[i].db).hooks && b in Visible(run[j].db).hooks && a.name == b.name
    ensures a.defVersion <= b.defVersion && Grows(a.spec, b.spec)
    ensures a.defVersion == b.defVersion ==> a == b
  {
    RunEvolves(run, i, j);
    RunKeepsInv(run, j);
    var x :| x in run[i].db.hooks && a == ShowHook(run[i].db, x);
    var y :| y in run[j].db.hooks && b == ShowHook(run[j].db, y);
    assert HookEvolves(run[i].db.hooks[x], run[j].db.hooks[x]);
    assert x == y;
  }

  lemma BindingsEvolve(run: seq<Sys>, i: nat, j: nat, a: BindingOut, b: BindingOut)
    requires IsRun(run) && i <= j < |run|
    requires a in Visible(run[i].db).bindings && b in Visible(run[j].db).bindings
    requires a.tenantId == b.tenantId && a.hook == b.hook
    ensures a.configVersion <= b.configVersion
    ensures a.configVersion == b.configVersion ==> a.config == b.config
  {
    RunEvolves(run, i, j);
    RunKeepsInv(run, j);
    var da, dc := run[i].db, run[j].db;
    var x :| x in da.bindings && Joins(da, x) && a == ShowBinding(da, x);
    var y :| y in dc.bindings && Joins(dc, y) && b == ShowBinding(dc, y);
    assert HookEvolves(da.hooks[x.1], dc.hooks[x.1]);
    assert dc.tenants[x.0].externalId == dc.tenants[y.0].externalId;
    assert x.0 == y.0 && x.1 == y.1;
    assert BindingEvolves(da.bindings[x], dc.bindings[x]);
  }

  /** (tenant, hook, config_version) names one config over the whole history. */
  lemma ConfigVersionPins(run: seq<Sys>, i: nat, j: nat, a: BindingOut, b: BindingOut)
    requires IsRun(run) && i < |run| && j < |run|
    requires a in Visible(run[i].db).bindings && b in Visible(run[j].db).bindings
    requires a.tenantId == b.tenantId && a.hook == b.hook && a.configVersion == b.configVersion
    ensures a.config == b.config
  {
    if i <= j {
      BindingsEvolve(run, i, j, a, b);
    } else {
      BindingsEvolve(run, j, i, b, a);
    }
  }
}
