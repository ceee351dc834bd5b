/** The control plane's database: its rows, its declared constraints
    (control-plane/src/controlplane/tables.py) and what a snapshot shows of it. */
module Tables {

  import opened Basics
  import opened Documents

  /** gen_random_uuid() values. */
  type Uuid = nat

  /** The body of a hook definition: everything but its name. */
  datatype HookSpec = HookSpec(inputSchema: Json, outputSchema: Json, timeoutMs: int, memoryMaxPages: int,
                               hostFunctions: seq<string>, effectTypes: seq<string>, sampleInput: Json)

  datatype HookRow = HookRow(name: string, defVersion: int, spec: HookSpec)

  datatype TenantRow = TenantRow(externalId: string, name: string, rateLimit: int, concurrency: int)

  datatype KeyRow = KeyRow(name: string, sha256: string, revoked: bool)

  datatype Status = Uploaded | Validating | Validated | Rejected | Archived

  datatype Report = Report(ok: bool, detail: string)

  datatype ModuleRow = ModuleRow(tenant: Uuid, hook: Uuid, contentHash: string, size: int,
                                 status: Status, report: Option<Report>)

  datatype BindingRow = BindingRow(active: Option<Uuid>, config: map<string, string>, configVersion: int)

  type BindingId = (Uuid, Uuid)

  /** The kinds of change the audit table tells apart. */
  datatype Kind = HookAdded | HookUpdated | TenantAdded | TenantUpdated | KeyAdded | KeyWithdrawn | BindingUpdated

  /** changes is the audit table: snapshot version to the kind of change. */
  datatype DB = DB(version: int, changes: map<int, Kind>, keys: map<string, KeyRow>,
                   tenants: map<Uuid, TenantRow>, hooks: map<Uuid, HookRow>,
                   modules: map<Uuid, ModuleRow>, bindings: map<BindingId, BindingRow>)

  /** The database right after the initial migration. */
  const EMPTY_DB := DB(1, map[], map[], map[], map[], map[], map[])

  // ---------------------------------------------------------- text formats

  predicate IsHex(c: char) {
    '0' <= c <= '9' || 'a' <= c <= 'f'
  }

  /** ^[0-9a-f]{64}$ */
  predicate IsHex64(s: string) {
    |s| == 64 && forall i :: 0 <= i < |s| ==> IsHex(s[i])
  }

  /** ^sha256:[0-9a-f]{64}$ */
  predicate IsModuleHash(s: string) {
    |s| == 71 && s[..7] == "sha256:" && IsHex64(s[7..])
  }

  lemma HashTexts(s: string)
    ensures IsHex64(s) <==> |s| == 64 && forall i :: 0 <= i < |s| ==> s[i] in "0123456789abcdef"
    ensures IsModuleHash(s) <==> |s| == 71 && s == "sha256:" + s[7..] && IsHex64(s[7..])
  {
    var digits := "0123456789abcdef";
    forall c ensures IsHex(c) <==> c in digits {
      if '0' <= c <= '9' { assert digits[c as int - '0' as int] == c; }
      if 'a' <= c <= 'f' { assert digits[10 + (c as int - 'a' as int)] == c; }
    }
    assert |s| == 71 && s[..7] == "sha256:" ==> s == s[..7] + s[7..];
    assert |s| == 71 && s == "sha256:" + s[7..] ==> s[..7] == "sha256:";
  }

  predicate IsLower(c: char) {
    'a' <= c <= 'z'
  }

  /** Dot-separated segments that start with a letter, at most 128 characters. */
  predicate IsHookName(s: string) {
    && 0 < |s| <= 128 && IsLower(s[0])
    && (forall i :: 0 <= i < |s| ==> IsLower(s[i]) || '0' <= s[i] <= '9' || s[i] == '_' || s[i] == '.')
    && (forall i :: 0 <= i < |s| && s[i] == '.' ==> i + 1 < |s| && IsLower(s[i + 1]))
  }

  const INT32_MAX := 2147483647

  // ------------------------------------------------- declared constraints

  /** The CHECK constraints on one hook. */
  predicate HookOk(h: HookRow) {
    && IsHookName(h.name) && h.defVersion >= 1
    && 1 <= h.spec.timeoutMs <= 30000 && 16 <= h.spec.memoryMaxPages <= 16384
    && h.spec.inputSchema.JObject? && h.spec.outputSchema.JObject? && h.spec.sampleInput.JObject?
  }

  predicate TenantOk(t: TenantRow) {
    && t.externalId != ""
    && 0 <= t.rateLimit <= INT32_MAX && 0 <= t.concurrency <= INT32_MAX
  }

  predicate KeyOk(k: KeyRow) {
    IsHex64(k.sha256) && k.name != ""
  }

  predicate ModuleOk(db: DB, m: ModuleRow) {
    && IsModuleHash(m.contentHash) && m.size > 0
    && m.tenant in db.tenants && m.hook in db.hooks
  }

  /** The composite foreign key refuses another tenant's or hook's module. */
  predicate BindingOk(db: DB, id: BindingId, b: BindingRow) {
    && id.0 in db.tenants && id.1 in db.hooks && b.configVersion >= 1
    && (b.active.Some? ==>
          b.active.value in db.modules
          && db.modules[b.active.value].tenant == id.0 && db.modules[b.active.value].hook == id.1)
  }

  ghost predicate Checks(db: DB) {
    && db.version >= 1
    && (forall i :: i in db.keys ==> KeyOk(db.keys[i]))
    && (forall i :: i in db.tenants ==> TenantOk(db.tenants[i]))
    && (forall i :: i in db.hooks ==> HookOk(db.hooks[i]))
    && (forall i :: i in db.modules ==> ModuleOk(db, db.modules[i]))
    && (forall i :: i in db.bindings ==> BindingOk(db, i, db.bindings[i]))
  }

  predicate SameModule(a: ModuleRow, b: ModuleRow) {
    a.tenant == b.tenant && a.hook == b.hook && a.contentHash == b.contentHash
  }

  ghost predicate Uniques(db: DB) {
    && (forall i, j :: i in db.keys && j in db.keys && i != j ==>
          db.keys[i].name != db.keys[j].name && db.keys[i].sha256 != db.keys[j].sha256)
    && (forall i, j :: i in db.tenants && j in db.tenants && i != j ==>
          db.tenants[i].externalId != db.tenants[j].externalId)
    && (forall i, j :: i in db.hooks && j in db.hooks && i != j ==> db.hooks[i].name != db.hooks[j].name)
    && (forall i, j :: i in db.modules && j in db.modules && i != j ==> !SameModule(db.modules[i], db.modules[j]))
  }

  ghost predicate Constraints(db: DB) {
    Checks(db) && Uniques(db)
  }

  // ------------------------------------------------ what a snapshot shows

  datatype KeyOut = KeyOut(id: string, name: string, sha256: string)

  datatype HookOut = HookOut(name: string, defVersion: int, spec: HookSpec)

  datatype TenantOut = TenantOut(externalId: string, concurrency: int, rateLimit: int)

  datatype BindingOut = BindingOut(tenantId: string, hook: string, moduleHash: string,
                                   config: map<string, string>, configVersion: int)

  datatype Content = Content(keys: set<KeyOut>, hooks: set<HookOut>, tenants: set<TenantOut>, bindings: set<BindingOut>)

  function ShowKey(db: DB, id: string): KeyOut
    requires id in db.keys
  {
    KeyOut(id, db.keys[id].name, db.keys[id].sha256)
  }

  function ShowHook(db: DB, id: Uuid): HookOut
    requires id in db.hooks
  {
    HookOut(db.hooks[id].name, db.hooks[id].defVersion, db.hooks[id].spec)
  }

  function ShowTenant(db: DB, id: Uuid): TenantOut
    requires id in db.tenants
  {
    TenantOut(db.tenants[id].externalId, db.tenants[id].concurrency, db.tenants[id].rateLimit)
  }

  /** The inner joins of the binding query: an inactive binding has no row. */
  predicate Joins(db: DB, id: BindingId) {
    && id in db.bindings && id.0 in db.tenants && id.1 in db.hooks
    && db.bindings[id].active.Some? && db.bindings[id].active.value in db.modules
  }

  function ShowBinding(db: DB, id: BindingId): BindingOut
    requires Joins(db, id)
  {
    var b := db.bindings[id];
    BindingOut(db.tenants[id.0].externalId, db.hooks[id.1].name,
               db.modules[b.active.value].contentHash, b.config, b.configVersion)
  }

  /** The visible projection: what every snapshot of this state must contain. */
  function Visible(db: DB): Content {
    Content(set id | id in db.keys && !db.keys[id].revoked :: ShowKey(db, id),
            set id | id in db.hooks :: ShowHook(db, id),
            set id | id in db.tenants :: ShowTenant(db, id),
            set id | id in db.bindings && Joins(db, id) :: ShowBinding(db, id))
  }

  // ------------------------------------- the same, column by column

  ghost predicate KeyShown(db: DB, x: KeyOut) {
    && x.id in db.keys && !db.keys[x.id].revoked
    && x.name == db.keys[x.id].name && x.sha256 == db.keys[x.id].sha256
  }

  ghost predicate HookShown(db: DB, x: HookOut) {
    exists id :: id in db.hooks && x.name == db.hooks[id].name && x.defVersion == db.hooks[id].defVersion
                 && x.spec == db.hooks[id].spec
  }

  ghost predicate TenantShown(db: DB, x: TenantOut) {
    exists id :: id in db.tenants && x.externalId == db.tenants[id].externalId
                 && x.concurrency == db.tenants[id].concurrency && x.rateLimit == db.tenants[id].rateLimit
  }

  /** A binding that runs a module: with the names of its tenant and its hook, and
      the module's bytes. */
  ghost predicate BindingShown(db: DB, x: BindingOut) {
    exists t, h, m :: (t, h) in db.bindings && t in db.tenants && h in db.hooks && m in db.modules
                      && db.bindings[(t, h)].active == Some(m)
                      && x.tenantId == db.tenants[t].externalId && x.hook == db.hooks[h].name
                      && x.moduleHash == db.modules[m].contentHash
                      && x.config == db.bindings[(t, h)].config
                      && x.configVersion == db.bindings[(t, h)].configVersion
  }

  lemma VisibleBindings(db: DB, x: BindingOut)
    ensures x in Visible(db).bindings <==> BindingShown(db, x)
  {
    if x in Visible(db).bindings {
      var id :| id in db.bindings && Joins(db, id) && x == ShowBinding(db, id);
      assert (id.0, id.1) in db.bindings && db.bindings[id].active.value in db.modules;
    }
    if BindingShown(db, x) {
      var t, h, m :| (t, h) in db.bindings && t in db.tenants && h in db.hooks && m in db.modules
                     && db.bindings[(t, h)].active == Some(m)
                     && x.tenantId == db.tenants[t].externalId && x.hook == db.hooks[h].name
                     && x.moduleHash == db.modules[m].contentHash
                     && x.config == db.bindings[(t, h)].config
                     && x.configVersion == db.bindings[(t, h)].configVersion;
      assert Joins(db, (t, h)) && x == ShowBinding(db, (t, h));
    }
  }

  lemma VisibleRows(db: DB)
    ensures forall x :: x in Visible(db).keys <==> KeyShown(db, x)
    ensures forall x :: x in Visible(db).hooks <==> HookShown(db, x)
    ensures forall x :: x in Visible(db).tenants <==> TenantShown(db, x)
    ensures forall x :: x in Visible(db).bindings <==> BindingShown(db, x)
  {
    forall x ensures x in Visible(db).keys <==> KeyShown(db, x) {
      if KeyShown(db, x) { assert x == ShowKey(db, x.id); }
    }
    forall x ensures x in Visible(db).hooks <==> HookShown(db, x) {
      if HookShown(db, x) {
        var id :| id in db.hooks && x.name == db.hooks[id].name && x.defVersion == db.hooks[id].defVersion
                  && x.spec == db.hooks[id].spec;
        assert x == ShowHook(db, id);
      }
    }
    forall x ensures x in Visible(db).tenants <==> TenantShown(db, x) {
      if TenantShown(db, x) {
        var id :| id in db.tenants && x.externalId == db.tenants[id].externalId
                  && x.concurrency == db.tenants[id].concurrency && x.rateLimit == db.tenants[id].rateLimit;
        assert x == ShowTenant(db, id);
      }
    }
    forall x ensures x in Visible(db).bindings <==> BindingShown(db, x) {
      VisibleBindings(db, x);
    }
  }
}
