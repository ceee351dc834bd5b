/** The control plane's write operations: what each committed transaction does
    to the database, and the services that build it step by step. */
module Services {
  import opened Basics
  import opened Documents
  import opened Tables
  import opened Text

  datatype Outcome = Done | Refused(status: int)

  // --------------------------------------------------- what a commit does

  /** bump_config_version: the next version, and its audit row. */
  function Bump(db: DB, kind: Kind): DB {
    db.(version := db.version + 1, changes := db.changes[db.version + 1 := kind])
  }

  function Normalized(spec: HookSpec): HookSpec {
    spec.(hostFunctions := SortedSet(spec.hostFunctions), effectTypes := SortedSet(spec.effectTypes))
  }

  /** What the request model demands of a hook body. */
  predicate WellFormed(spec: HookSpec) {
    && 1 <= spec.timeoutMs <= 30000 && 16 <= spec.memoryMaxPages <= 16384
    && spec.inputSchema.JObject? && spec.outputSchema.JObject? && spec.sampleInput.JObject?
  }

  function ToSet(xs: seq<string>): set<string> {
    set x | x in xs
  }

  /** current.spec == spec: the comparison of two request bodies in Python. */
  predicate SameDefinition(a: HookSpec, b: HookSpec) {
    && PyEqual(a.inputSchema, b.inputSchema) && PyEqual(a.outputSchema, b.outputSchema)
    && PyEqual(a.sampleInput, b.sampleInput)
    && a.timeoutMs == b.timeoutMs && a.memoryMaxPages == b.memoryMaxPages
    && a.hostFunctions == b.hostFunctions && a.effectTypes == b.effectTypes
  }

  predicate Narrows(was: HookSpec, now: HookSpec) {
    !(ToSet(was.hostFunctions) <= ToSet(now.hostFunctions) && ToSet(was.effectTypes) <= ToSet(now.effectTypes))
  }

  ghost function HookNamed(db: DB, name: string): (r: Option<Uuid>)
    ensures r.Some? ==> r.value in db.hooks && db.hooks[r.value].name == name
    ensures r.None? ==> forall id :: id in db.hooks ==> db.hooks[id].name != name
  {
    if exists id :: id in db.hooks && db.hooks[id].name == name
    then var id :| id in db.hooks && db.hooks[id].name == name; Some(id)
    else None
  }

  ghost function TenantNamed(db: DB, externalId: string): (r: Option<Uuid>)
    ensures r.Some? ==> r.value in db.tenants && db.tenants[r.value].externalId == externalId
    ensures r.None? ==> forall id :: id in db.tenants ==> db.tenants[id].externalId != externalId
  {
    if exists id :: id in db.tenants && db.tenants[id].externalId == externalId
    then var id :| id in db.tenants && db.tenants[id].externalId == externalId; Some(id)
    else None
  }

  /** rulesOk is the verdict of check_hook_spec and of _storable; id is the id
      the database draws, whose collision fails the insert. */
  ghost function CreateHook(db: DB, id: Uuid, name: string, raw: HookSpec, rulesOk: bool): (DB, Outcome) {
    if !IsHookName(name) || !WellFormed(raw) || !rulesOk then (db, Refused(422))
    else if HookNamed(db, name).Some? then (db, Refused(409))
    else if id in db.hooks then (db, Refused(500))
    else (Bump(db.(hooks := db.hooks[id := HookRow(name, 1, Normalized(raw))]), HookAdded), Done)
  }

  ghost function ReplaceHook(db: DB, name: string, raw: HookSpec, rulesOk: bool): (DB, Outcome) {
    var spec := Normalized(raw);
    var found := HookNamed(db, name);
    if !WellFormed(raw) || !rulesOk then (db, Refused(422))
    else if found.None? then (db, Refused(404))
    else
      var cur := db.hooks[found.value];
      if Narrows(cur.spec, spec) then (db, Refused(409))
      else if SameDefinition(cur.spec, spec) then (db, Done)
      else (Bump(db.(hooks := db.hooks[found.value := HookRow(cur.name, cur.defVersion + 1, spec)]), HookUpdated), Done)
  }

  /** Some document of the definitions has equal numbers of different kinds. */
  ghost predicate Aliased(a: HookSpec, b: HookSpec) {
    exists place ::
      AliasAt(a.inputSchema, b.inputSchema, place) || AliasAt(a.outputSchema, b.outputSchema, place)
      || AliasAt(a.sampleInput, b.sampleInput, place)
  }

  lemma SameButAliased(a: HookSpec, b: HookSpec)
    requires SameDefinition(a, b)
    ensures a != b <==> Aliased(a, b)
  {
    OverlooksIff(a.inputSchema, b.inputSchema);
    OverlooksIff(a.outputSchema, b.outputSchema);
    OverlooksIff(a.sampleInput, b.sampleInput);
  }

  /** Exactly when an accepted replacement is what the hook then says: unless it
      compares equal to the old definition and yet, at some place of some
      document, has an equal number of another kind.  Then it is dropped. */
  lemma AcceptedIsStored(db: DB, name: string, raw: HookSpec, rulesOk: bool)
    requires ReplaceHook(db, name, raw, rulesOk).1 == Done
    ensures HookNamed(db, name).Some?
    ensures var id, db' := HookNamed(db, name).value, ReplaceHook(db, name, raw, rulesOk).0;
      var was, now := db.hooks[id].spec, Normalized(raw);
      && id in db'.hooks
      && (db'.hooks[id].spec == now <==> !(SameDefinition(was, now) && Aliased(was, now)))
      && (SameDefinition(was, now) ==> db' == db)
  {
    var was, now := db.hooks[HookNamed(db, name).value].spec, Normalized(raw);
    if SameDefinition(was, now) { SameButAliased(was, now); }
  }

  /** {"properties": {"n": {"const": x}}} */
  function ConstSchema(x: Json): Json {
    JObject(map["properties" := JObject(map["n" := JObject(map["const" := x])])])
  }

  function ConstSpec(x: Json): HookSpec {
    HookSpec(JObject(map[]), ConstSchema(x), 1000, 16, [], [], JObject(map[]))
  }

  /** Two different schemas that Python takes for equal. */
  lemma ConstAlias()
    ensures PyEqual(ConstSchema(JInt(1)), ConstSchema(JBool(true)))
    ensures ConstSchema(JInt(1)) != ConstSchema(JBool(true))
  {
    var m, n := map["const" := JInt(1)], map["const" := JBool(true)];
    assert PyEqual(JInt(1), JBool(true)) && PyEqual(JObject(m), JObject(n));
    var u, v := map["n" := JObject(m)], map["n" := JObject(n)];
    assert PyEqual(JObject(u), JObject(v));
    assert m["const"] != n["const"] && u["n"] != v["n"];
    assert ConstSchema(JInt(1)).members["properties"] != ConstSchema(JBool(true)).members["properties"];
  }

  /** It happens: create a hook whose output must have n == 1, replace it by one
      whose output must have n == true.  The replacement is accepted, and the
      hook still says 1. */
  lemma DroppedReplacement(name: string)
    requires IsHookName(name)
    ensures var created := CreateHook(EMPTY_DB, 0, name, ConstSpec(JInt(1)), true);
      && created.1 == Done
      && ReplaceHook(created.0, name, ConstSpec(JBool(true)), true) == (created.0, Done)
      && created.0.hooks[0].spec.outputSchema == ConstSchema(JInt(1)) != ConstSchema(JBool(true))
  {
    ConstAlias();
    var db := CreateHook(EMPTY_DB, 0, name, ConstSpec(JInt(1)), true).0;
    assert HookNamed(EMPTY_DB, name) == None;
    assert db.hooks == map[0 := HookRow(name, 1, Normalized(ConstSpec(JInt(1))))];
    assert 0 in db.hooks && HookNamed(db, name) == Some(0);
  }

  lemma NarrowedMeaning(was: HookSpec, now: HookSpec)
    ensures Narrows(was, now) <==> (ToSet(was.hostFunctions) - ToSet(now.hostFunctions))
                                   + (ToSet(was.effectTypes) - ToSet(now.effectTypes)) != {}
  {
    var hosts := ToSet(was.hostFunctions) - ToSet(now.hostFunctions);
    var effects := ToSet(was.effectTypes) - ToSet(now.effectTypes);
    assert hosts == {} <==> ToSet(was.hostFunctions) <= ToSet(now.hostFunctions) by {
      assert forall f :: f in hosts <==> f in ToSet(was.hostFunctions) && f !in ToSet(now.hostFunctions);
    }
    assert effects == {} <==> ToSet(was.effectTypes) <= ToSet(now.effectTypes) by {
      assert forall f :: f in effects <==> f in ToSet(was.effectTypes) && f !in ToSet(now.effectTypes);
    }
    assert hosts <= hosts + effects && effects <= hosts + effects;
  }

  predicate Int32(n: int) {
    n <= INT32_MAX
  }

  ghost function CreateTenant(db: DB, id: Uuid, row: TenantRow): (DB, Outcome) {
    if !(1 <= |row.externalId| <= 128) || row.rateLimit < 0 || row.concurrency < 0 then (db, Refused(422))
    else if !Int32(row.rateLimit) || !Int32(row.concurrency) then (db, Refused(500))
    else if TenantNamed(db, row.externalId).Some? then (db, Refused(409))
    else if id in db.tenants then (db, Refused(500))
    else (Bump(db.(tenants := db.tenants[id := row]), TenantAdded), Done)
  }

  datatype TenantPatch = TenantPatch(name: Option<string>, rateLimit: Option<int>, concurrency: Option<int>)

  datatype Field = Name | RateLimitRps | ConcurrencyLimit

  function Or<T>(o: Option<T>, default: T): T {
    if o.Some? then o.value else default
  }

  predicate Sets(o: Option<int>, ok: int -> bool) {
    o.Some? ==> ok(o.value)
  }

  ghost function PatchTenant(db: DB, externalId: string, p: TenantPatch): (DB, Outcome) {
    var found := TenantNamed(db, externalId);
    if !Sets(p.rateLimit, n => n >= 0) || !Sets(p.concurrency, n => n >= 0) then (db, Refused(422))
    else if found.None? then (db, Refused(404))
    else
      var cur := db.tenants[found.value];
      var next := TenantRow(cur.externalId, Or(p.name, cur.name), Or(p.rateLimit, cur.rateLimit),
                            Or(p.concurrency, cur.concurrency));
      if next == cur then (db, Done)
      else if !Int32(next.rateLimit) || !Int32(next.concurrency) then (db, Refused(500))
      else
        var db' := db.(tenants := db.tenants[found.value := next]);
        if next.rateLimit == cur.rateLimit && next.concurrency == cur.concurrency then (db', Done)
        else (Bump(db', TenantUpdated), Done)
  }

  ghost predicate KeyTaken(db: DB, id: string, name: string, sha256: string) {
    id in db.keys || exists i :: i in db.keys && (db.keys[i].name == name || db.keys[i].sha256 == sha256)
  }

  /** id and sha256 come from a fresh random token. */
  ghost function CreateKey(db: DB, id: string, name: string, sha256: string): (DB, Outcome)
    requires IsHex64(sha256)
  {
    if !(1 <= |name| <= 64) then (db, Refused(422))
    else if KeyTaken(db, id, name, sha256) then (db, Refused(409))
    else (Bump(db.(keys := db.keys[id := KeyRow(name, sha256, false)]), KeyAdded), Done)
  }

  ghost function RevokeKey(db: DB, id: string): (DB, Outcome) {
    if id !in db.keys then (db, Refused(404))
    else if db.keys[id].revoked then (db, Done)
    else (Bump(db.(keys := db.keys[id := db.keys[id].(revoked := true)]), KeyWithdrawn), Done)
  }

  /** The module id of a binding update: absent, not a UUID, or a UUID. */
  datatype ModuleId = Absent | Malformed | Given(id: Uuid)

  /** A binding update between its reads and its row lock: the transaction is
      open, the candidate was read as validated, other commits may follow. */
  datatype Pending = Pending(tenant: Uuid, hook: Uuid, candidate: Option<Uuid>, config: Option<map<string, string>>)

  datatype Began = Open(p: Pending) | Failed(status: int)

  /** What the read of the candidate decides, with tenant and hook known. */
  ghost function WithCandidate(db: DB, tenant: Uuid, hook: Uuid, m: ModuleId, config: Option<map<string, string>>): Began {
    if m.Absent? && config.None? then Failed(400)
    else if m.Malformed? then Failed(404)
    else if m.Absent? then Open(Pending(tenant, hook, None, config))
    else if m.id !in db.modules || db.modules[m.id].tenant != tenant || db.modules[m.id].hook != hook then Failed(404)
    else if db.modules[m.id].status != Validated then Failed(409)
    else Open(Pending(tenant, hook, Some(m.id), config))
  }

  ghost function BeginBinding(db: DB, externalId: string, hookName: string, m: ModuleId,
                              config: Option<map<string, string>>): Began
  {
    var tenant, hook := TenantNamed(db, externalId), HookNamed(db, hookName);
    if m.Absent? && config.None? then Failed(400)
    else if m.Malformed? || hook.None? || tenant.None? then Failed(404)
    else WithCandidate(db, tenant.value, hook.value, m, config)
  }

  const NEW_BINDING := BindingRow(None, map[], 1)

  /** The rest of the transaction, from ensure_binding to its commit. */
  function FinishBinding(db: DB, p: Pending): DB {
    var id := (p.tenant, p.hook);
    var created := id !in db.bindings;
    var cur := if created then NEW_BINDING else db.bindings[id];
    var active := if p.candidate.Some? then p.candidate else cur.active;
    var next :=
      if p.config.None? || p.config.value == cur.config then cur.(active := active)
      else BindingRow(active, p.config.value, if created then 1 else cur.configVersion + 1);
    if !created && next == cur then db
    else Bump(db.(bindings := db.bindings[id := next]), BindingUpdated)
  }

  ghost predicate ModuleTaken(db: DB, row: ModuleRow) {
    exists i :: i in db.modules && SameModule(db.modules[i], row)
  }

  /** insert_module: tenant and hook were read before the upload went to storage. */
  ghost function InsertModule(db: DB, id: Uuid, tenant: Uuid, hook: Uuid, contentHash: string, size: int): (DB, Outcome) {
    var row := ModuleRow(tenant, hook, contentHash, size, Uploaded, None);
    if size == 0 then (db, Refused(422))
    else if ModuleTaken(db, row) then (db, Refused(409))
    else if id in db.modules || !ModuleOk(db, row) then (db, Refused(500))
    else (db.(modules := db.modules[id := row]), Done)
  }

  function Marked(m: ModuleRow): ModuleRow {
    if m.status == Uploaded then m.(status := Validating) else m
  }

  function Judged(m: ModuleRow, r: Report): ModuleRow {
    if m.status == Validating then m.(status := if r.ok then Validated else Rejected, report := Some(r)) else m
  }

  /** mark_validating: only an uploaded row changes. */
  function MarkValidating(db: DB, id: Uuid): DB {
    if id in db.modules then db.(modules := db.modules[id := Marked(db.modules[id])]) else db
  }

  /** finish_validation: only a validating row changes. */
  function FinishValidation(db: DB, id: Uuid, r: Report): DB {
    if id in db.modules then db.(modules := db.modules[id := Judged(db.modules[id], r)]) else db
  }

  // ------------------------------------------ what each transaction means

  /** A change that snapshots show: the next version, with its audit row. */
  predicate Announced(db: DB, db': DB, kind: Kind) {
    db'.version == db.version + 1 && db'.changes == db.changes[db.version + 1 := kind]
  }

  predicate Unannounced(db: DB, db': DB) {
    db'.version == db.version && db'.changes == db.changes
  }

  predicate OnlyHooks(db: DB, db': DB) {
    db' == db.(version := db'.version, changes := db'.changes, hooks := db'.hooks)
  }

  predicate OnlyTenants(db: DB, db': DB) {
    db' == db.(version := db'.version, changes := db'.changes, tenants := db'.tenants)
  }

  predicate OnlyKeys(db: DB, db': DB) {
    db' == db.(version := db'.version, changes := db'.changes, keys := db'.keys)
  }

  predicate OnlyBindings(db: DB, db': DB) {
    db' == db.(version := db'.version, changes := db'.changes, bindings := db'.bindings)
  }

  /** The row says what the request said; its allowed lists are sets. */
  ghost predicate Says(h: HookRow, name: string, version: int, raw: HookSpec) {
    && h.name == name && h.defVersion == version
    && h.spec.inputSchema == raw.inputSchema && h.spec.outputSchema == raw.outputSchema
    && h.spec.sampleInput == raw.sampleInput
    && h.spec.timeoutMs == raw.timeoutMs && h.spec.memoryMaxPages == raw.memoryMaxPages
    && Increasing(h.spec.hostFunctions) && ToSet(h.spec.hostFunctions) == ToSet(raw.hostFunctions)
    && Increasing(h.spec.effectTypes) && ToSet(h.spec.effectTypes) == ToSet(raw.effectTypes)
  }

  lemma NormalizedSays(name: string, version: int, raw: HookSpec)
    ensures Says(HookRow(name, version, Normalized(raw)), name, version, raw)
  {
    SortedSetMeaning(raw.hostFunctions);
    SortedSetMeaning(raw.effectTypes);
  }

  /** The request model and the table demand the same of a definition. */
  lemma RequestMirrorsTables(h: HookRow)
    requires IsHookName(h.name) && h.defVersion >= 1
    ensures WellFormed(h.spec) <==> HookOk(h)
  {
  }

  lemma CreateHookMeaning(db: DB, id: Uuid, name: string, raw: HookSpec, rulesOk: bool)
    ensures var (db', r) := CreateHook(db, id, name, raw, rulesOk);
      var valid, taken := IsHookName(name) && WellFormed(raw) && rulesOk, exists i :: i in db.hooks && db.hooks[i].name == name;
      && (r == Refused(422) <==> !valid) && (r == Refused(409) <==> valid && taken)
      && (r == Done <==> valid && !taken && id !in db.hooks)
      && (r != Done ==> db' == db)
      && (r == Done ==>
            && OnlyHooks(db, db') && Announced(db, db', HookAdded)
            && id in db'.hooks && db'.hooks == db.hooks[id := db'.hooks[id]] && Says(db'.hooks[id], name, 1, raw))
  {
    NormalizedSays(name, 1, raw);
  }

  /** Something the definition allowed and the request does not. */
  ghost predicate TakesAway(was: HookSpec, raw: HookSpec) {
    || (exists f :: f in was.hostFunctions && f !in raw.hostFunctions)
    || (exists t :: t in was.effectTypes && t !in raw.effectTypes)
  }

  /** The same to Python: equal once every number is written as a float. */
  predicate Alike(was: HookSpec, raw: HookSpec) {
    && AsFloats(was.inputSchema) == AsFloats(raw.inputSchema) && AsFloats(was.outputSchema) == AsFloats(raw.outputSchema)
    && AsFloats(was.sampleInput) == AsFloats(raw.sampleInput)
    && was.timeoutMs == raw.timeoutMs && was.memoryMaxPages == raw.memoryMaxPages
    && was.hostFunctions == SortedSet(raw.hostFunctions) && was.effectTypes == SortedSet(raw.effectTypes)
  }

  lemma AlikeMeaning(was: HookSpec, raw: HookSpec)
    ensures SameDefinition(was, Normalized(raw)) <==> Alike(was, raw)
  {
    PyEqualMeaning(was.inputSchema, raw.inputSchema);
    PyEqualMeaning(was.outputSchema, raw.outputSchema);
    PyEqualMeaning(was.sampleInput, raw.sampleInput);
  }

  lemma TakesAwayMeaning(was: HookSpec, raw: HookSpec)
    ensures Narrows(was, Normalized(raw)) <==> TakesAway(was, raw)
  {
    SortedSetMeaning(raw.hostFunctions);
    SortedSetMeaning(raw.effectTypes);
    assert forall f :: f in ToSet(was.hostFunctions) <==> f in was.hostFunctions;
    assert forall t :: t in ToSet(was.effectTypes) <==> t in was.effectTypes;
  }

  lemma ReplaceHookMeaning(db: DB, id: Uuid, raw: HookSpec, rulesOk: bool)
    requires Uniques(db) && id in db.hooks
    ensures var (db', r) := ReplaceHook(db, db.hooks[id].name, raw, rulesOk);
      var was := db.hooks[id];
      && (r == Refused(422) <==> !WellFormed(raw) || !rulesOk)
      && (r == Refused(409) <==> WellFormed(raw) && rulesOk && TakesAway(was.spec, raw))
      && (r == Done <==> WellFormed(raw) && rulesOk && !TakesAway(was.spec, raw))
      && (r == Done && !Alike(was.spec, raw) ==>
            && OnlyHooks(db, db') && Announced(db, db', HookUpdated)
            && id in db'.hooks && db'.hooks == db.hooks[id := db'.hooks[id]]
            && Says(db'.hooks[id], was.name, was.defVersion + 1, raw))
      && (r != Done || Alike(was.spec, raw) ==> db' == db)
  {
    var was := db.hooks[id];
    assert HookNamed(db, was.name) == Some(id);
    NormalizedSays(was.name, was.defVersion + 1, raw);
    AlikeMeaning(was.spec, raw);
    TakesAwayMeaning(was.spec, raw);
  }

  lemma ReplaceUnknownHook(db: DB, name: string, raw: HookSpec, rulesOk: bool)
    requires forall id :: id in db.hooks ==> db.hooks[id].name != name
    ensures ReplaceHook(db, name, raw, rulesOk) == (db, Refused(if WellFormed(raw) && rulesOk then 404 else 422))
  {
  }

  lemma CreateTenantMeaning(db: DB, id: Uuid, row: TenantRow)
    ensures var (db', r) := CreateTenant(db, id, row);
      var valid := 1 <= |row.externalId| <= 128 && row.rateLimit >= 0 && row.concurrency >= 0;
      var stores := row.rateLimit <= 2147483647 && row.concurrency <= 2147483647;
      var taken := exists i :: i in db.tenants && db.tenants[i].externalId == row.externalId;
      && (r == Refused(422) <==> !valid) && (r == Refused(409) <==> valid && stores && taken)
      && (r == Done <==> valid && stores && !taken && id !in db.tenants)
      && (r != Done ==> db' == db)
      && (r == Done ==> OnlyTenants(db, db') && Announced(db, db', TenantAdded) && db'.tenants == db.tenants[id := row])
  {
  }

  /** Each field takes the value given, or keeps its own; the version rises exactly
      if a limit changed. */
  lemma PatchTenantMeaning(db: DB, id: Uuid, p: TenantPatch)
    requires Uniques(db) && id in db.tenants && TenantOk(db.tenants[id])
    ensures var (db', r) := PatchTenant(db, db.tenants[id].externalId, p);
      var was := db.tenants[id];
      var negative := (p.rateLimit.Some? && p.rateLimit.value < 0) || (p.concurrency.Some? && p.concurrency.value < 0);
      var tooBig := (p.rateLimit.Some? && p.rateLimit.value > 2147483647)
                    || (p.concurrency.Some? && p.concurrency.value > 2147483647);
      && (r == Refused(422) <==> negative) && (r == Refused(500) <==> !negative && tooBig)
      && (r == Done <==> !negative && !tooBig)
      && (r != Done ==> db' == db)
      && (r == Done ==>
            && OnlyTenants(db, db') && id in db'.tenants && db'.tenants == db.tenants[id := db'.tenants[id]]
            && var now := db'.tenants[id];
               && now.externalId == was.externalId
               && now.name == (if p.name.Some? then p.name.value else was.name)
               && now.rateLimit == (if p.rateLimit.Some? then p.rateLimit.value else was.rateLimit)
               && now.concurrency == (if p.concurrency.Some? then p.concurrency.value else was.concurrency)
               && if now.rateLimit != was.rateLimit || now.concurrency != was.concurrency
                  then Announced(db, db', TenantUpdated) else Unannounced(db, db'))
  {
    assert TenantNamed(db, db.tenants[id].externalId) == Some(id);
    assert db.tenants[id := db.tenants[id]] == db.tenants;
  }

  lemma PatchUnknownTenant(db: DB, externalId: string, p: TenantPatch)
    requires forall id :: id in db.tenants ==> db.tenants[id].externalId != externalId
    ensures var negative := (p.rateLimit.Some? && p.rateLimit.value < 0) || (p.concurrency.Some? && p.concurrency.value < 0);
      PatchTenant(db, externalId, p) == (db, Refused(if negative then 422 else 404))
  {
  }

  lemma CreateKeyMeaning(db: DB, id: string, name: string, sha256: string)
    requires IsHex64(sha256)
    ensures var (db', r) := CreateKey(db, id, name, sha256);
      var valid := 1 <= |name| <= 64;
      var taken := id in db.keys || exists i :: i in db.keys && (db.keys[i].name == name || db.keys[i].sha256 == sha256);
      && (r == Refused(422) <==> !valid) && (r == Refused(409) <==> valid && taken) && (r == Done <==> valid && !taken)
      && (r != Done ==> db' == db)
      && (r == Done ==> OnlyKeys(db, db') && Announced(db, db', KeyAdded)
                        && id in db'.keys && db'.keys == db.keys[id := db'.keys[id]]
                        && db'.keys[id].name == name && db'.keys[id].sha256 == sha256 && !db'.keys[id].revoked)
  {
  }

  lemma RevokeKeyMeaning(db: DB, id: string)
    ensures var (db', r) := RevokeKey(db, id);
      && (r == Refused(404) <==> id !in db.keys) && (r == Done <==> id in db.keys)
      && (id in db.keys && !db.keys[id].revoked ==>
            && OnlyKeys(db, db') && Announced(db, db', KeyWithdrawn)
            && id in db'.keys && db'.keys == db.keys[id := db'.keys[id]]
            && db'.keys[id].name == db.keys[id].name && db'.keys[id].sha256 == db.keys[id].sha256 && db'.keys[id].revoked)
      && (id !in db.keys || db.keys[id].revoked ==> db' == db)
  {
  }

  /** The last row of a binding update: the candidate runs if one was given, the
      config is the one given, and only an existing row whose config differs gets
      a new config version.  Nothing else changes, and the version rises exactly
      if the row is new or differs. */
  lemma FinishBindingMeaning(db: DB, p: Pending)
    ensures var db', id := FinishBinding(db, p), (p.tenant, p.hook);
      && OnlyBindings(db, db') && id in db'.bindings && db'.bindings == db.bindings[id := db'.bindings[id]]
      && var now := db'.bindings[id];
         && (p.candidate.Some? ==> now.active == p.candidate)
         && (p.candidate.None? ==> now.active == if id in db.bindings then db.bindings[id].active else None)
         && (p.config.Some? ==> now.config == p.config.value)
         && (p.config.None? ==> now.config == if id in db.bindings then db.bindings[id].config else map[])
         && (id !in db.bindings ==> now.configVersion == 1)
         && (id in db.bindings ==>
               now.configVersion == db.bindings[id].configVersion + if now.config != db.bindings[id].config then 1 else 0)
         && if id !in db.bindings || now != db.bindings[id]
            then Announced(db, db', BindingUpdated) else Unannounced(db, db')
  {
    var id := (p.tenant, p.hook);
    if id in db.bindings { assert db.bindings[id := db.bindings[id]] == db.bindings; }
  }

  /** An update begins exactly for a known tenant and hook, something to change,
      and, if a module is named, a validated one of both. */
  lemma BeginBindingMeaning(db: DB, tenant: Uuid, hook: Uuid, m: ModuleId, config: Option<map<string, string>>)
    requires Uniques(db) && tenant in db.tenants && hook in db.hooks
    ensures var r := BeginBinding(db, db.tenants[tenant].externalId, db.hooks[hook].name, m, config);
      var theirs := m.Given? && m.id in db.modules && db.modules[m.id].tenant == tenant && db.modules[m.id].hook == hook;
      && (r == Failed(400) <==> m.Absent? && config.None?)
      && (r == Failed(404) <==> m.Malformed? || (m.Given? && !theirs))
      && (r == Failed(409) <==> theirs && db.modules[m.id].status != Validated)
      && (r.Open? <==> (m.Absent? && config.Some?) || (theirs && db.modules[m.id].status == Validated))
      && (r.Open? ==> && r.p.tenant == tenant && r.p.hook == hook && r.p.config == config
                      && (m.Given? ==> r.p.candidate == Some(m.id)) && (m.Absent? ==> r.p.candidate == None))
  {
    assert TenantNamed(db, db.tenants[tenant].externalId) == Some(tenant);
    assert HookNamed(db, db.hooks[hook].name) == Some(hook);
  }

  lemma BeginUnknown(db: DB, externalId: string, hookName: string, m: ModuleId, config: Option<map<string, string>>)
    requires (forall id :: id in db.tenants ==> db.tenants[id].externalId != externalId)
             || (forall id :: id in db.hooks ==> db.hooks[id].name != hookName)
    ensures BeginBinding(db, externalId, hookName, m, config) == Failed(if m.Absent? && config.None? then 400 else 404)
  {
  }

  /** An upload is stored as it came, uploaded and unjudged, unless it is empty,
      a repetition or refers to nothing. */
  lemma InsertModuleMeaning(db: DB, id: Uuid, tenant: Uuid, hook: Uuid, contentHash: string, size: int)
    ensures var (db', r) := InsertModule(db, id, tenant, hook, contentHash, size);
      var taken := exists i :: i in db.modules && db.modules[i].tenant == tenant && db.modules[i].hook == hook
                               && db.modules[i].contentHash == contentHash;
      && (r == Refused(422) <==> size == 0) && (r == Refused(409) <==> size != 0 && taken)
      && (r == Done <==> size > 0 && !taken && id !in db.modules && IsModuleHash(contentHash)
                         && tenant in db.tenants && hook in db.hooks)
      && (r != Done ==> db' == db)
      && (r == Done ==> db' == db.(modules := db.modules[id := ModuleRow(tenant, hook, contentHash, size, Uploaded, None)]))
  {
  }

  /** Marking moves an uploaded row on, and a verdict decides a validating one;
      every other row stays as it is. */
  lemma JudgedMeaning(m: ModuleRow, r: Report)
    ensures if m.status == Uploaded then Marked(m) == m.(status := Validating) else Marked(m) == m
    ensures m.status != Validating ==> Judged(m, r) == m
    ensures m.status == Validating && r.ok ==> Judged(m, r) == m.(status := Validated, report := Some(r))
    ensures m.status == Validating && !r.ok ==> Judged(m, r) == m.(status := Rejected, report := Some(r))
  {
  }

  // ------------------------------------------------------------ the services

  class ControlPlane {
    var version: int
    var changes: map<int, Kind>
    var keys: map<string, KeyRow>
    var tenants: map<Uuid, TenantRow>
    var hooks: map<Uuid, HookRow>
    var modules: map<Uuid, ModuleRow>
    var bindings: map<BindingId, BindingRow>

    ghost function Abs(): DB
      reads this
    {
      DB(version, changes, keys, tenants, hooks, modules, bindings)
    }

    constructor ()
      ensures Abs() == EMPTY_DB
    {
      version, changes, keys, tenants, hooks, modules, bindings := 1, map[], map[], map[], map[], map[], map[];
    }

    /** Called last in its transaction: increments the version row and appends
        the audit row under the new version. */
    method BumpConfigVersion(kind: Kind) returns (v: int)
      modifies this`version, this`changes
      ensures v == old(version) + 1 && Abs() == Bump(old(Abs()), kind)
    {
      version := version + 1;
      changes := changes[version := kind];
      v := version;
    }

    method GetHook(name: string) returns (id: Option<Uuid>)
      requires Uniques(Abs())
      ensures id == HookNamed(Abs(), name)
    {
      id := None;
      var rest := hooks.Keys;
      while rest != {}
        invariant rest <= hooks.Keys
        invariant forall i :: i in hooks && i !in rest ==> hooks[i].name != name
      {
        var i :| i in rest;
        if hooks[i].name == name {
          return Some(i);
        }
        rest := rest - {i};
      }
    }

    method GetTenant(externalId: string) returns (id: Option<Uuid>)
      requires Uniques(Abs())
      ensures id == TenantNamed(Abs(), externalId)
    {
      id := None;
      var rest := tenants.Keys;
      while rest != {}
        invariant rest <= tenants.Keys
        invariant forall i :: i in tenants && i !in rest ==> tenants[i].externalId != externalId
      {
        var i :| i in rest;
        if tenants[i].externalId == externalId {
          return Some(i);
        }
        rest := rest - {i};
      }
    }

    method HookCreate(id: Uuid, name: string, raw: HookSpec, rulesOk: bool) returns (r: Outcome)
      requires Uniques(Abs())
      modifies this
      ensures (Abs(), r) == CreateHook(old(Abs()), id, name, raw, rulesOk)
    {
      if !IsHookName(name) || !WellFormed(raw) { return Refused(422); }
      var spec := Normalized(raw);
      if !rulesOk { return Refused(422); }
      var taken := GetHook(name);
      if taken.Some? { return Refused(409); }
      if id in hooks { return Refused(500); }
      hooks := hooks[id := HookRow(name, 1, spec)];
      var _ := BumpConfigVersion(HookAdded);
      r := Done;
    }

    method HookReplace(name: string, raw: HookSpec, rulesOk: bool) returns (r: Outcome)
      requires Uniques(Abs())
      modifies this
      ensures (Abs(), r) == ReplaceHook(old(Abs()), name, raw, rulesOk)
    {
      if !WellFormed(raw) { return Refused(422); }
      var spec := Normalized(raw);
      if !rulesOk { return Refused(422); }
      var found := GetHook(name);
      if found.None? { return Refused(404); }
      var current := hooks[found.value];
      var narrowed := (ToSet(current.spec.hostFunctions) - ToSet(spec.hostFunctions))
                      + (ToSet(current.spec.effectTypes) - ToSet(spec.effectTypes));
      NarrowedMeaning(current.spec, spec);
      if narrowed != {} { return Refused(409); }
      if SameDefinition(current.spec, spec) { return Done; }
      hooks := hooks[found.value := current.(spec := spec, defVersion := current.defVersion + 1)];
      var _ := BumpConfigVersion(HookUpdated);
      r := Done;
    }

    method TenantCreate(id: Uuid, row: TenantRow) returns (r: Outcome)
      requires Uniques(Abs())
      modifies this
      ensures (Abs(), r) == CreateTenant(old(Abs()), id, row)
    {
      if |row.externalId| < 1 || |row.externalId| > 128 || row.rateLimit < 0 || row.concurrency < 0 {
        return Refused(422);
      }
      if row.rateLimit > INT32_MAX || row.concurrency > INT32_MAX { return Refused(500); }
      var taken := GetTenant(row.externalId);
      if taken.Some? { return Refused(409); }
      if id in tenants { return Refused(500); }
      tenants := tenants[id := row];
      var _ := BumpConfigVersion(TenantAdded);
      r := Done;
    }

    /** Collects the fields that differ, and bumps only for the visible ones. */
    method TenantPatched(externalId: string, p: TenantPatch) returns (r: Outcome)
      requires Uniques(Abs())
      modifies this
      ensures (Abs(), r) == PatchTenant(old(Abs()), externalId, p)
    {
      if (p.rateLimit.Some? && p.rateLimit.value < 0) || (p.concurrency.Some? && p.concurrency.value < 0) {
        return Refused(422);
      }
      var found := GetTenant(externalId);
      if found.None? { return Refused(404); }
      var current := tenants[found.value];
      var changed: set<Field> := {};
      var next := current;
      if p.name.Some? && p.name.value != current.name {
        next, changed := next.(name := p.name.value), changed + {Name};
      }
      if p.rateLimit.Some? && p.rateLimit.value != current.rateLimit {
        next, changed := next.(rateLimit := p.rateLimit.value), changed + {RateLimitRps};
      }
      if p.concurrency.Some? && p.concurrency.value != current.concurrency {
        next, changed := next.(concurrency := p.concurrency.value), changed + {ConcurrencyLimit};
      }
      if changed == {} { return Done; }
      if next.rateLimit > INT32_MAX || next.concurrency > INT32_MAX { return Refused(500); }
      tenants := tenants[found.value := next];
      if RateLimitRps in changed || ConcurrencyLimit in changed {
        var _ := BumpConfigVersion(TenantUpdated);
      }
      r := Done;
    }

    method NameOrHashTaken(name: string, sha256: string) returns (b: bool)
      ensures b <==> exists i :: i in keys && (keys[i].name == name || keys[i].sha256 == sha256)
    {
      var rest := keys.Keys;
      while rest != {}
        invariant rest <= keys.Keys
        invariant forall i :: i in keys && i !in rest ==> keys[i].name != name && keys[i].sha256 != sha256
      {
        var i :| i in rest;
        if keys[i].name == name || keys[i].sha256 == sha256 {
          return true;
        }
        rest := rest - {i};
      }
      b := false;
    }

    method KeyCreate(id: string, name: string, sha256: string) returns (r: Outcome)
      requires IsHex64(sha256)
      modifies this
      ensures (Abs(), r) == CreateKey(old(Abs()), id, name, sha256)
    {
      if |name| < 1 || |name| > 64 { return Refused(422); }
      var taken := NameOrHashTaken(name, sha256);
      if taken || id in keys { return Refused(409); }
      keys := keys[id := KeyRow(name, sha256, false)];
      var _ := BumpConfigVersion(KeyAdded);
      r := Done;
    }

    method KeyRevoke(id: string) returns (r: Outcome)
      modifies this
      ensures (Abs(), r) == RevokeKey(old(Abs()), id)
    {
      if id !in keys { return Refused(404); }
      if keys[id].revoked { return Done; }
      keys := keys[id := keys[id].(revoked := true)];
      var _ := BumpConfigVersion(KeyWithdrawn);
      r := Done;
    }

    /** The reads of BindingService.update, before the binding row is locked, with
        no commit between them; History lets other commits in between. */
    method BindingBegin(externalId: string, hookName: string, m: ModuleId,
                        config: Option<map<string, string>>) returns (r: Began)
      requires Uniques(Abs())
      ensures r == BeginBinding(Abs(), externalId, hookName, m, config)
    {
      if m.Absent? && config.None? { return Failed(400); }
      if m.Malformed? { return Failed(404); }
      var tenant := GetTenant(externalId);
      var hook := GetHook(hookName);
      if hook.None? || tenant.None? { return Failed(404); }
      var candidate: Option<Uuid> := None;
      if m.Given? {
        if m.id !in modules || modules[m.id].tenant != tenant.value || modules[m.id].hook != hook.value {
          return Failed(404);
        }
        if modules[m.id].status != Validated { return Failed(409); }
        candidate := Some(m.id);
      }
      r := Open(Pending(tenant.value, hook.value, candidate, config));
    }

    /** ensure_binding: creates the empty row; true if this call inserted it. */
    method EnsureBinding(id: BindingId) returns (created: bool)
      modifies this`bindings
      ensures created == (id !in old(bindings))
      ensures bindings == if created then old(bindings)[id := NEW_BINDING] else old(bindings)
    {
      created := id !in bindings;
      if created {
        bindings := bindings[id := NEW_BINDING];
      }
    }

    /** From ensure_binding to commit: collects the changes, writes and bumps. */
    method BindingFinish(p: Pending)
      modifies this
      ensures Abs() == FinishBinding(old(Abs()), p)
    {
      var id := (p.tenant, p.hook);
      var created := EnsureBinding(id);
      var current := bindings[id];
      var changed := false;
      var next := current;
      if p.candidate.Some? && p.candidate != current.active {
        next, changed := next.(active := p.candidate), true;
      }
      if p.config.Some? && p.config.value != current.config {
        next, changed := next.(config := p.config.value), true;
        if !created {
          next := next.(configVersion := current.configVersion + 1);
        }
      }
      if !created && !changed { return; }
      if changed {
        bindings := bindings[id := next];
      }
      assert bindings == old(bindings)[id := next];
      var _ := BumpConfigVersion(BindingUpdated);
    }

    method FindSameModule(row: ModuleRow) returns (b: bool)
      ensures b <==> ModuleTaken(Abs(), row)
    {
      var rest := modules.Keys;
      while rest != {}
        invariant rest <= modules.Keys
        invariant forall i :: i in modules && i !in rest ==> !SameModule(modules[i], row)
      {
        var i :| i in rest;
        if SameModule(modules[i], row) {
          return true;
        }
        rest := rest - {i};
      }
      b := false;
    }

    method ModuleInsert(id: Uuid, tenant: Uuid, hook: Uuid, contentHash: string, size: int) returns (r: Outcome)
      modifies this
      ensures (Abs(), r) == InsertModule(old(Abs()), id, tenant, hook, contentHash, size)
    {
      if size == 0 { return Refused(422); }
      var row := ModuleRow(tenant, hook, contentHash, size, Uploaded, None);
      var taken := FindSameModule(row);
      if taken { return Refused(409); }
      if id in modules || !IsModuleHash(contentHash) || size <= 0 || tenant !in tenants || hook !in hooks {
        return Refused(500);
      }
      modules := modules[id := row];
      r := Done;
    }

    method ModuleMark(id: Uuid)
      modifies this`modules
      ensures Abs() == MarkValidating(old(Abs()), id)
    {
      if id in modules {
        if modules[id].status == Uploaded {
          modules := modules[id := modules[id].(status := Validating)];
        } else {
          assert modules[id := Marked(modules[id])] == modules;
        }
      }
    }

    method ModuleJudge(id: Uuid, report: Report)
      modifies this`modules
      ensures Abs() == FinishValidation(old(Abs()), id, report)
    {
      if id in modules {
        if modules[id].status == Validating {
          var status := if report.ok then Validated else Rejected;
          modules := modules[id := modules[id].(status := status, report := Some(report))];
        } else {
          assert modules[id := Judged(modules[id], report)] == modules;
        }
      }
    }
  }
}
