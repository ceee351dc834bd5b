# WasmHooks: pool, configuration propagation and what joins them

WasmHooks runs tenants' WebAssembly scripts behind operator-defined hooks. A
control plane keeps hooks, tenants, bindings, modules and API keys in a
database; data planes long-poll it for configuration snapshots, compile the
bound modules and run them in pooled sandbox instances. This project models the
parts whose correctness is about many steps at once:

- **The instance pool** (`PoolModel`, `PoolManager`, `PoolSystem`, `Execution`).
  The lock-held regions are methods of a class, each proved against a function
  on the pool's state; `PoolSystem` interleaves any number of goroutines, with
  factory calls, script calls, waits and closes between the regions.
- **The database and its history** (`Documents`, `Tables`, `HookNames`,
  `Services`, `History`). Every service is a class method proved against a
  function on the database; a run is any sequence of committed transactions, and
  a binding update is split where it reads its module candidate before it locks
  the binding row.
- **Propagation** (`PlaneConfig`, `ConfigState`, `Propagation`, `Store`,
  `Poller`). Writers, replicas with a lagging watcher and a snapshot cache,
  requests that wait, answers that arrive late, twice or never, and data planes
  that swap views by compare-and-swap.
- **The facts that join them** (`SpecDigest`, `Executor`, `CompileSystem`,
  `Instances`, `Validator`, `Sandbox`, `Output`, `Schema`, `SchemaCache`): what a
  pool key pins, the module cache with single flight, what is inside every
  leased instance when pool, cache and configuration run together, module
  validation across crashes, and why growing hooks never break what worked.
- **Text cutting and logs** (`Utf8`, `LogBuffer`), with sorting and string facts
  in `Text`, and what all share in `Basics` and `Paths`.

Step systems and classes share their functions: `PoolSystem` steps with the
functions that `PoolManager.Manager` is proved against, `History` with those of
`Services.ControlPlane`, `CompileSystem` with those of `Executor.Executor`,
`ConfigState` is proved against those of `Propagation`, and the worker of
`Validator` writes through `Services.ControlPlane`. What a shared function does is
stated once more without it, by rows, fields and list positions, in a lemma whose
name ends in `Meaning`.

## Where the code and its own description differ

The model follows the code; each difference has a lemma with an input that shows
it and a lemma that says exactly when the description holds.

- `backoff` is described as `min(max, min*2^(n-1))`. The code stops doubling
  after twenty failures and shifts in 64 bits. `Poller.DocumentedFormula` gives
  the exact condition for the described formula, for every minimum and maximum:
  twenty doublings reach the maximum, and none wraps around to less.
  `Poller.CeilingExact` does the same for the capped doubling that the code
  computes, and `Poller.CeilingWraps` is an input for which the wait collapses.
- Replacing a hook is meant to do nothing only if the definition stays the same.
  The comparison is Python's, to which 1, 1.0 and true are equal, so a schema
  with `{"const": true}` does not replace one with `{"const": 1}`: it is accepted
  and dropped (`Services.DroppedReplacement`). `Services.AcceptedIsStored` says
  exactly when an accepted one is what the hook then says: unless it compares
  equal and has, at some place, an equal number of another kind.
- A process-wide cap is said to bound the total number of instances. It bounds
  those that are accounted for. An evicted or retired instance stops being
  accounted for before it is closed, so more can exist than the cap allows
  (`PoolSystem.CapIsOvershot`). `PoolSystem.UnclosedInstances` says exactly when
  the unclosed ones stay within the cap: when the closes still to come fit into
  what the accounts leave free.
- `specDigest` is meant to tell different specs apart. It does so for limits;
  host function lists share a digest when their names break alike at commas
  (`SpecDigest.DigestEqual`, `SpecDigest.DigestCollides`).
- Default effect keys are said to keep two effects of one call from collapsing.
  They differ from each other, but a script may choose a key that equals one
  (`Output.KeysCollide`, `Output.GuessedKeyCollides`).
- A module upload commits its row and then queues it, so that an accepted module
  gets validated. A request cancelled between the two can leave one that nothing
  but a restart gets decided (`Validator.CancelStrands`).
  `Validator.CancelLosesIff` says exactly when a cancel does that: the module is
  undecided and neither the queue nor the worker has it.

## Model

| member | source | states |
|---|---|---|
| PoolManager.Manager.constructor | dataplane/internal/pool/pool.go:103-116 | a new manager is open, empty and unaccounted, with non-positive options replaced by the defaults |
| PoolModel.WithDefaults | dataplane/internal/pool/pool.go:52-64 | the caps a manager works with are positive, and options that are positive already are kept |
| PoolManager.CompactIdle | dataplane/internal/pool/pool.go:228-239 | in place on the array, the entries to keep end up at the front in their order and the others are returned as victims |
| PoolManager.ClearFrom | dataplane/internal/pool/pool.go:239-239 | nothing but the kept front stays referenced, and the front is untouched |
| PoolModel.KeptIsFilter | dataplane/internal/pool/pool.go:230-237 | compaction keeps exactly the entries that are not older than the TTL, by strictly increasing old positions |
| PoolModel.KeptAndTaken | dataplane/internal/pool/pool.go:230-237 | every idle instance is either kept or handed out for closing, as often as it was there |
| PoolModel.SweepMeaning | dataplane/internal/pool/pool.go:228-242 | whatever order the map is visited in, each pool keeps exactly its unexpired entries, emptied pools are gone and the total falls by the number taken |
| PoolManager.Manager.Pool | dataplane/internal/pool/pool.go:308-315 | a missing pool is created empty and stored; an existing one is returned unchanged |
| PoolManager.Manager.DropIfEmptyLocked | dataplane/internal/pool/pool.go:317-321 | a pool disappears exactly when it has neither active nor idle instances |
| PoolManager.Manager.NotifyLocked | dataplane/internal/pool/pool.go:349-352 | the current wake-up channel is closed and replaced, nothing else changes |
| PoolManager.Manager.FindOldest | dataplane/internal/pool/pool.go:325-337 | the two nested loops find an entry whose last use is minimal over all keys, or nothing exactly when nothing is idle |
| PoolManager.Manager.EvictOldestIdleLocked | dataplane/internal/pool/pool.go:325-347 | that entry leaves its list and the total; without idle entries nothing changes |
| PoolManager.Manager.Attempt | dataplane/internal/pool/pool.go:129-159 | one pass under the lock refuses, reuses, reserves, evicts or waits, in that order of preference, and leaves the state that outcome prescribes |
| PoolModel.AttemptMeaning | dataplane/internal/pool/pool.go:129-160 | the state alone decides how a pass ends: refused exactly when closed, else reuse exactly when the key has an idle entry, else reserve exactly below limit and cap, evict exactly below the limit at the cap with something idle anywhere |
| PoolModel.AfterAttemptMeaning | dataplane/internal/pool/pool.go:135-150 | a reuse takes the last idle entry and one active slot, a reservation one active slot and one of the total, a wait nothing; other keys keep their pools |
| PoolModel.EvictMeaning | dataplane/internal/pool/pool.go:323-347 | an eviction takes one entry, older than or as old as every idle one, out of its list and lowers the total by one; every other entry stays |
| PoolManager.Manager.Create | dataplane/internal/pool/pool.go:186-198 | a failed factory call gives the reserved slot back and wakes waiters; a made instance is leased cold |
| PoolModel.UnreserveMeaning | dataplane/internal/pool/pool.go:188-194 | a failed factory call lowers total and active by one, keeps every idle list, drops an emptied pool and moves the wake-up channel on |
| PoolManager.Manager.Saturated | dataplane/internal/pool/pool.go:175-183 | a failed wait drops the pool it left empty and tells whether the caller's context ended it |
| PoolManager.Manager.Acquire | dataplane/internal/pool/pool.go:122-170 | run alone it fails as closed exactly when closed, as saturated exactly when the key is blocked, leases the key's newest idle instance if there is one, and terminates through evictions |
| PoolManager.EvictionUnblocks | dataplane/internal/pool/pool.go:151-154 | an eviction frees room for the pass that made it, and lowers the total that bounds the loop |
| PoolManager.Manager.Release | dataplane/internal/pool/pool.go:201-217 | healthy, with uses left and the manager open, the instance goes to the end of its list, one use older, and the total stays; in every other case it is retired, the list stays and the total falls by one |
| PoolModel.ReleaseMeaning | dataplane/internal/pool/pool.go:201-215 | exactly when a release keeps the instance (healthy, uses left, open), what both cases leave under its key, and that other keys stay and waiters are woken either way |
| PoolManager.Manager.SweepPool | dataplane/internal/pool/pool.go:228-241 | one pool's idle list is compacted through an array and the pool dropped if nothing is left |
| PoolManager.Manager.SweepPools | dataplane/internal/pool/pool.go:228-242 | visits every pool exactly once and collects all victims |
| PoolManager.Manager.ReapIdle | dataplane/internal/pool/pool.go:224-250 | takes the expired entries of all pools and wakes waiters exactly when it took any |
| PoolModel.ReapMeaning | dataplane/internal/pool/pool.go:224-245 | after a reap an entry is idle exactly if it was and its age is at most IdleTTL; active counts stay, the total falls by the victims and the channel moves on exactly if there are any |
| PoolManager.Manager.Close | dataplane/internal/pool/pool.go:265-283 | the first call takes every idle instance and wakes waiters; later calls do nothing |
| PoolModel.ShutMeaning | dataplane/internal/pool/pool.go:265-282 | the first close empties every idle list, keeps active counts, lowers the total by the victims and moves the channel on; a later one changes nothing |
| PoolManager.Lease.constructor | dataplane/internal/pool/pool.go:143-143 | a lease holds its instance unreleased |
| PoolManager.Lease.Release | dataplane/internal/pool/pool.go:371-373 | only the first release has an effect, and it is the manager's release of this lease |
| PoolSystem.StepKeepsCore | dataplane/internal/pool/pool.go:129-220 | every step of every goroutine keeps total = sum of active + idle within the cap, active = leases + creations, each instance in exactly one place under its own key, use counts, isolation of failed instances and the order of idle lists |
| PoolSystem.StepKeepsWakeUp | dataplane/internal/pool/pool.go:129-169 | no step, not even an eviction that lowers the total without notifying, leaves a waiter parked on the open channel that is not truly blocked |
| PoolSystem.StepKeepsNoLeak | dataplane/internal/pool/pool.go:317-321 | an empty pool stays in the map only while someone waits for its key, and none after Close |
| PoolSystem.RunKeepsInv | dataplane/internal/pool/pool.go:122-321 | all of these hold in every state of every run |
| PoolSystem.ParkedIsBlocked | dataplane/internal/pool/pool.go:156-163 | whatever pass a waiter parked on the open channel could make now would send it back to waiting |
| PoolSystem.UnusedKeyWaitsForCap | dataplane/internal/pool/pool.go:123-160 | in every run, whatever limits callers pass, a waiter on the open channel whose key has no instance in use waits for the cap alone: total is GlobalMax and nothing is idle |
| PoolSystem.ClosedDrains | dataplane/internal/pool/pool.go:263-283 | once closed, with leases and creations over, the pool map is empty and the total 0; after the pending closes every instance ever made was closed exactly once |
| PoolSystem.ClosedAtMostOnce | dataplane/internal/pool/pool.go:207-219 | no instance is closed twice or while leased, and none is leased more than MaxUses times |
| PoolSystem.CountersAreTrue | dataplane/internal/pool/pool.go:137-157 | in every state of every run total is the sum over keys of active plus idle and within GlobalMax, and a key's active count is its leases plus creations |
| PoolSystem.UnclosedInstances | dataplane/internal/pool/pool.go:151-155 | in every state of every run the instances made and not yet closed are total minus factory calls under way plus pending closes, so at most GlobalMax plus the pending closes, and within GlobalMax exactly when the pending closes fit what total leaves free |
| PoolSystem.CapIsOvershot | dataplane/internal/pool/pool.go:147-155 | a run with GlobalMax 1 in which two instances exist unclosed |
| PoolSystem.LeasedAloneUnderItsKey | dataplane/internal/pool/pool.go:137-143 | no two leases share an instance, and each is under the key its instance was made for |
| PoolSystem.NoCallAfterFailure | dataplane/internal/executor/executor.go:229-238 | no instance is called again after a call on it returned an error |
| PoolSystem.ReuseNewestEvictOldest | dataplane/internal/pool/pool.go:137-154 | reuse takes the key's most recently used instance, eviction the front of its list and nothing idle anywhere is older |
| PoolSystem.ReapTakesPrefix | dataplane/internal/pool/pool.go:230-237 | in every state of every run the reaper removes exactly a prefix of each idle list |
| PoolSystem.LimitHolds | dataplane/internal/pool/pool.go:145-150 | a key always acquired under limits up to a bound never has more live instances than that bound |
| Execution.UseLease | dataplane/internal/executor/executor.go:218-238 | after a failed or panicked call the instance is to be closed and idle nowhere; after one that never started or was answered, with uses left and the manager open, it is the next its key reuses; the deferred release changes nothing else |
| Execution.WhereItGoes | dataplane/internal/pool/pool.go:201-220 | a lease given back after an answer or unused, with uses left and the manager open, is last in its key's list and what every next pass reuses; in every other case the instance is idle nowhere |
| Execution.CourseIsRun | dataplane/internal/executor/executor.go:215-238 | every course of a leased call is a run of the pool system: its call, failing in exactly one course, then the release that UseLease makes, which the system allows |
| Text.SortedSetMeaning | control-plane/src/controlplane/hooks/rules.py:40-48 | normalized lists are strictly increasing and have the same members |
| Services.AcceptedIsStored | control-plane/src/controlplane/hooks/service.py:64-75 | an accepted replacement is what the hook then says, unless it compares equal to the old definition and at some place of some document holds an equal number of another kind; exactly then it is not, and whenever it compares equal nothing changes |
| Services.DroppedReplacement | control-plane/src/controlplane/hooks/service.py:73-74 | create a hook whose output must have n with const 1, replace it by one with const true: both are accepted, and the hook still says 1 |
| Services.ConstAlias | control-plane/src/controlplane/hooks/service.py:73-73 | the schemas `{"properties": {"n": {"const": 1}}}` and the same with true differ and compare equal |
| Documents.PyEqualMeaning | control-plane/src/controlplane/hooks/service.py:73-73 | two documents compare equal exactly when they are the same once every number is written as a float |
| Documents.PyEqualEquivalence | control-plane/src/controlplane/hooks/service.py:73-73 | comparing equal is reflexive, symmetric and transitive |
| Documents.OverlooksIff | control-plane/src/controlplane/hooks/service.py:73-73 | documents that compare equal differ exactly when some place holds equal numbers of different kinds in the two |
| Services.NarrowedMeaning | control-plane/src/controlplane/hooks/service.py:65-68 | a replacement narrows exactly when one of the two differences of allowed lists is not empty |
| Documents.NumbersAcrossKinds | control-plane/src/controlplane/hooks/service.py:73-73 | true is 1 and 1.0, false is 0 and 0.0, an integer is the float of its value, and no number is anything else |
| HookNames.HookNameMeaning | control-plane/src/controlplane/hooks/schemas.py:11-11 | a name is at most 128 characters of segments between dots, each a lower-case letter followed by letters, digits and underscores |
| Tables.HashTexts | control-plane/src/controlplane/tables.py:72-72 | the two hash formats, character by character: 64 lower-case hexadecimal digits, and the same behind sha256: |
| Services.RequestMirrorsTables | control-plane/src/controlplane/hooks/schemas.py:14-37 | the request model accepts exactly the definitions whose columns the hooks table accepts |
| Services.ControlPlane.BumpConfigVersion | control-plane/src/controlplane/configstate/version.py:10-35 | the version rises by one and gets its audit row |
| Services.ControlPlane.GetHook | control-plane/src/controlplane/hooks/repo.py:55-60 | finds the hook of a name, or nothing exactly when there is none |
| Services.ControlPlane.GetTenant | control-plane/src/controlplane/tenants/repo.py:43-50 | finds the tenant of an external id, or nothing exactly when there is none |
| Services.ControlPlane.HookCreate | control-plane/src/controlplane/hooks/service.py:44-52 | creates a normalized definition at version 1 with one bump, or refuses with nothing changed |
| Services.CreateHookMeaning | control-plane/src/controlplane/hooks/service.py:44-52 | exactly when a creation is accepted, refused as malformed or as taken; accepted, one row is added that says what the request said at version 1, and the version rises with a hook.created row |
| Services.ControlPlane.HookReplace | control-plane/src/controlplane/hooks/service.py:54-79 | refuses narrowing, ignores equal definitions, and otherwise raises def_version and the snapshot version by one each |
| Services.ReplaceHookMeaning | control-plane/src/controlplane/hooks/service.py:54-79 | malformed is 422, something taken away from either list is 409; otherwise a definition alike to Python changes nothing and any other is stored field by field at the next version with one bump, no other row touched |
| Services.ReplaceUnknownHook | control-plane/src/controlplane/hooks/service.py:61-62 | a name no hook has is refused with 404 |
| Services.ControlPlane.TenantCreate | control-plane/src/controlplane/tenants/service.py:41-53 | creates a tenant with one bump, or refuses with nothing changed |
| Services.CreateTenantMeaning | control-plane/src/controlplane/tenants/service.py:41-53 | exactly when a creation is accepted, malformed or taken; accepted, the row is stored as given with one bump |
| Services.ControlPlane.TenantPatched | control-plane/src/controlplane/tenants/service.py:55-76 | applies the fields that differ and bumps exactly when a limit that snapshots show changed |
| Services.PatchTenantMeaning | control-plane/src/controlplane/tenants/service.py:55-76 | every field takes its given value or keeps its own, no other row changes, and the version rises exactly if one of the two limits changed |
| Services.PatchUnknownTenant | control-plane/src/controlplane/tenants/service.py:58-61 | an id no tenant has is refused with 404 and nothing changes |
| Services.ControlPlane.NameOrHashTaken | control-plane/src/controlplane/apikeys/service.py:33-41 | true exactly when some key has the name or the hash |
| Services.ControlPlane.KeyCreate | control-plane/src/controlplane/apikeys/service.py:30-48 | stores a live key with one bump, or refuses a taken name or hash |
| Services.CreateKeyMeaning | control-plane/src/controlplane/apikeys/service.py:30-48 | exactly when a key is accepted, malformed or taken; accepted, a live key with that name and hash is stored with one bump |
| Services.ControlPlane.KeyRevoke | control-plane/src/controlplane/apikeys/service.py:50-58 | revokes once with one bump; revoking again changes nothing |
| Services.RevokeKeyMeaning | control-plane/src/controlplane/apikeys/service.py:50-58 | an unknown key is 404, a live one becomes revoked and keeps everything else with one bump, a revoked one changes nothing |
| Services.ControlPlane.BindingBegin | control-plane/src/controlplane/bindings/service.py:32-55 | with no commit between its reads, opens an update only for an existing tenant and hook and a module of both that reads as validated, with the code's error in every other case |
| Services.BeginBindingMeaning | control-plane/src/controlplane/bindings/service.py:33-55 | which answer each combination of module id, its row and its status, and config gets, and that an opened update carries exactly what was asked for |
| Services.BeginUnknown | control-plane/src/controlplane/bindings/service.py:38-43 | an unknown tenant or hook is 404 |
| Services.ControlPlane.EnsureBinding | control-plane/src/controlplane/bindings/repo.py:67-75 | creates the empty row exactly when there is none |
| Services.ControlPlane.BindingFinish | control-plane/src/controlplane/bindings/service.py:57-82 | collects and writes the changes; a first config keeps version 1, a later change of config raises it, and only a no-op skips the bump |
| Services.FinishBindingMeaning | control-plane/src/controlplane/bindings/service.py:57-82 | afterwards the row exists, runs the candidate if one was given, has the config given, and else what it had; config_version rises by one exactly when an existing row's config differs; no other row changes, and the version rises exactly when the row is new or differs |
| Services.ControlPlane.FindSameModule | control-plane/src/controlplane/modules/repo.py:77-92 | true exactly when the tenant already uploaded these bytes for the hook |
| Services.ControlPlane.ModuleInsert | control-plane/src/controlplane/modules/repo.py:68-92 | inserts an uploaded row or refuses an empty, repeated or unreferenced one |
| Services.InsertModuleMeaning | control-plane/src/controlplane/modules/repo.py:68-92 | exactly when an upload is accepted, empty or a repetition; accepted, the row is stored as given, uploaded and without report |
| Services.ControlPlane.ModuleMark | control-plane/src/controlplane/modules/repo.py:134-139 | only an uploaded row becomes validating |
| Services.ControlPlane.ModuleJudge | control-plane/src/controlplane/modules/repo.py:155-168 | only a validating row gets a verdict and its report |
| Services.JudgedMeaning | control-plane/src/controlplane/modules/repo.py:134-168 | uploaded becomes validating, validating becomes validated or rejected with the report as it says, and every other row stays as it is |
| History.CommitVersion | control-plane/src/controlplane/configstate/version.py:13-18 | every transaction either leaves the version and everything a snapshot shows alone, or bumps exactly once |
| History.CommitAudited | control-plane/src/controlplane/configstate/version.py:31-35 | after every transaction each version above the first has exactly one audit row |
| History.CommitConstraints | control-plane/src/controlplane/tables.py:38-157 | every service transaction keeps all declared checks, uniqueness and foreign keys |
| History.CommitActives | control-plane/src/controlplane/bindings/service.py:45-76 | every transaction keeps each active module validated and of its binding's tenant and hook |
| History.ReadsKeepInv | control-plane/src/controlplane/bindings/service.py:38-55 | the reads of a binding update, each in a statement of its own with other commits in between, only ever open a sound update |
| History.BeginIsThreeReads | control-plane/src/controlplane/bindings/service.py:37-55 | an update that opens with no commit in between is three separate reads of one state |
| History.StepKeepsInv | control-plane/src/controlplane/bindings/service.py:37-82 | one committed step keeps constraints, audit, verdicts, active modules and open updates sound, and lets rows only evolve |
| History.RunKeepsInv | control-plane/src/controlplane/tables.py:38-157 | every state of every history satisfies all of them |
| History.RunEvolves | control-plane/src/controlplane/configstate/version.py:20-23 | between any two points of a history rows only evolve, versions never fall, and an unchanged version shows unchanged content |
| History.ActiveIsValidated | control-plane/src/controlplane/bindings/service.py:45-76 | what a binding runs is a validated module of its own tenant and hook with a passing report, although the status was read before the row lock |
| History.VersionNamesContent | control-plane/src/controlplane/configstate/version.py:13-23 | two states with one version show one configuration |
| History.DefVersionPins | control-plane/src/controlplane/hooks/service.py:54-79 | (hook name, def_version) names one definition over the whole history |
| History.HooksEvolve | control-plane/src/controlplane/hooks/service.py:63-75 | a later definition of a hook has no lower version and allows no less |
| History.BindingsEvolve | control-plane/src/controlplane/bindings/service.py:57-76 | a later row of a binding has no lower config version, and an equal one the same config |
| History.ConfigVersionPins | control-plane/src/controlplane/bindings/service.py:57-82 | (tenant, hook, config_version) names one config over the whole history |
| PlaneConfig.ReadShowsVisible | control-plane/src/controlplane/configstate/snapshot.py:17-68 | a read shows exactly the live keys, hooks, tenants and active bindings of the state it reads, in any row order |
| Tables.VisibleRows | control-plane/src/controlplane/configstate/snapshot.py:25-58 | the projection column by column: live keys, hooks, tenants with each limit under its own name, and bindings that run a module with their tenant's id, hook's name, content hash, config and config version |
| PlaneConfig.ReadShowsRows | control-plane/src/controlplane/configstate/snapshot.py:17-68 | the rows of a read are exactly those, column by column, in any row order |
| PlaneConfig.TablesMirrorPlane | control-plane/src/controlplane/tables.py:3-7 | validate refuses a definition exactly where the hooks table's constraints on its columns do, and which bounds those are |
| PlaneConfig.CheckHooks | dataplane/internal/config/config.go:133-143 | the loop finds a real problem, or the hooks are unique and valid and it returns exactly their names |
| PlaneConfig.CheckTenants | dataplane/internal/config/config.go:145-155 | the loop finds a real problem, or the tenants are unique with sane limits and it returns exactly their ids |
| PlaneConfig.CheckBindings | dataplane/internal/config/config.go:157-175 | the loop finds a real problem, or bindings are unique, well-formed and refer to known hooks and tenants |
| PlaneConfig.Validate | dataplane/internal/config/config.go:128-184 | accepts exactly the acceptable snapshots and names a real problem of every other |
| PlaneConfig.ReadIsAcceptable | control-plane/src/controlplane/tables.py:1-7 | a database that satisfies its constraints never yields a snapshot the data plane rejects |
| PlaneConfig.NewView | dataplane/internal/config/config.go:239-256 | the three loops index the snapshot, later rows winning |
| PlaneConfig.ViewShowsContent | dataplane/internal/config/config.go:239-284 | for an accepted snapshot the three lookups answer exactly its rows, none lost and none invented; a tenant with concurrency limit 0 is answered with the default 4 and otherwise as it stands |
| PlaneConfig.ViewShowsDatabase | control-plane/src/controlplane/configstate/snapshot.py:17-68 | from constrained database through read, validation and index to lookups that answer exactly the visible projection, and column by column exactly the rows of the tables, a tenant limit of 0 as 4 |
| ConfigState.VersionWatcher.constructor | control-plane/src/controlplane/configstate/watcher.py:23-28 | a watcher starts at version 0 with an unset event |
| ConfigState.VersionWatcher.PollOnce | control-plane/src/controlplane/configstate/watcher.py:50-55 | the version becomes what was read, and the event is set and replaced exactly when it changed |
| ConfigState.VersionWatcher.WaitNewer | control-plane/src/controlplane/configstate/watcher.py:57-70 | sleeping on the event loses nothing: the wait ends at the first batch of polls that leaves a newer version, and answers true exactly if one did before the timeout |
| ConfigState.SnapshotService.Current | control-plane/src/controlplane/configstate/snapshot.py:89-103 | answers from the cache while it is as new as the watcher, otherwise from one fresh read that becomes the cache; never older than the watcher |
| ConfigState.SnapshotService.GetSnapshot | control-plane/src/controlplane/configstate/router.py:20-30 | over a database that does not regress, "not modified" exactly when the wait timed out, and every body newer than asked for |
| Propagation.StepKeepsInv | control-plane/src/controlplane/configstate/snapshot.py:89-103 | every step of writers, replicas, requests and planes keeps caches, builds, waits, answers and planes faithful to some committed state |
| Propagation.RunKeepsInv | control-plane/src/controlplane/configstate/watcher.py:50-70 | all of it holds in every state of every run |
| Propagation.PlaneShowsItsVersion | dataplane/internal/config/store.go:53-64 | the lookups of a data plane at version v answer exactly what every committed state of version v shows, column by column, a tenant limit of 0 as 4; v never exceeds the database's version and rises at every install |
| Propagation.DeliveryAdvances | dataplane/internal/config/store.go:53-64 | in every run an answer that reaches a plane is installed exactly if the plane is empty or older, and changes nothing else |
| Propagation.PlanesNeverReject | dataplane/internal/config/config.go:112-184 | no answer that can reach a plane is one it would reject, and what it runs on was committed |
| Propagation.ParkedOnCurrentEvent | control-plane/src/controlplane/configstate/watcher.py:61-69 | a request parked on an unset event is parked on the watcher's current one, with nothing newer known |
| Propagation.WokenGetsNewer | control-plane/src/controlplane/configstate/router.py:24-30 | a request whose wait succeeded gets a body; every body is newer than asked for and no older than the watcher was |
| Propagation.OnlyTimeoutsSayNothingNew | control-plane/src/controlplane/configstate/router.py:27-33 | in every run a request is told "not modified" exactly by a timeout at which its replica knows nothing newer than it asked for; so the second comparison in the handler never decides |
| Propagation.ReadsOnlyWhenStale | control-plane/src/controlplane/configstate/snapshot.py:94-103 | in every run the database is read only for a replica whose cache is older than its watcher's version, however many requests miss at once |
| Propagation.BuildIsShared | control-plane/src/controlplane/configstate/snapshot.py:97-103 | in every run a request queued behind a build is answered from its snapshot, without a read of its own, exactly if the watcher has not moved past it |
| Propagation.CacheNeverFalls | control-plane/src/controlplane/configstate/snapshot.py:97-103 | no step but a restart lowers a replica's cached version |
| Propagation.OnePollIsEnough | control-plane/src/controlplane/configstate/watcher.py:50-55 | while writers pause, after one whole poll a replica knows the database's version, whatever else happens around and inside the poll |
| Propagation.PolledAnswersAreCurrent | control-plane/src/controlplane/configstate/router.py:24-30 | from then on, on every schedule without a restart of the replica, each request it admits and answers gets a body exactly if it asked for less, and that body has exactly the database's version |
| Propagation.PolledBodiesCatchUp | dataplane/internal/config/poller.go:34-49 | any plane that any such body reaches, however late within the pause, ends on the database's version |
| Propagation.FetchCatchesUp | control-plane/src/controlplane/configstate/snapshot.py:89-103 | such an answer can be had: one schedule of a fetch from a replica whose build lock is free |
| Propagation.CatchUp | dataplane/internal/config/poller.go:27-63 | from any reachable state with an idle replica there is a schedule of one poll, one fetch and one delivery that brings a given plane to the database's version |
| Store.Store.CompareAndSwap | dataplane/internal/config/store.go:60-62 | swaps exactly if the pointer is still the loaded one |
| Store.Store.Update | dataplane/internal/config/store.go:53-64 | alone, a stale error exactly when the installed version is at least as new, and otherwise the new view installed |
| Store.RunKeepsInv | dataplane/internal/config/store.go:53-64 | under any interleaving of loads and swaps, installed versions strictly rise and each updater's losses stay within its measure |
| Store.HighestWins | dataplane/internal/config/store.go:49-52 | when all updaters have returned, the store holds the highest version submitted |
| Store.UpdatesLinearize | dataplane/internal/config/store.go:53-64 | an applied update was installed, a stale error means a version at least as new had been, and an updater loses at most one swap more than there are versions from the first installed up to its own |
| Poller.Wrap64 | dataplane/internal/config/poller.go:102-102 | a shifted duration is the 64-bit value of the product, equal to it whenever it fits |
| Poller.BackoffCeiling | dataplane/internal/config/poller.go:97-105 | the code's branches compute the ceiling from the minimum and the maximum, for which 500 ms and 10 s stand in when they are not positive |
| Poller.CeilingExact | dataplane/internal/config/poller.go:102-105 | for any minimum and maximum the ceiling is the capped doubling exactly when the doubled value stays below the maximum or its remainder modulo 2^64 is 0 or at least the maximum |
| Poller.CeilingSafe | dataplane/internal/config/poller.go:98-105 | below 2^43 ns the shift never wraps and the ceiling is min(max, min*2^min(n-1,20)) |
| Poller.CeilingWraps | dataplane/internal/config/poller.go:102-105 | a minimum of 2^44+1 ns wraps to about a millisecond after twenty-one failures |
| Poller.CeilingMonotone | dataplane/internal/config/poller.go:102-105 | the ceiling never shrinks while failures go on |
| Poller.DocumentedAt | dataplane/internal/config/poller.go:96-105 | for any minimum, maximum and failure count, exactly when the documented formula holds |
| Poller.DocumentedFormula | dataplane/internal/config/poller.go:96-105 | for any minimum and maximum the documented formula holds for all failure counts exactly when twenty doublings reach the maximum and none of them wraps around to less |
| Poller.DocumentedForSmall | dataplane/internal/config/poller.go:96-105 | below 2^43 ns reaching the maximum is the whole condition |
| Poller.Handle | dataplane/internal/config/poller.go:38-73 | one answer moves `after` to the newest version, resets or raises the failure count and decides the pause |
| Poller.Run | dataplane/internal/config/poller.go:27-75 | over any answers, what each fetch asks for, every pause, and the version the store ends at |
| Poller.RunMeaning | dataplane/internal/config/poller.go:27-75 | the i-th fetch asks for what is newer than everything before it, and its pause depends on its own answer and the streak it ends |
| Poller.StreakMeaning | dataplane/internal/config/poller.go:56-64 | the failure count is exactly the failures since the last other answer |
| Poller.NewestMeaning | dataplane/internal/config/poller.go:28-49 | what a fetch asks for is the maximum of the start version and all versions fetched |
| Text.DecimalInjective | dataplane/internal/executor/executor.go:86-86 | different numbers print differently |
| Text.DecimalMeaning | dataplane/internal/executor/output.go:79-79 | a printed number reads back as itself, without a leading zero |
| Text.JoinEqual | dataplane/internal/executor/executor.go:86-86 | two joined lists read the same exactly when they have the same pieces between separators |
| Sorting.SortCanonical | dataplane/internal/executor/executor.go:84-85 | sorting forgets the order of the list and nothing else |
| SpecDigest.DurationInjective | dataplane/internal/executor/executor.go:86-86 | different timeouts print differently |
| SpecDigest.DigestEqual | dataplane/internal/executor/executor.go:83-87 | exactly which specs share a digest |
| SpecDigest.DigestIdentifies | dataplane/internal/executor/executor.go:65-87 | for names that are not empty and have no comma, equal digests mean equal specs up to the order of the list |
| SpecDigest.DigestCollides | dataplane/internal/executor/executor.go:83-87 | two pairs of different specs with one digest |
| SpecDigest.FlightNameIdentifies | dataplane/internal/executor/executor.go:355-355 | flights of different module keys never merge |
| Executor.Executor.HookDef | dataplane/internal/executor/executor.go:318-326 | nothing remembered is forgotten, the view's current definition is remembered under its version, and the pinned one is found exactly if it is among these |
| Executor.Executor.Cached | dataplane/internal/executor/executor.go:329-339 | a module, an invalid verdict or nothing, as cached |
| Executor.Executor.Store | dataplane/internal/executor/executor.go:386-399 | caches verdicts and modules, not platform failures, and closes a module that is too late |
| Executor.Executor.Close | dataplane/internal/executor/executor.go:455-467 | empties the cache and closes each cached module once, keeping verdicts |
| Executor.Executor.ModuleFor | dataplane/internal/executor/executor.go:345-399 | alone, the cached answer or the compiler's, and after a module or a verdict the cache gives that answer again |
| Executor.PlanesAreGenuine | dataplane/internal/config/store.go:53-64 | every view a data plane installs is a view of a committed state |
| Executor.ViewsKeepRemembered | dataplane/internal/executor/executor.go:318-326 | an executor that took such views, in any order and with any gaps, remembers only published definitions |
| Executor.ResolveMeaning | dataplane/internal/executor/executor.go:180-189 | a request is answered exactly if its definition was seen under its version and its binding is in the view under its config version, and with which bytes, definition and config; everything else is stale_config |
| Executor.SeenIsFound | dataplane/internal/executor/executor.go:316-326 | an executor that once took a genuine view with a definition finds that very definition by its version, whatever views it took since |
| Executor.PinnedOnce | dataplane/internal/executor/executor.go:180-206 | a request's pool key admits one published recipe of bytes, definition and config |
| Executor.PoolKeyPins | dataplane/internal/executor/executor.go:180-209 | two executors with their own pasts and views that accept requests of one pool key build the same instance: same bytes, definition and config |
| Instances.StepKeepsInv | dataplane/internal/executor/executor.go:175-238 | with pool, module cache, remembered definitions and the database running together, every step keeps each call's ticket, each goroutine in the pool and each instance tied to a published recipe and a module compiled for it |
| Instances.RunKeepsInv | dataplane/internal/executor/executor.go:175-238 | that holds in every state of every run |
| Instances.OneRecipePerKey | dataplane/internal/executor/executor.go:195-209 | all instances ever made under one pool key were built from one recipe, their modules from its bytes under its spec's digest |
| Instances.LeaseFitsRequest | dataplane/internal/executor/executor.go:180-229 | the instance a call is leased, whoever made it, was built from exactly what the call's own request resolved to |
| Instances.AcceptedStaysFound | dataplane/internal/executor/executor.go:316-326 | in every run a definition some call was accepted with is found by its version ever after, whatever the configuration moved on to |
| Instances.CompiledUnderItsSpec | dataplane/internal/executor/executor.go:75-87 | with plain function names its module was compiled under the limits and grants of that definition |
| CompileSystem.StepKeepsGenuine | dataplane/internal/executor/executor.go:345-399 | every step keeps what the cache, flights and callers hold tied to the key it was made for |
| CompileSystem.StepKeepsSingleFlight | dataplane/internal/executor/executor.go:355-364 | every step keeps an unfinished flight the active one of its key, with nothing cached under it after its recheck |
| CompileSystem.StepKeepsOncePerKey | dataplane/internal/executor/executor.go:386-399 | every step keeps modules and verdicts disjoint and one stored result per key until Close |
| CompileSystem.StepKeepsConserved | dataplane/internal/executor/executor.go:379-399 | every step keeps each compiled module in exactly one of cache, a flight's hands, pending close and closed |
| CompileSystem.RunKeepsInv | dataplane/internal/executor/executor.go:345-467 | all four hold in every state of every run |
| CompileSystem.CallersGetTheirOwn | dataplane/internal/executor/executor.go:341-374 | whoever compiled it, a caller gets a module or a verdict for its own bytes under its own spec, by digest, and for plain names by spec |
| CompileSystem.CompilesOnce | dataplane/internal/executor/executor.go:341-364 | one compile per key at a time, one cached result per key before Close, never a module and a verdict |
| CompileSystem.NothingOutlivesClose | dataplane/internal/executor/executor.go:453-467 | no module is closed before Close, none twice, and when its closes and the flights are over every module ever compiled is closed exactly once |
| CompileSystem.LandedIsForgotten | dataplane/internal/executor/executor.go:355-372 | in every run a flight that lands is forgotten and no other, so whoever asks next is never handed its result and a failure is tried again |
| Validator.ModuleValidator.Upload | control-plane/src/controlplane/modules/service.py:67-82 | an accepted upload is inserted and then queued; a refused one is neither |
| Validator.ModuleValidator.RecoverPending | control-plane/src/controlplane/modules/validator.py:79-97 | after a recovery every pending module is in the queue |
| Validator.ModuleValidator.ValidateUntilAnswer | control-plane/src/controlplane/modules/validator.py:99-134 | a module that is not pending is left alone; a pending one is marked, asked about until the first answer and decided by it |
| Validator.DecidedMeaning | control-plane/src/controlplane/modules/repo.py:134-168 | mark and finish together give a pending module the report's verdict and leave a decided one as it is |
| Validator.RunKeepsInv | control-plane/src/controlplane/modules/validator.py:64-134 | across crashes and restarts every pending module is queued, in hand, just inserted, stranded by a cancelled upload, or to be listed by the next recovery |
| Validator.IdleMeansDone | control-plane/src/controlplane/modules/validator.py:64-77 | when the worker is idle with nothing queued or about to be, the undecided modules are exactly the stranded ones |
| Validator.StrandedStays | control-plane/src/controlplane/modules/validator.py:64-97 | short of a crash nothing ever changes a stranded module, on any schedule |
| Validator.CanBeDecided | control-plane/src/controlplane/modules/validator.py:64-77 | any other module of a live process has a schedule without a crash that decides it |
| Validator.StrandedIffAbandoned | control-plane/src/controlplane/modules/validator.py:61-97 | past recovery the stranded modules are exactly those that nothing but a restart can get decided |
| Validator.CancelLosesIff | control-plane/src/controlplane/modules/service.py:70-81 | cancelling an upload between commit and enqueue loses its module exactly when it is undecided and neither the queue nor the worker has it |
| Validator.CancelStrands | control-plane/src/controlplane/modules/service.py:70-81 | such a loss does happen: a run whose cancelled upload leaves a module that only a restart gets decided |
| Validator.VerdictsStay | control-plane/src/controlplane/modules/repo.py:134-168 | status only moves forward, and a verdict and its report never change |
| Validator.DecidedOnce | control-plane/src/controlplane/modules/repo.py:155-168 | a module is decided at most once, and its status agrees with the stored report |
| Validator.DrainQueue | control-plane/src/controlplane/modules/validator.py:64-77 | from any reachable state with an idle worker an undisturbed worker empties its queue, stranding nothing |
| Validator.RestartDecidesAll | control-plane/src/controlplane/modules/validator.py:64-97 | however the last process died, one undisturbed restart decides every pending module, for any answers |
| Sandbox.CheckImports | dataplane/internal/sandbox/check.go:67-74 | all forbidden imports in order, then all imported memories |
| Sandbox.CheckModule | dataplane/internal/sandbox/check.go:59-79 | accepts exactly the modules that export handle with a valid signature if known, import no memory and only allowed kernel functions or granted host functions; reports every violation of the others |
| Sandbox.ForbiddenMeaning | dataplane/internal/sandbox/check.go:85-94 | an import is reported exactly when it is neither an allowed kernel function nor a granted host function |
| Sandbox.ForbiddenInOrder | dataplane/internal/sandbox/check.go:67-71 | the report lists the forbidden imports in the order of the imports, each where it stands |
| Sandbox.GrantsGrow | dataplane/internal/sandbox/check.go:59-94 | a larger grant accepts every module accepted before and forbids no new import |
| Sandbox.GrowthKeepsModules | control-plane/src/controlplane/hooks/service.py:63-75 | over any history a module that passes under one definition passes under every later one of the hook |
| Output.ParseOutput | dataplane/internal/executor/output.go:46-85 | accepts exactly well-shaped outputs with fine effects, completes each in its place, and otherwise names the first bad effect and its rule |
| Output.ParsesMeaning | dataplane/internal/executor/output.go:46-85 | in the terms of what was decoded: exactly which outputs are invalid, which member of the first bad effect is to blame, and that each accepted effect keeps its type, its payload or {}, and its key or the default for its place |
| Output.AllowedGrow | dataplane/internal/executor/output.go:58-84 | allowing more effect types keeps every accepted output accepted with the identical result |
| Output.GrowthKeepsOutputs | control-plane/src/controlplane/hooks/service.py:63-75 | over any history an output accepted under one definition parses identically under every later one |
| Output.DefaultKeysDiffer | dataplane/internal/executor/output.go:77-80 | default keys of different effects differ |
| Output.KeysCollide | dataplane/internal/executor/output.go:42-45 | exactly when two effects of one call share a key |
| Output.GuessedKeyCollides | dataplane/internal/executor/output.go:77-80 | a chosen key can equal a default one |
| Schema.LeastIsLeast | dataplane/internal/schema/schema.go:91-102 | the rendered finding is a leaf's, and no leaf has a smaller pointer and message |
| Schema.LeavesMeaning | dataplane/internal/schema/schema.go:104-114 | the leaves are exactly the nodes of the tree, at any depth, that have no causes |
| Text.StringLeMeaning | dataplane/internal/schema/schema.go:93-99 | texts compare by the first character in which they differ, a prefix first |
| Schema.AnyArrangementWillDo | dataplane/internal/schema/schema.go:92-101 | whatever sorted arrangement of the leaf nodes an unstable sort leaves, the text is the same: the pointer and message of its first node |
| Schema.PermutedTally | dataplane/internal/schema/schema.go:106-114 | permuting causes at every node leaves the same findings |
| Schema.DetailIgnoresOrder | dataplane/internal/schema/schema.go:83-102 | trees equal up to permuting causes give the same detail |
| Schema.FirstCauseFlaps | dataplane/internal/schema/schema.go:83-90 | following the first cause instead would depend on that order |
| Schema.Cache.Get | dataplane/internal/schema/schema.go:139-148 | one caller at a time: compiles the first text under a key once and reuses the result |
| Schema.SchemaKeyIdentifies | dataplane/internal/config/config.go:58-63 | for hook names a schema key names one hook, version and kind |
| Schema.CacheServesOwnSchema | dataplane/internal/config/config.go:58-63 | a published definition is always checked against its own schema |
| SchemaCache.RunKeepsInv | dataplane/internal/schema/schema.go:126-148 | with any number of goroutines between LoadOrStore and sync.Once, an entry is compiled at most once, from a text some caller of its key gave |
| SchemaCache.CompiledOnce | dataplane/internal/schema/schema.go:139-148 | however many ask for a key at once, it is compiled at most once and all get the same schema |
| SchemaCache.ServedOwnSchema | dataplane/internal/executor/executor.go:246-246 | when the calls are those of published definitions, each is served its own definition's input or output schema, whoever won the race |
| Utf8.Cut | dataplane/internal/sandbox/extismrt/logbuf.go:54-57 | for any bytes the cut is the last place up to n where a character may start |
| Utf8.CutUtf8 | dataplane/internal/sandbox/extismrt/logbuf.go:50-58 | the loop finds that place, and nothing for n up to 0 |
| Utf8.Truncate | dataplane/internal/executor/output.go:93-102 | short texts stay, longer ones are cut there |
| Utf8.Boundaries | dataplane/internal/sandbox/extismrt/logbuf.go:54-56 | in valid UTF-8 the valid prefixes end exactly where a character starts or the text ends |
| Utf8.CutIsLongestValid | dataplane/internal/sandbox/extismrt/logbuf.go:48-58 | on valid UTF-8 the cut is the longest valid prefix within n bytes and gives up at most three |
| Utf8.TruncateIsLongestValid | dataplane/internal/executor/output.go:92-102 | truncation returns the longest valid prefix that fits |
| Utf8.ContinuationsVanish | dataplane/internal/sandbox/extismrt/logbuf.go:54-57 | on other bytes the loss is unbounded: a run of continuation bytes goes whole |
| LogBuffer.Buffer.Add | dataplane/internal/sandbox/extismrt/logbuf.go:24-41 | keeps a message that fits, cuts one that has too many bytes, and stops at either cap |
| LogBuffer.Buffer.Stop | dataplane/internal/sandbox/extismrt/logbuf.go:43-46 | appends one marker and ends the log |
| LogBuffer.Buffer.Take | dataplane/internal/sandbox/extismrt/logbuf.go:65-69 | returns the lines and leaves the buffer empty |
| LogBuffer.Buffer.Collect | dataplane/internal/sandbox/extismrt/logbuf.go:24-69 | a whole call's log is the described prefix, cut and marker |
| LogBuffer.FitCountIsMaximal | dataplane/internal/sandbox/extismrt/logbuf.go:13-15 | the kept messages are the longest prefix within both caps |
| LogBuffer.FirstOverflow | dataplane/internal/sandbox/extismrt/logbuf.go:24-46 | after any messages the lines are exactly that prefix, the cut of the first that did not fit and one marker; truncated exactly when not all fit |
| LogBuffer.WithinCaps | dataplane/internal/sandbox/extismrt/logbuf.go:13-22 | everything but the marker stays within maxLines and maxBytes, and the marker is single and last |
| LogBuffer.KeptStaysValid | dataplane/internal/sandbox/extismrt/logbuf.go:32-37 | logs of valid UTF-8 stay valid UTF-8 |

## Left out

- PoolManager.Manager.Acquire: states the run of one caller alone; interleavings with other goroutines are in `PoolSystem`, whose steps are the same regions.
- Pool entries are values in the map's lists, so sharing of one slice by two pools cannot be expressed; the in-place compaction itself is on an array.
- The reaper's ticker, `AcquireTimeout`, backoff sleeps and contexts are steps that may happen at any time; latency and fairness are not modelled.
- Poller.Run: covers the answers up to the end of its context; the random fraction of the ceiling that a backoff really waits is not modelled.
- Closing of instances and modules has no failures of its own; joined close errors are left out, as are panics inside a factory.
- HTTP, JSON text, authentication, S3, logging and metrics: fetched rows, decoded values and answers are inputs. A JSON value has the structure its decoder gives it, with exact real numbers for finite floats.
- Reprinting a float as an integer, as `jsonb` does to large ones, is not modelled: a column gives back the document that was put in.
- The JSON Schema library, Extism and wazero: a compile is a module, an invalid verdict or a failure; a call is an answer or an error; a schema's compile result depends on its text.
- SHA-256 is not modelled; content hashes and key hashes are texts of the declared format.
- `hooks/rules.py` beyond `normalized`, and `_storable` of `hooks/schemas.py`: the verdict of these checks is an input of hook creation and replacement.
- The order of rows that `ORDER BY` gives depends on the collation; reads are modelled for every order.
- Version columns and counters are unbounded integers; tenant limits beyond 32 bits are the failed insert that the database makes of them.
- The migrations' `flat_text_array` and `jsonb_string_values` checks hold by type: lists of texts, and configs from texts to texts.
- Validator.RunKeepsInv: is about one worker process over its own module rows; other writers meet module rows in `History`, where the same mark and verdict transactions commit beside every other service.
- LogBuffer.WithinCaps: tells the marker from a script's own warning with the same text by its constructor.
- SpecDigest.DurationInjective: covers timeouts below a minute, in whole milliseconds, which hook validation guarantees.
- A database restored from a backup, read replicas and development seeding lie outside the propagation protocol's assumptions.
- The shape of validation reports, the gateway's outcome table, HTTP status mapping beyond the service refusals, the web console, demos and end-to-end tooling add no state machine to these.
