/** Any number of callers, compile flights and Close calls over one executor:
    each lock-held region is one atomic step; fetching, compiling, waiting and
    closing modules happen between steps. */
module CompileSystem {
  import opened Basics
  import opened Tables
  import opened SpecDigest
  import opened Executor

  type Name = nat

  /** A flight runs the leader's function: recheck, fetch and compile, store. */
  datatype Stage = Started | Compiling | Holding(out: Compiled) | Returned(r: Result)

  datatype Flight = Flight(origin: Origin, stage: Stage)

  datatype At = Asked | Joining | Waiting(f: Name) | Answered(r: Result)

  datatype Caller = Caller(origin: Origin, at: At)

  /** active is the single-flight group.  home records what every module ever
      compiled was made from; stored counts results cached per key; closing
      holds modules that Close took out and has not closed yet, shut those it
      closed. */
  datatype Sys = Sys(cache: Cache,
                     active: map<string, Name>,
                     flights: map<Name, Flight>,
                     callers: map<Name, Caller>,
                     home: map<ModId, Origin>,
                     stored: multiset<ModKey>,
                     closing: multiset<ModId>,
                     shut: multiset<ModId>)

  const START := Sys(NEW_CACHE, map[], map[], map[], map[], multiset{}, multiset{}, multiset{})

  datatype Step =
    | Ask(c: Name, origin: Origin)
    | CheckCache(c: Name)
    | Join(c: Name, f: Name)
    | Recheck(f: Name)
    | FetchFails(f: Name)
    | Compile(f: Name, out: Compiled)
    | StoreResult(f: Name)
    | Land(f: Name)
    | Receive(c: Name)
    | Leave(c: Name)
    | CloseExecutor(order: seq<ModKey>)
    | CloseModule(id: ModId)

  /** Requests carry a module hash the configuration was accepted with, and a
      definition whose limits were validated. */
  predicate Sound(o: Origin) {
    IsModuleHash(o.hash) && Timed(o.spec)
  }

  function Key(o: Origin): ModKey
    requires Sound(o)
  {
    KeyOf(o.hash, o.spec)
  }

  predicate FlightIn(s: Sys, f: Name) {
    f in s.flights && Sound(s.flights[f].origin)
  }

  predicate CallerIn(s: Sys, c: Name) {
    c in s.callers && Sound(s.callers[c].origin)
  }

  ghost predicate Enabled(s: Sys, step: Step) {
    match step
    case Ask(c, origin) => c !in s.callers && Sound(origin)
    case CheckCache(c) => CallerIn(s, c) && s.callers[c].at.Asked?
    case Join(c, f) => CallerIn(s, c) && s.callers[c].at.Joining? && f !in s.flights
    case Recheck(f) => FlightIn(s, f) && s.flights[f].stage.Started?
    case FetchFails(f) => FlightIn(s, f) && s.flights[f].stage.Compiling?
    case Compile(f, out) => FlightIn(s, f) && s.flights[f].stage.Compiling? && CanCompile(s, s.flights[f].origin, out)
    case StoreResult(f) => FlightIn(s, f) && s.flights[f].stage.Holding?
    case Land(f) => FlightIn(s, f) && s.flights[f].stage.Returned?
    case Receive(c) => CallerIn(s, c) && s.callers[c].at.Waiting? && FlightIn(s, s.callers[c].at.f)
                       && s.flights[s.callers[c].at.f].stage.Returned?
    case Leave(c) => c in s.callers
    case CloseExecutor(order) => Lists(order, s.cache.modules.Keys)
    case CloseModule(id) => id in s.closing
  }

  /** The runtime answers about the bytes it was given, with a new module. */
  ghost predicate CanCompile(s: Sys, origin: Origin, out: Compiled) {
    match out
    case Made(id) => id !in s.home
    case Invalid(fault) => fault == InvalidModule(origin)
    case Broken => true
  }

  function WithStage(s: Sys, f: Name, stage: Stage): Sys
    requires f in s.flights
  {
    s.(flights := s.flights[f := s.flights[f].(stage := stage)])
  }

  function WithAt(s: Sys, c: Name, at: At): Sys
    requires c in s.callers
  {
    s.(callers := s.callers[c := s.callers[c].(at := at)])
  }

  ghost function Apply(s: Sys, step: Step): Sys
    requires Enabled(s, step)
  {
    match step
    case Ask(c, origin) => s.(callers := s.callers[c := Caller(origin, Asked)])
    case CheckCache(c) =>
      var known := Lookup(s.cache, Key(s.callers[c].origin));
      WithAt(s, c, if known.Some? then Answered(known.value) else Joining)
    case Join(c, f) => Joined(s, c, f)
    case Recheck(f) =>
      var known := Lookup(s.cache, Key(s.flights[f].origin));
      WithStage(s, f, if known.Some? then Returned(known.value) else Compiling)
    case FetchFails(f) => WithStage(s, f, Returned(FetchError))
    case Compile(f, out) =>
      WithStage(s, f, Holding(out)).(home := if out.Made? then s.home[out.id := s.flights[f].origin] else s.home)
    case StoreResult(f) => AfterStore(s, f)
    case Land(f) => Landed(s, f)
    case Receive(c) => WithAt(s, c, Answered(s.flights[s.callers[c].at.f].stage.r))
    case Leave(c) => s.(callers := s.callers - {c})
    case CloseExecutor(order) =>
      s.(cache := Emptied(s.cache), closing := s.closing + multiset(ModulesIn(s.cache.modules, order)))
    case CloseModule(id) => s.(closing := s.closing - multiset{id}, shut := s.shut + multiset{id})
  }

  /** DoChan: join the active flight of this name, or lead a new one. */
  ghost function Joined(s: Sys, c: Name, f: Name): Sys
    requires Enabled(s, Join(c, f))
  {
    var name := FlightName(Key(s.callers[c].origin));
    if name in s.active then WithAt(s, c, Waiting(s.active[name]))
    else WithAt(s, c, Waiting(f)).(active := s.active[name := f],
                                   flights := s.flights[f := Flight(s.callers[c].origin, Started)])
  }

  ghost function AfterStore(s: Sys, f: Name): Sys
    requires Enabled(s, StoreResult(f))
  {
    var key, out := Key(s.flights[f].origin), s.flights[f].stage.out;
    var (cache, r) := Stored(s.cache, key, out);
    WithStage(s, f, Returned(r)).(
      cache := cache,
      stored := if r.Module? || r.Faulty? then s.stored + multiset{key} else s.stored,
      shut := if r.ExecutorClosed? then s.shut + multiset{out.id} else s.shut)
  }

  /** The group forgets a finished flight. */
  ghost function Landed(s: Sys, f: Name): Sys
    requires Enabled(s, Land(f))
  {
    var name := FlightName(Key(s.flights[f].origin));
    if name in s.active && s.active[name] == f then s.(active := s.active - {name}) else s
  }

  ghost predicate StepAt(run: seq<Sys>, i: nat)
    requires i + 1 < |run|
  {
    exists step :: Enabled(run[i], step) && run[i + 1] == Apply(run[i], step)
  }

  ghost predicate IsRun(run: seq<Sys>) {
    && run != [] && run[0] == START
    && forall i :: 0 <= i < |run| - 1 ==> StepAt(run, i)
  }

  // ------------------------------------------------------------ invariants

  /** id was compiled for key. */
  ghost predicate MadeFor(home: map<ModId, Origin>, id: ModId, key: ModKey) {
    id in home && Sound(home[id]) && Key(home[id]) == key
  }

  ghost predicate FaultFor(fault: Fault, key: ModKey) {
    Sound(fault.origin) && Key(fault.origin) == key
  }

  ghost predicate ResultFor(home: map<ModId, Origin>, r: Result, key: ModKey) {
    && (r.Module? ==> MadeFor(home, r.id, key))
    && (r.Faulty? ==> FaultFor(r.fault, key))
  }

  /** What the cache holds under a key came from that key. */
  ghost predicate CacheGenuine(home: map<ModId, Origin>, c: Cache) {
    && (forall k :: k in c.modules ==> MadeFor(home, c.modules[k], k))
    && (forall k :: k in c.invalid ==> FaultFor(c.invalid[k], k))
  }

  ghost predicate FlightOk(home: map<ModId, Origin>, x: Flight) {
    && Sound(x.origin)
    && (Carries(x) ==> x.stage.out.id in home && home[x.stage.out.id] == x.origin)
    && (x.stage.Holding? && x.stage.out.Invalid? ==> x.stage.out.fault == InvalidModule(x.origin))
    && (x.stage.Returned? ==> ResultFor(home, x.stage.r, Key(x.origin)))
  }

  ghost predicate CallerOk(s: Sys, x: Caller) {
    && Sound(x.origin)
    && (x.at.Waiting? ==> FlightIn(s, x.at.f) && Key(s.flights[x.at.f].origin) == Key(x.origin))
    && (x.at.Answered? ==> ResultFor(s.home, x.at.r, Key(x.origin)))
  }

  ghost predicate Genuine(s: Sys) {
    && CacheGenuine(s.home, s.cache)
    && (forall f :: f in s.flights ==> FlightOk(s.home, s.flights[f]))
    && (forall c :: c in s.callers ==> CallerOk(s, s.callers[c]))
  }

  /** An unfinished flight is the active one of its key, and from its recheck
      to its end the cache has nothing under that key. */
  ghost predicate SingleFlight(s: Sys) {
    && (forall f :: f in s.flights ==> Leads(s, f))
    && (forall n :: n in s.active ==> FlightIn(s, s.active[n]) && FlightName(Key(s.flights[s.active[n]].origin)) == n)
  }

  ghost predicate Leads(s: Sys, f: Name)
    requires f in s.flights
  {
    var x := s.flights[f];
    && Sound(x.origin)
    && (!x.stage.Returned? ==> FlightName(Key(x.origin)) in s.active && s.active[FlightName(Key(x.origin))] == f)
    && (x.stage.Compiling? || x.stage.Holding? ==> Lookup(s.cache, Key(x.origin)) == None)
  }

  predicate Cached(c: Cache, k: ModKey) {
    k in c.modules || k in c.invalid
  }

  /** One cached result per key: no key is both good and bad, and until Close
      each result was stored exactly once. */
  ghost predicate OncePerKey(s: Sys) {
    && s.cache.modules.Keys !! s.cache.invalid.Keys
    && (!s.cache.closed ==> forall k :: s.stored[k] == if Cached(s.cache, k) then 1 else 0)
    && (s.cache.closed ==> s.cache.modules == map[])
    && (!s.cache.closed ==> s.closing == multiset{} && s.shut == multiset{})
  }

  ghost predicate InModules(modules: map<ModKey, ModId>, id: ModId) {
    exists k :: k in modules && modules[k] == id
  }

  /** The flight has a module in hand that is not cached yet. */
  predicate Carries(x: Flight) {
    x.stage.Holding? && x.stage.out.Made?
  }

  predicate SameCargo(x: Flight, y: Flight) {
    Carries(x) && x.stage == y.stage
  }

  ghost predicate InHand(flights: map<Name, Flight>, id: ModId) {
    exists f :: f in flights && flights[f].stage == Holding(Made(id))
  }

  /** How many places hold a module: the cache, a flight about to store it, a
      Close call about to close it, and the closes done. */
  ghost function Places(s: Sys, id: ModId): nat {
    (if InModules(s.cache.modules, id) then 1 else 0) + (if InHand(s.flights, id) then 1 else 0) + s.closing[id] + s.shut[id]
  }

  ghost predicate Conserved(s: Sys) {
    && (forall id :: Places(s, id) == if id in s.home then 1 else 0)
    && (forall k, l :: k in s.cache.modules && l in s.cache.modules && s.cache.modules[k] == s.cache.modules[l] ==> k == l)
    && (forall f, g :: f in s.flights && g in s.flights && SameCargo(s.flights[f], s.flights[g]) ==> f == g)
  }

  ghost predicate Inv(s: Sys) {
    Genuine(s) && SingleFlight(s) && OncePerKey(s) && Conserved(s)
  }

  // ---------------------------------------------------- provenance is kept

  lemma CompileKeepsGenuine(s: Sys, f: Name, out: Compiled)
    requires Genuine(s) && Enabled(s, Compile(f, out))
    ensures Genuine(Apply(s, Compile(f, out)))
  {
    var s' := Apply(s, Compile(f, out));
    forall k | k in s'.cache.modules ensures MadeFor(s'.home, s'.cache.modules[k], k) {
      assert MadeFor(s.home, s.cache.modules[k], k);
    }
    forall g | g in s'.flights ensures FlightOk(s'.home, s'.flights[g]) {
      assert FlightOk(s.home, s.flights[g]);
    }
    forall c | c in s'.callers ensures CallerOk(s', s'.callers[c]) {
      assert CallerOk(s, s.callers[c]);
    }
  }

  /** Steps that compile nothing leave provenance to one flight or caller. */
  lemma FlightKeepsGenuine(s: Sys, s': Sys, f: Name, stage: Stage)
    requires Genuine(s) && FlightIn(s, f)
    requires s'.flights == s.flights[f := s.flights[f].(stage := stage)]
    requires s'.callers == s.callers && s'.home == s.home && CacheGenuine(s.home, s'.cache)
    requires FlightOk(s.home, s.flights[f].(stage := stage))
    ensures Genuine(s')
  {
  }

  lemma CallerKeepsGenuine(s: Sys, s': Sys, c: Name, x: Caller)
    requires Genuine(s) && s'.callers == s.callers[c := x]
    requires s'.flights == s.flights && s'.home == s.home && s'.cache == s.cache
    requires CallerOk(s, x)
    ensures Genuine(s')
  {
  }

  /** Joining an active flight: one name, one key. */
  lemma FollowKeepsGenuine(s: Sys, c: Name, f: Name)
    requires Genuine(s) && SingleFlight(s) && Enabled(s, Join(c, f))
    requires FlightName(Key(s.callers[c].origin)) in s.active
    ensures Genuine(Joined(s, c, f))
  {
    var x := s.callers[c];
    var lead := s.active[FlightName(Key(x.origin))];
    FlightNameIdentifies(Key(s.flights[lead].origin), Key(x.origin));
    CallerKeepsGenuine(s, Joined(s, c, f), c, x.(at := Waiting(lead)));
  }

  lemma LeadKeepsGenuine(s: Sys, c: Name, f: Name)
    requires Genuine(s) && Enabled(s, Join(c, f)) && FlightName(Key(s.callers[c].origin)) !in s.active
    ensures Genuine(Joined(s, c, f))
  {
    var s' := Joined(s, c, f);
    forall d | d in s'.callers ensures CallerOk(s', s'.callers[d]) {
      assert CallerOk(s, s.callers[d]);
    }
  }

  lemma StoredGenuine(home: map<ModId, Origin>, c: Cache, origin: Origin, out: Compiled)
    requires CacheGenuine(home, c) && FlightOk(home, Flight(origin, Holding(out)))
    ensures CacheGenuine(home, Stored(c, Key(origin), out).0)
    ensures ResultFor(home, Stored(c, Key(origin), out).1, Key(origin))
  {
  }

  lemma StoreKeepsGenuine(s: Sys, f: Name)
    requires Genuine(s) && Enabled(s, StoreResult(f))
    ensures Genuine(AfterStore(s, f))
  {
    var s', x := AfterStore(s, f), s.flights[f];
    assert FlightOk(s.home, x);
    StoredGenuine(s.home, s.cache, x.origin, x.stage.out);
    FlightKeepsGenuine(s, s', f, s'.flights[f].stage);
  }

  lemma RecheckKeepsGenuine(s: Sys, f: Name)
    requires Genuine(s) && Enabled(s, Recheck(f))
    ensures Genuine(Apply(s, Recheck(f)))
  {
  }

  lemma CallerStepKeepsGenuine(s: Sys, step: Step)
    requires Genuine(s) && Enabled(s, step) && (step.Ask? || step.CheckCache? || step.Receive?)
    ensures Genuine(Apply(s, step))
  {
  }

  lemma AdvanceKeepsGenuine(s: Sys, step: Step)
    requires Genuine(s) && Enabled(s, step) && Advances(step)
    ensures Genuine(Apply(s, step))
  {
    match step
    case Recheck(f) => RecheckKeepsGenuine(s, f);
    case FetchFails(f) => FlightKeepsGenuine(s, Apply(s, step), f, Returned(FetchError));
    case Compile(f, out) => CompileKeepsGenuine(s, f, out);
    case StoreResult(f) => StoreKeepsGenuine(s, f);
  }

  lemma StepKeepsGenuine(s: Sys, step: Step)
    requires Genuine(s) && SingleFlight(s) && Enabled(s, step)
    ensures Genuine(Apply(s, step))
  {
    if step.Ask? || step.CheckCache? || step.Receive? {
      CallerStepKeepsGenuine(s, step);
    } else if Advances(step) {
      AdvanceKeepsGenuine(s, step);
    } else if step.Join? {
      if FlightName(Key(s.callers[step.c].origin)) in s.active {
        FollowKeepsGenuine(s, step.c, step.f);
      } else {
        LeadKeepsGenuine(s, step.c, step.f);
      }
    } else {
      CallersUntouched(s, Apply(s, step));
    }
  }

  lemma CallersUntouched(s: Sys, s': Sys)
    requires Genuine(s) && s'.flights == s.flights && s'.home == s.home
    requires forall c :: c in s'.callers ==> c in s.callers && s'.callers[c] == s.callers[c]
    requires forall k :: k in s'.cache.modules ==> k in s.cache.modules && s'.cache.modules[k] == s.cache.modules[k]
    requires s'.cache.invalid == s.cache.invalid
    ensures Genuine(s')
  {
  }

  // -------------------------------------------------- single flight is kept

  /** Two unfinished flights of one key are one flight. */
  lemma OneFlight(s: Sys, f: Name, g: Name)
    requires SingleFlight(s) && FlightIn(s, f) && FlightIn(s, g)
    requires !s.flights[f].stage.Returned? && !s.flights[g].stage.Returned?
    requires Key(s.flights[f].origin) == Key(s.flights[g].origin)
    ensures f == g
  {
  }

  /** A step that neither starts nor lands a flight, and caches only under the
      key of the flight it finishes. */
  lemma StageKeepsSingleFlight(s: Sys, s': Sys, f: Name, stage: Stage)
    requires SingleFlight(s) && FlightIn(s, f) && !s.flights[f].stage.Returned?
    requires s'.flights == s.flights[f := s.flights[f].(stage := stage)] && s'.active == s.active
    requires forall k :: k != Key(s.flights[f].origin) ==> Lookup(s'.cache, k) == Lookup(s.cache, k)
    requires stage.Compiling? || stage.Holding? ==> Lookup(s'.cache, Key(s.flights[f].origin)) == None
    ensures SingleFlight(s')
  {
    forall g | g in s'.flights ensures Leads(s', g) {
      assert Leads(s, g) && Leads(s, f);
      if g != f && !s.flights[g].stage.Returned? && Key(s.flights[g].origin) == Key(s.flights[f].origin) {
        OneFlight(s, f, g);
      }
    }
  }

  lemma JoinKeepsSingleFlight(s: Sys, c: Name, f: Name)
    requires SingleFlight(s) && Enabled(s, Join(c, f))
    ensures SingleFlight(Joined(s, c, f))
  {
    var s' := Joined(s, c, f);
    forall g | g in s'.flights ensures Leads(s', g) {
      assert g in s.flights ==> Leads(s, g);
    }
  }

  lemma LandKeepsLeads(s: Sys, f: Name, g: Name)
    requires Enabled(s, Land(f)) && g in s.flights && Leads(s, g)
    ensures Leads(Landed(s, f), g)
  {
    if !s.flights[g].stage.Returned? {
      assert g != f;
    }
  }

  lemma LandKeepsSingleFlight(s: Sys, f: Name)
    requires SingleFlight(s) && Enabled(s, Land(f))
    ensures SingleFlight(Landed(s, f))
  {
    forall g | g in s.flights ensures Leads(Landed(s, f), g) {
      LandKeepsLeads(s, f, g);
    }
  }

  /** Recheck, FetchFails, Compile and StoreResult move one flight on. */
  predicate Advances(step: Step) {
    step.Recheck? || step.FetchFails? || step.Compile? || step.StoreResult?
  }

  lemma AdvanceKeepsSingleFlight(s: Sys, step: Step)
    requires SingleFlight(s) && Enabled(s, step) && Advances(step)
    ensures SingleFlight(Apply(s, step))
  {
    var s' := Apply(s, step);
    assert Leads(s, step.f);
    StageKeepsSingleFlight(s, s', step.f, s'.flights[step.f].stage);
  }

  lemma StepKeepsSingleFlight(s: Sys, step: Step)
    requires SingleFlight(s) && Enabled(s, step)
    ensures SingleFlight(Apply(s, step))
  {
    if step.Join? {
      JoinKeepsSingleFlight(s, step.c, step.f);
    } else if step.Land? {
      LandKeepsSingleFlight(s, step.f);
    } else if Advances(step) {
      AdvanceKeepsSingleFlight(s, step);
    } else {
      LeadersUntouched(s, Apply(s, step));
    }
  }

  lemma LeadersUntouched(s: Sys, s': Sys)
    requires SingleFlight(s) && s'.flights == s.flights && s'.active == s.active
    requires s'.cache == s.cache || s'.cache == Emptied(s.cache)
    ensures SingleFlight(s')
  {
  }

  // --------------------------------------------- one result per key is kept

  lemma StoreKeepsOncePerKey(s: Sys, f: Name)
    requires OncePerKey(s) && SingleFlight(s) && Enabled(s, StoreResult(f))
    ensures OncePerKey(AfterStore(s, f))
  {
    assert Leads(s, f);
    var s', key := AfterStore(s, f), Key(s.flights[f].origin);
    assert !Cached(s.cache, key);
    assert forall k :: k != key ==> (Cached(s'.cache, k) <==> Cached(s.cache, k));
  }

  lemma StepKeepsOncePerKey(s: Sys, step: Step)
    requires OncePerKey(s) && SingleFlight(s) && Enabled(s, step)
    ensures OncePerKey(Apply(s, step))
  {
    if step.StoreResult? {
      StoreKeepsOncePerKey(s, step.f);
    } else if step.Join? {
      assert Joined(s, step.c, step.f).cache == s.cache;
    }
  }

  // --------------------------------------------------- conservation is kept

  /** Stage changes that neither take nor give up a module. */
  lemma HandsUntouched(s: Sys, s': Sys, f: Name)
    requires f in s.flights && s'.flights.Keys == s.flights.Keys
    requires forall g :: g in s.flights && g != f ==> s'.flights[g] == s.flights[g]
    requires !Carries(s.flights[f])
    requires !Carries(s'.flights[f])
    requires s'.cache.modules == s.cache.modules && s'.closing == s.closing && s'.shut == s.shut && s'.home == s.home
    requires Conserved(s)
    ensures Conserved(s')
  {
  }

  lemma HandAfterMade(s: Sys, f: Name, id: ModId, j: ModId)
    requires Enabled(s, Compile(f, Made(id)))
    ensures InHand(Apply(s, Compile(f, Made(id))).flights, j) <==> InHand(s.flights, j) || j == id
  {
    var s' := Apply(s, Compile(f, Made(id)));
    assert s'.flights[f].stage == Holding(Made(id));
    if InHand(s.flights, j) {
      var g :| g in s.flights && s.flights[g].stage == Holding(Made(j));
      assert s'.flights[g].stage == Holding(Made(j));
    }
  }

  lemma MadeKeepsConserved(s: Sys, f: Name, id: ModId)
    requires Conserved(s) && Enabled(s, Compile(f, Made(id)))
    ensures Conserved(Apply(s, Compile(f, Made(id))))
  {
    var s' := Apply(s, Compile(f, Made(id)));
    assert Places(s, id) == 0;
    forall j ensures Places(s', j) == if j in s'.home then 1 else 0 {
      HandAfterMade(s, f, id, j);
      assert Places(s, j) == if j in s.home then 1 else 0;
    }
    assert forall g :: g in s.flights ==> s.flights[g].stage != Holding(Made(id));
  }

  /** What a flight carries is nowhere else. */
  lemma CarriedIsApart(s: Sys, f: Name)
    requires Conserved(s) && f in s.flights && Carries(s.flights[f])
    ensures var id := s.flights[f].stage.out.id;
      Places(s, id) == 1 && !InModules(s.cache.modules, id) && s.closing[id] == 0 && s.shut[id] == 0
  {
  }

  lemma HandAfterStore(s: Sys, f: Name, j: ModId)
    requires Conserved(s) && Enabled(s, StoreResult(f)) && Carries(s.flights[f])
    ensures InHand(AfterStore(s, f).flights, j) <==> InHand(s.flights, j) && j != s.flights[f].stage.out.id
  {
    var s' := AfterStore(s, f);
    if InHand(s.flights, j) {
      var g :| g in s.flights && s.flights[g].stage == Holding(Made(j));
      if j != s.flights[f].stage.out.id {
        assert s'.flights[g].stage == Holding(Made(j));
      }
    }
  }

  lemma InModulesAfter(modules: map<ModKey, ModId>, key: ModKey, id: ModId, j: ModId)
    requires key !in modules
    ensures InModules(modules[key := id], j) <==> InModules(modules, j) || j == id
  {
    if InModules(modules, j) {
      var k :| k in modules && modules[k] == j;
      assert modules[key := id][k] == j;
    }
    assert modules[key := id][key] == id;
  }

  lemma StoredModuleKeepsPlaces(s: Sys, f: Name, j: ModId)
    requires Conserved(s) && SingleFlight(s) && Enabled(s, StoreResult(f)) && Carries(s.flights[f])
    ensures Places(AfterStore(s, f), j) == Places(s, j)
  {
    var id, key := s.flights[f].stage.out.id, Key(s.flights[f].origin);
    assert Leads(s, f);
    CarriedIsApart(s, f);
    HandAfterStore(s, f, j);
    InModulesAfter(s.cache.modules, key, id, j);
  }

  lemma StoredModuleKeepsApart(s: Sys, f: Name)
    requires Conserved(s) && Enabled(s, StoreResult(f)) && Carries(s.flights[f])
    ensures var s' := AfterStore(s, f);
      && (forall k, l :: k in s'.cache.modules && l in s'.cache.modules && s'.cache.modules[k] == s'.cache.modules[l] ==> k == l)
      && (forall g, h :: g in s'.flights && h in s'.flights && SameCargo(s'.flights[g], s'.flights[h]) ==> g == h)
  {
    CarriedIsApart(s, f);
    assert forall k :: k in s.cache.modules ==> s.cache.modules[k] != s.flights[f].stage.out.id;
  }

  lemma StoredModuleKeepsConserved(s: Sys, f: Name)
    requires Conserved(s) && SingleFlight(s) && Enabled(s, StoreResult(f)) && Carries(s.flights[f])
    ensures Conserved(AfterStore(s, f))
  {
    var s' := AfterStore(s, f);
    forall j ensures Places(s', j) == Places(s, j) {
      StoredModuleKeepsPlaces(s, f, j);
    }
    StoredModuleKeepsApart(s, f);
  }

  /** The modules Close takes out, each once. */
  lemma {:induction false} VictimsCounted(modules: map<ModKey, ModId>, order: seq<ModKey>, id: ModId)
    requires forall i, j :: 0 <= i < j < |order| ==> order[i] != order[j]
    requires forall k :: k in order ==> k in modules
    requires forall k, l :: k in modules && l in modules && modules[k] == modules[l] ==> k == l
    ensures multiset(ModulesIn(modules, order))[id] == if (exists k :: k in order && modules[k] == id) then 1 else 0
  {
    if order != [] {
      var n := |order| - 1;
      assert order == order[..n] + [order[n]];
      VictimsCounted(modules, order[..n], id);
      assert ModulesIn(modules, order) == ModulesIn(modules, order[..n]) + [modules[order[n]]];
      assert order[n] !in order[..n];
      assert forall k :: k in order <==> k in order[..n] || k == order[n];
      if modules[order[n]] == id {
        assert order[n] in order;
      }
    }
  }

  lemma CloseKeepsConserved(s: Sys, order: seq<ModKey>)
    requires Conserved(s) && Enabled(s, CloseExecutor(order))
    ensures Conserved(Apply(s, CloseExecutor(order)))
  {
    var s' := Apply(s, CloseExecutor(order));
    forall id ensures Places(s', id) == Places(s, id) {
      VictimsCounted(s.cache.modules, order, id);
      assert InModules(s.cache.modules, id) <==> exists k :: k in order && s.cache.modules[k] == id;
    }
  }

  lemma JoinKeepsConserved(s: Sys, c: Name, f: Name)
    requires Conserved(s) && Enabled(s, Join(c, f))
    ensures Conserved(Joined(s, c, f))
  {
    var s' := Joined(s, c, f);
    forall id ensures Places(s', id) == Places(s, id) {
      if InHand(s.flights, id) {
        var g :| g in s.flights && s.flights[g].stage == Holding(Made(id));
        assert s'.flights[g].stage == Holding(Made(id));
      }
    }
  }

  lemma MovelessKeepsConserved(s: Sys, step: Step)
    requires Conserved(s) && Enabled(s, step) && Advances(step)
    requires !(step.Compile? && step.out.Made?) && !(step.StoreResult? && Carries(s.flights[step.f]))
    ensures Conserved(Apply(s, step))
  {
    HandsUntouched(s, Apply(s, step), step.f);
  }

  lemma AdvanceKeepsConserved(s: Sys, step: Step)
    requires Conserved(s) && SingleFlight(s) && Enabled(s, step) && Advances(step)
    ensures Conserved(Apply(s, step))
  {
    if step.Compile? && step.out.Made? {
      MadeKeepsConserved(s, step.f, step.out.id);
    } else if step.StoreResult? && Carries(s.flights[step.f]) {
      StoredModuleKeepsConserved(s, step.f);
    } else {
      MovelessKeepsConserved(s, step);
    }
  }

  lemma StepKeepsConserved(s: Sys, step: Step)
    requires Conserved(s) && SingleFlight(s) && Enabled(s, step)
    ensures Conserved(Apply(s, step))
  {
    var s' := Apply(s, step);
    if Advances(step) {
      AdvanceKeepsConserved(s, step);
    } else if step.Join? {
      JoinKeepsConserved(s, step.c, step.f);
    } else if step.CloseExecutor? {
      CloseKeepsConserved(s, step.order);
    } else {
      forall id ensures Places(s', id) == Places(s, id) {
      }
    }
  }

  // ---------------------------------------------------------------- results

  lemma StepKeepsInv(s: Sys, step: Step)
    requires Inv(s) && Enabled(s, step)
    ensures Inv(Apply(s, step))
  {
    StepKeepsGenuine(s, step);
    StepKeepsSingleFlight(s, step);
    StepKeepsOncePerKey(s, step);
    StepKeepsConserved(s, step);
  }

  lemma {:induction false} RunKeepsInv(run: seq<Sys>, n: nat)
    requires IsRun(run) && n < |run|
    ensures Inv(run[n])
  {
    if n > 0 {
      RunKeepsInv(run, n - 1);
      assert StepAt(run, n - 1);
      var step :| Enabled(run[n - 1], step) && run[n] == Apply(run[n - 1], step);
      StepKeepsInv(run[n - 1], step);
    }
  }

  /** What a result was compiled from, if it says anything about a module. */
  function SourceOf(home: map<ModId, Origin>, r: Result): Option<Origin> {
    if r.Faulty? then Some(r.fault.origin)
    else if r.Module? && r.id in home then Some(home[r.id])
    else None
  }

  /** Whoever compiled it and whenever, a caller gets a module made from its
      own bytes under its own spec, or the verdict on exactly those.  Specs
      count as its own by their digest; for plain function names that is the
      spec itself, up to the order of the list. */
  lemma CallersGetTheirOwn(run: seq<Sys>, n: nat, c: Name)
    requires IsRun(run) && n < |run| && c in run[n].callers && run[n].callers[c].at.Answered?
    ensures var x := run[n].callers[c];
      var source := SourceOf(run[n].home, x.at.r);
      && (x.at.r.Module? || x.at.r.Faulty? ==> source.Some?)
      && (source.Some? ==>
            Sound(source.value) && Sound(x.origin) && Key(source.value) == Key(x.origin)
            && source.value.hash == x.origin.hash
            && (PlainNames(source.value.spec) && PlainNames(x.origin.spec) ==> SameSpec(source.value.spec, x.origin.spec)))
  {
    RunKeepsInv(run, n);
    var s, x := run[n], run[n].callers[c];
    assert CallerOk(s, x);
    var source := SourceOf(s.home, x.at.r);
    if source.Some? && PlainNames(source.value.spec) && PlainNames(x.origin.spec) {
      DigestIdentifies(source.value.spec, x.origin.spec);
    }
  }

  predicate CompilesFor(s: Sys, f: Name, k: ModKey) {
    FlightIn(s, f) && s.flights[f].stage.Compiling? && Key(s.flights[f].origin) == k
  }

  /** One compile per key at a time, one cached result per key before Close,
      and never a module and an invalid verdict under one key. */
  lemma CompilesOnce(run: seq<Sys>, n: nat, f: Name, g: Name, k: ModKey)
    requires IsRun(run) && n < |run|
    ensures CompilesFor(run[n], f, k) && CompilesFor(run[n], g, k) ==> f == g
    ensures !run[n].cache.closed ==> run[n].stored[k] <= 1
    ensures !(k in run[n].cache.modules && k in run[n].cache.invalid)
  {
    RunKeepsInv(run, n);
    if f in run[n].flights && g in run[n].flights {
      assert Leads(run[n], f) && Leads(run[n], g);
    }
  }

  /** No caller is handed a closed module before Close, and after Close, once
      the flights have returned and its closes have run, every module ever
      compiled has been closed exactly once. */
  lemma NothingOutlivesClose(run: seq<Sys>, n: nat)
    requires IsRun(run) && n < |run|
    ensures !run[n].cache.closed ==> run[n].shut == multiset{}
    ensures run[n].cache.closed && run[n].closing == multiset{}
      && (forall f :: f in run[n].flights ==> !Carries(run[n].flights[f]))
      ==> forall id :: run[n].shut[id] == if id in run[n].home then 1 else 0
    ensures forall id :: run[n].shut[id] <= 1
  {
    RunKeepsInv(run, n);
    var s := run[n];
    forall id ensures s.shut[id] <= 1 {
      assert Places(s, id) <= 1;
    }
    if s.cache.closed && s.closing == multiset{} && (forall f :: f in s.flights ==> !Carries(s.flights[f])) {
      forall id ensures s.shut[id] == if id in s.home then 1 else 0 {
        assert !InHand(s.flights, id) && !InModules(s.cache.modules, id);
        assert Places(s, id) == s.shut[id];
      }
    }
  }

  /** A flight that landed is forgotten, and it alone: whoever asks for its key
      next is never handed its result, so a failure is tried again. */
  lemma LandedIsForgotten(run: seq<Sys>, n: nat, f: Name)
    requires IsRun(run) && n < |run| && Enabled(run[n], Land(f))
    ensures var s, t := run[n], Apply(run[n], Land(f));
      && t == s.(active := t.active)
      && (forall m :: m in t.active <==> m in s.active && s.active[m] != f)
      && (forall m :: m in t.active ==> t.active[m] == s.active[m])
    ensures var t := Apply(run[n], Land(f));
      forall c, g :: Enabled(t, Join(c, g)) ==> Apply(t, Join(c, g)).callers[c].at != Waiting(f)
  {
    RunKeepsInv(run, n);
    LandForgets(run[n], f);
  }

  lemma LandForgets(s: Sys, f: Name)
    requires SingleFlight(s) && Enabled(s, Land(f))
    ensures var t := Landed(s, f);
      && t == s.(active := t.active)
      && (forall m :: m in t.active <==> m in s.active && s.active[m] != f)
      && (forall m :: m in t.active ==> t.active[m] == s.active[m])
  {
  }
}
