/** control-plane/src/controlplane/modules: uploads, the single validation
    worker, and what crashes and restarts of its process can and cannot lose. */
module Validator {
  import opened Basics
  import opened Tables
  import opened Services
  import opened Paths
  import History

  predicate Undecided(m: ModuleRow) {
    m.status == Uploaded || m.status == Validating
  }

  /** list_pending_module_ids. */
  function PendingIds(modules: map<Uuid, ModuleRow>): set<Uuid> {
    set id | id in modules && Undecided(modules[id])
  }

  // ---------------------------------------------------------- the worker

  datatype Answer = Unavailable | Refuses | Answers(report: Report)

  class ModuleValidator {
    const db: ControlPlane
    var queue: seq<Uuid>

    constructor (db: ControlPlane)
      ensures this.db == db && queue == []
    {
      this.db, queue := db, [];
    }

    method Enqueue(id: Uuid)
      modifies this
      ensures queue == old(queue) + [id]
    {
      queue := queue + [id];
    }

    /** ModuleService.upload, from its transaction on. */
    method Upload(id: Uuid, tenant: Uuid, hook: Uuid, contentHash: string, size: int) returns (r: Outcome)
      modifies this, db
      ensures (db.Abs(), r) == InsertModule(old(db.Abs()), id, tenant, hook, contentHash, size)
      ensures queue == if r == Done then old(queue) + [id] else old(queue)
    {
      r := db.ModuleInsert(id, tenant, hook, contentHash, size);
      if r == Done {
        Enqueue(id);
      }
    }

    /** _recover_pending, once a read succeeded with these rows. */
    method RecoverPending(pending: seq<Uuid>)
      requires Lists(pending, PendingIds(db.modules))
      modifies this
      ensures queue == old(queue) + pending
      ensures forall id :: id in PendingIds(db.modules) ==> id in queue
    {
      for i := 0 to |pending|
        invariant queue == old(queue) + pending[..i]
      {
        Enqueue(pending[i]);
      }
    }

    /** _validate_until_answer: a module that is not pending is left alone; for
        a pending one, ask until the data plane answers and write its verdict.
        The answers end where the worker is cancelled. */
    method ValidateUntilAnswer(id: Uuid, answers: seq<Answer>) returns (attempt: nat)
      modifies db
      ensures id !in old(db.modules) || !Undecided(old(db.modules)[id]) ==> db.Abs() == old(db.Abs()) && attempt == 0
      ensures id in old(db.modules) && Undecided(old(db.modules)[id]) ==>
        attempt <= |answers| && (forall i :: 0 <= i < attempt ==> !answers[i].Answers?)
      ensures id in old(db.modules) && Undecided(old(db.modules)[id]) ==>
        if attempt < |answers|
        then answers[attempt].Answers? && db.Abs() == Decided(old(db.Abs()), id, answers[attempt].report)
        else db.Abs() == MarkValidating(old(db.Abs()), id)
    {
      attempt := 0;
      if id !in db.modules || !Undecided(db.modules[id]) {
        return;
      }
      db.ModuleMark(id);
      while attempt < |answers| && !answers[attempt].Answers?
        invariant attempt <= |answers| && (forall i :: 0 <= i < attempt ==> !answers[i].Answers?)
      {
        attempt := attempt + 1;
      }
      if attempt < |answers| {
        db.ModuleJudge(id, answers[attempt].report);
      }
    }
  }

  /** Both transactions of one validation. */
  function Decided(d: DB, id: Uuid, r: Report): DB {
    FinishValidation(MarkValidating(d, id), id, r)
  }

  /** A pending module ends with the verdict of the report, whichever of the
      two pending states it was in; a decided one is not decided again. */
  lemma DecidedMeaning(d: DB, id: Uuid, r: Report)
    requires id in d.modules
    ensures var m := Decided(d, id, r).modules[id];
      if Undecided(d.modules[id])
      then m == d.modules[id].(status := if r.ok then Validated else Rejected, report := Some(r))
      else m == d.modules[id]
    ensures Decided(d, id, r) == d.(modules := d.modules[id := Decided(d, id, r).modules[id]])
  {
  }

  // ------------------------------------------------ crashes and restarts

  /** Down: no process.  Listed: the recovery query answered, nothing queued
      yet.  Requeueing: an exception was caught and the worker sleeps. */
  datatype Worker =
    | Down
    | Recovering
    | Listed(pending: seq<Uuid>)
    | Idle
    | Fetched(id: Uuid)
    | Asking(id: Uuid)
    | Verdict(id: Uuid, report: Report)
    | Requeueing(id: Uuid)

  /** inserted holds uploads that committed a row and have not queued it yet;
      stranded the modules lost by a cancel at exactly that point, until a
      recovery lists them.  writes counts the verdicts written per module. */
  datatype Sys = Sys(modules: map<Uuid, ModuleRow>, queue: seq<Uuid>, worker: Worker,
                     inserted: set<Uuid>, stranded: set<Uuid>, writes: multiset<Uuid>)

  const START := Sys(map[], [], Down, {}, {}, multiset{})

  /** failed: the transaction committed but the worker saw an exception. */
  datatype Step =
    | Begin
    | ListFails
    | ListPending(pending: seq<Uuid>)
    | QueueListed
    | Insert(id: Uuid, row: ModuleRow)
    | EnqueueUpload(id: Uuid)
    | CancelUpload(id: Uuid)
    | Take
    | Mark(failed: bool)
    | TryAgain
    | Answered(report: Report)
    | Finish(failed: bool)
    | Throw
    | Requeue
    | Crash

  predicate Works(w: Worker) {
    w.Fetched? || w.Asking? || w.Verdict?
  }

  ghost predicate Enabled(s: Sys, step: Step) {
    match step
    case Begin => s.worker.Down?
    case ListFails => s.worker.Recovering?
    case ListPending(pending) => s.worker.Recovering? && Lists(pending, PendingIds(s.modules))
    case QueueListed => s.worker.Listed?
    case Insert(id, row) => !s.worker.Down? && id !in s.modules && row.status == Uploaded && row.report == None
    case EnqueueUpload(id) => id in s.inserted
    case CancelUpload(id) => id in s.inserted
    case Take => s.worker.Idle? && s.queue != []
    case Mark(_) => s.worker.Fetched?
    case TryAgain => s.worker.Asking?
    case Answered(_) => s.worker.Asking?
    case Finish(_) => s.worker.Verdict?
    case Throw => Works(s.worker)
    case Requeue => s.worker.Requeueing?
    case Crash => !s.worker.Down?
  }

  ghost function Apply(s: Sys, step: Step): Sys
    requires Enabled(s, step)
  {
    match step
    case Begin => s.(worker := Recovering)
    case ListFails => s
    case ListPending(pending) => s.(worker := Listed(pending), stranded := {})
    case QueueListed => s.(queue := s.queue + s.worker.pending, worker := Idle)
    case Insert(id, row) => s.(modules := s.modules[id := row], inserted := s.inserted + {id})
    case EnqueueUpload(id) => s.(queue := s.queue + [id], inserted := s.inserted - {id})
    case CancelUpload(id) =>
      s.(inserted := s.inserted - {id}, stranded := if Loses(s, id) then s.stranded + {id} else s.stranded)
    case Take => s.(queue := s.queue[1..], worker := Fetched(s.queue[0]))
    case Mark(failed) => AfterMark(s, failed)
    case TryAgain => s
    case Answered(report) => s.(worker := Verdict(s.worker.id, report))
    case Finish(failed) => AfterFinish(s, failed)
    case Throw => s.(worker := Requeueing(s.worker.id))
    case Requeue => s.(queue := s.queue + [s.worker.id], worker := Idle)
    case Crash => s.(queue := [], worker := Down, inserted := {}, stranded := {})
  }

  /** Cancelling the upload of id now would lose it: nobody else has it, neither
      the queue nor the worker, which a recovery may have given it to. */
  predicate Loses(s: Sys, id: Uuid) {
    id in s.modules && Undecided(s.modules[id]) && id !in s.queue && !HeldByWorker(s.worker, id)
  }

  predicate HeldByWorker(w: Worker, id: Uuid) {
    match w
    case Listed(pending) => id in pending
    case Fetched(x) => x == id
    case Asking(x) => x == id
    case Verdict(x, _) => x == id
    case Requeueing(x) => x == id
    case _ => false
  }

  ghost predicate Goes(s: Sys, step: Step, t: Sys) {
    Enabled(s, step) && t == Apply(s, step)
  }

  function AfterMark(s: Sys, failed: bool): Sys
    requires s.worker.Fetched?
  {
    var id := s.worker.id;
    if id !in s.modules || !Undecided(s.modules[id])
    then s.(worker := if failed then Requeueing(id) else Idle)
    else s.(modules := s.modules[id := Marked(s.modules[id])], worker := if failed then Requeueing(id) else Asking(id))
  }

  function AfterFinish(s: Sys, failed: bool): Sys
    requires s.worker.Verdict?
  {
    var id, next := s.worker.id, if failed then Requeueing(s.worker.id) else Idle;
    if id in s.modules && s.modules[id].status == Validating
    then s.(modules := s.modules[id := Judged(s.modules[id], s.worker.report)],
            worker := next, writes := s.writes + multiset{id})
    else s.(worker := next)
  }

  ghost predicate StepAt(run: seq<Sys>, i: nat)
    requires i + 1 < |run|
  {
    exists step :: Enabled(run[i], step) && run[i + 1] == Apply(run[i], step)
  }

  ghost predicate IsRun(run: seq<Sys>) {
    && run != [] && run[0] == START
    && forall i :: 0 <= i < |run| - 1 ==> StepAt(run, i)
  }

  // ------------------------------------------------------------ invariants

  /** Nothing is forgotten: a pending module is queued, in the worker's hands,
      about to be queued by its upload, stranded by a cancelled upload, or the
      next recovery query will list it. */
  ghost predicate Tracked(s: Sys) {
    forall id :: id in s.modules && Undecided(s.modules[id]) ==>
      s.worker.Down? || s.worker.Recovering? || id in s.queue || HeldByWorker(s.worker, id)
      || id in s.inserted || id in s.stranded
  }

  /** What the worker is asking about is being validated, and nothing else
      decides it meanwhile. */
  ghost predicate WorkerOk(s: Sys) {
    s.worker.Asking? || s.worker.Verdict? ==> s.worker.id in s.modules && s.modules[s.worker.id].status == Validating
  }

  ghost predicate VerdictsOnce(s: Sys) {
    && (forall id :: id in s.modules ==>
          History.VerdictOk(s.modules[id]) && s.modules[id].status != Archived
          && s.writes[id] == if Undecided(s.modules[id]) then 0 else 1)
    && (forall id :: id !in s.modules ==> s.writes[id] == 0)
  }

  /** A stranded module is undecided and in nobody's hands. */
  ghost predicate StrandedOk(s: Sys) {
    && s.inserted <= s.modules.Keys
    && forall id :: id in s.stranded ==> Loses(s, id) && id !in s.inserted
  }

  ghost predicate Inv(s: Sys) {
    && Tracked(s) && WorkerOk(s) && VerdictsOnce(s) && StrandedOk(s)
    && (s.worker.Down? ==> s.queue == [] && s.inserted == {} && s.stranded == {})
  }

  lemma MarkKeepsInv(s: Sys, failed: bool)
    requires Inv(s) && s.worker.Fetched?
    ensures Inv(AfterMark(s, failed))
  {
  }

  lemma FinishKeepsInv(s: Sys, failed: bool)
    requires Inv(s) && s.worker.Verdict?
    ensures Inv(AfterFinish(s, failed))
  {
  }

  lemma QueueKeepsInv(s: Sys, step: Step)
    requires Inv(s) && Enabled(s, step)
    requires step.Take? || step.Requeue? || step.QueueListed? || step.EnqueueUpload?
    ensures Inv(Apply(s, step))
  {
  }

  lemma StepKeepsInv(s: Sys, step: Step)
    requires Inv(s) && Enabled(s, step)
    ensures Inv(Apply(s, step))
  {
    match step
    case Mark(failed) => MarkKeepsInv(s, failed);
    case Finish(failed) => FinishKeepsInv(s, failed);
    case Take => QueueKeepsInv(s, step);
    case Requeue => QueueKeepsInv(s, step);
    case QueueListed => QueueKeepsInv(s, step);
    case EnqueueUpload(_) => QueueKeepsInv(s, step);
    case ListPending(pending) =>
      assert forall m :: m in PendingIds(s.modules) ==> m in pending;
    case _ =>
  }

  lemma {:induction false} RunKeepsInv(run: seq<Sys>, n: nat)
    requires IsRun(run) && n < |run|
    ensures Inv(run[n])
  {
    if n > 0 {
      RunKeepsInv(run, n - 1);
      assert StepAt(run, n - 1);
      var step :| Enabled(run[n - 1], step) && run[n] == Apply(run[n - 1], step);
      StepKeepsInv(run[n - 1], step);
    }
  }

  // ---------------------------------------------------------------- results

  /** When the worker is idle and nothing is queued or about to be, the modules
      left undecided are exactly the stranded ones. */
  lemma IdleMeansDone(run: seq<Sys>, n: nat, id: Uuid)
    requires IsRun(run) && n < |run|
    requires run[n].worker.Idle? && run[n].queue == [] && run[n].inserted == {}
    ensures id in run[n].modules && Undecided(run[n].modules[id]) <==> id in run[n].stranded
  {
    RunKeepsInv(run, n);
  }

  /** Rows only evolve, step by step. */
  lemma StepEvolves(s: Sys, step: Step, id: Uuid)
    requires Inv(s) && Enabled(s, step) && id in s.modules
    ensures id in Apply(s, step).modules
    ensures History.ModuleEvolves(s.modules[id], Apply(s, step).modules[id])
  {
  }

  /** Status only moves forward, whatever crashes, and a decided module keeps
      its verdict and report for ever. */
  lemma {:induction false} VerdictsStay(run: seq<Sys>, i: nat, j: nat, id: Uuid)
    requires IsRun(run) && i <= j < |run| && id in run[i].modules
    ensures id in run[j].modules
    ensures History.ModuleEvolves(run[i].modules[id], run[j].modules[id])
    ensures !Undecided(run[i].modules[id]) ==> run[j].modules[id] == run[i].modules[id]
    decreases j
  {
    RunKeepsInv(run, i);
    if i < j {
      VerdictsStay(run, i, j - 1, id);
      RunKeepsInv(run, j - 1);
      assert StepAt(run, j - 1);
      var step :| Enabled(run[j - 1], step) && run[j] == Apply(run[j - 1], step);
      StepEvolves(run[j - 1], step, id);
    }
  }

  /** A module is decided at most once, by the report it stores, even when its
      id is queued twice or its finished transaction looked like a failure. */
  lemma DecidedOnce(run: seq<Sys>, n: nat, id: Uuid)
    requires IsRun(run) && n < |run|
    ensures run[n].writes[id] == if id in run[n].modules && !Undecided(run[n].modules[id]) then 1 else 0
    ensures id in run[n].modules && !Undecided(run[n].modules[id]) ==>
      run[n].modules[id].report.Some?
      && run[n].modules[id].status == if run[n].modules[id].report.value.ok then Validated else Rejected
  {
    RunKeepsInv(run, n);
    if id in run[n].modules {
      assert History.VerdictOk(run[n].modules[id]);
    }
  }

  // ------------------------------------------------------------- catching up

  /** No crash among these steps. */
  predicate Unbroken(steps: seq<Step>) {
    forall i :: 0 <= i < |steps| ==> steps[i] != Crash
  }

  /** A module in the worker's hands, once the data plane answers. */
  lemma AnswerAndFinish(s: Sys, report: Report) returns (steps: seq<Step>, t: Sys)
    requires Inv(s) && s.worker.Asking?
    ensures Leads(Goes, s, steps, t) && Unbroken(steps) && Inv(t) && t.worker.Idle? && Nearby(s, t)
    ensures t.queue == s.queue
  {
    var mid := Apply(s, Answered(report));
    StepKeepsInv(s, Answered(report));
    LeadsThen(Goes, s, [], s, Answered(report), mid);
    steps, t := FinishAnswered(mid);
    LeadsOn(Goes, s, [] + [Answered(report)], mid, steps, t);
    steps := [] + [Answered(report)] + steps;
  }

  lemma FinishAnswered(s: Sys) returns (steps: seq<Step>, t: Sys)
    requires Inv(s) && s.worker.Verdict?
    ensures Leads(Goes, s, steps, t) && Unbroken(steps) && Inv(t) && t.worker.Idle? && Nearby(s, t)
    ensures t.queue == s.queue
  {
    t := Apply(s, Finish(false));
    StepKeepsInv(s, Finish(false));
    LeadsThen(Goes, s, [], s, Finish(false), t);
    steps := [] + [Finish(false)];
  }

  lemma MarkAndDecide(s: Sys, report: Report) returns (steps: seq<Step>, t: Sys)
    requires Inv(s) && s.worker.Fetched?
    ensures Leads(Goes, s, steps, t) && Unbroken(steps) && Inv(t) && t.worker.Idle? && Nearby(s, t)
    ensures t.queue == s.queue
  {
    t := Apply(s, Mark(false));
    StepKeepsInv(s, Mark(false));
    LeadsThen(Goes, s, [], s, Mark(false), t);
    steps := [] + [Mark(false)];
    if t.worker.Asking? {
      var rest, mid := [], t;
      rest, t := AnswerAndFinish(mid, report);
      LeadsOn(Goes, s, steps, mid, rest, t);
      steps := steps + rest;
    }
  }

  /** t holds the same modules, and no more of them are stranded. */
  predicate Nearby(s: Sys, t: Sys) {
    t.inserted == s.inserted && t.stranded <= s.stranded && t.modules.Keys == s.modules.Keys
  }

  /** One undisturbed round of the worker on the head of its queue. */
  lemma OneRound(s: Sys, judge: Uuid -> Report) returns (steps: seq<Step>, t: Sys)
    requires Inv(s) && s.worker.Idle? && s.queue != []
    ensures Leads(Goes, s, steps, t) && Unbroken(steps) && Inv(t) && t.worker.Idle? && Nearby(s, t)
    ensures t.queue == s.queue[1..]
  {
    var mid := Apply(s, Take);
    StepKeepsInv(s, Take);
    LeadsThen(Goes, s, [], s, Take, mid);
    var rest;
    rest, t := MarkAndDecide(mid, judge(s.queue[0]));
    LeadsOn(Goes, s, [] + [Take], mid, rest, t);
    steps := [] + [Take] + rest;
  }

  lemma {:induction false} DrainQueue(s: Sys, judge: Uuid -> Report) returns (steps: seq<Step>, t: Sys)
    requires Inv(s) && s.worker.Idle?
    ensures Leads(Goes, s, steps, t) && Unbroken(steps) && Inv(t) && t.worker.Idle? && Nearby(s, t)
    ensures t.queue == []
    decreases |s.queue|
  {
    if s.queue == [] {
      steps, t := [], s;
    } else {
      var first, mid := OneRound(s, judge);
      var rest;
      rest, t := DrainQueue(mid, judge);
      LeadsOn(Goes, s, first, mid, rest, t);
      steps := first + rest;
    }
  }

  /** A worker whose recovery query has answered queues what it listed. */
  lemma QueueRecovered(s: Sys) returns (steps: seq<Step>, t: Sys)
    requires Inv(s) && s.worker.Listed?
    ensures Leads(Goes, s, steps, t) && Unbroken(steps) && Inv(t) && t.worker.Idle? && Nearby(s, t)
  {
    t := Apply(s, QueueListed);
    StepKeepsInv(s, QueueListed);
    LeadsThen(Goes, s, [], s, QueueListed, t);
    steps := [] + [QueueListed];
  }

  lemma RecoverAll(s: Sys) returns (steps: seq<Step>, t: Sys)
    requires Inv(s) && s.worker.Recovering?
    ensures Leads(Goes, s, steps, t) && Unbroken(steps) && Inv(t) && t.worker.Idle? && Nearby(s, t)
    ensures t.stranded == {}
  {
    var pending := SomeListing(PendingIds(s.modules));
    var mid := Apply(s, ListPending(pending));
    StepKeepsInv(s, ListPending(pending));
    LeadsThen(Goes, s, [], s, ListPending(pending), mid);
    var rest;
    rest, t := QueueRecovered(mid);
    LeadsOn(Goes, s, [] + [ListPending(pending)], mid, rest, t);
    steps := [] + [ListPending(pending)] + rest;
  }

  lemma RequeueHeld(s: Sys) returns (steps: seq<Step>, t: Sys)
    requires Inv(s) && s.worker.Requeueing?
    ensures Leads(Goes, s, steps, t) && Unbroken(steps) && Inv(t) && t.worker.Idle? && Nearby(s, t)
  {
    t := Apply(s, Requeue);
    StepKeepsInv(s, Requeue);
    LeadsThen(Goes, s, [], s, Requeue, t);
    steps := [] + [Requeue];
  }

  /** Whatever a live worker is doing, it can get back to its queue. */
  lemma BackToQueue(s: Sys, judge: Uuid -> Report) returns (steps: seq<Step>, t: Sys)
    requires Inv(s) && !s.worker.Down?
    ensures Leads(Goes, s, steps, t) && Unbroken(steps) && Inv(t) && t.worker.Idle? && Nearby(s, t)
    ensures s.worker.Recovering? ==> t.stranded == {}
  {
    match s.worker
    case Idle => steps, t := [], s;
    case Recovering => steps, t := RecoverAll(s);
    case Listed(_) => steps, t := QueueRecovered(s);
    case Fetched(id) => steps, t := MarkAndDecide(s, judge(id));
    case Asking(id) => steps, t := AnswerAndFinish(s, judge(id));
    case Verdict(_, _) => steps, t := FinishAnswered(s);
    case Requeueing(_) => steps, t := RequeueHeld(s);
  }

  /** However the last process died, one restart that runs undisturbed decides
      every module that was pending, for any answers of the data plane. */
  lemma RestartDecidesAll(run: seq<Sys>, n: nat, judge: Uuid -> Report) returns (steps: seq<Step>, t: Sys)
    requires IsRun(run) && n < |run| && run[n].worker.Down?
    ensures Leads(Goes, run[n], steps, t) && Unbroken(steps)
    ensures t.modules.Keys == run[n].modules.Keys && PendingIds(t.modules) == {}
  {
    RunKeepsInv(run, n);
    var s := run[n];
    var a := Apply(s, Begin);
    StepKeepsInv(s, Begin);
    LeadsThen(Goes, s, [], s, Begin, a);
    var idle, c := BackToQueue(a, judge);
    var rest;
    rest, t := DrainQueue(c, judge);
    LeadsOn(Goes, a, idle, c, rest, t);
    LeadsOn(Goes, s, [] + [Begin], a, idle + rest, t);
    steps := [] + [Begin] + (idle + rest);
  }

  // -------------------------------------------- when an upload gets validated

  /** An upload that has committed can still queue its module. */
  lemma QueueUpload(s: Sys, id: Uuid) returns (steps: seq<Step>, t: Sys)
    requires Inv(s) && s.worker.Idle?
    ensures Leads(Goes, s, steps, t) && Unbroken(steps) && Inv(t) && t.worker.Idle?
    ensures id !in t.inserted && t.stranded == s.stranded && t.modules == s.modules
  {
    steps, t := [], s;
    if id in s.inserted {
      t := Apply(s, EnqueueUpload(id));
      StepKeepsInv(s, EnqueueUpload(id));
      LeadsThen(Goes, s, [], s, EnqueueUpload(id), t);
      steps := [] + [EnqueueUpload(id)];
    }
  }

  lemma NothingLeft(s: Sys, id: Uuid)
    requires Inv(s) && s.worker.Idle? && s.queue == []
    requires id in s.modules && id !in s.inserted && id !in s.stranded
    ensures !Undecided(s.modules[id])
  {
  }

  /** Unless it is stranded, a live process can decide a module without being
      restarted: its upload queues it if it has not, and the worker gets there. */
  lemma CanBeDecided(s: Sys, id: Uuid, judge: Uuid -> Report) returns (steps: seq<Step>, t: Sys)
    requires Inv(s) && !s.worker.Down? && id in s.modules && id !in s.stranded
    ensures Leads(Goes, s, steps, t) && Unbroken(steps)
    ensures id in t.modules && !Undecided(t.modules[id])
  {
    var x, a := BackToQueue(s, judge);
    var y, b := QueueUpload(a, id);
    var z;
    z, t := DrainQueue(b, judge);
    LeadsOn(Goes, a, y, b, z, t);
    LeadsOn(Goes, s, x, a, y + z, t);
    steps := x + (y + z);
    NothingLeft(t, id);
  }

  predicate PastRecovery(w: Worker) {
    !w.Down? && !w.Recovering?
  }

  lemma StrandedStep(s: Sys, step: Step, id: Uuid)
    requires Inv(s) && Enabled(s, step) && step != Crash && PastRecovery(s.worker) && id in s.stranded
    ensures var t := Apply(s, step);
      PastRecovery(t.worker) && id in t.stranded && id in t.modules && t.modules[id] == s.modules[id]
  {
  }

  /** Nobody ever looks at a stranded module again, until the process restarts. */
  lemma {:induction false} StrandedStays(s: Sys, steps: seq<Step>, t: Sys, id: Uuid)
    requires Inv(s) && PastRecovery(s.worker) && id in s.stranded
    requires Leads(Goes, s, steps, t) && Unbroken(steps)
    ensures id in t.stranded && id in t.modules && t.modules[id] == s.modules[id] && Undecided(t.modules[id])
    decreases |steps|
  {
    if steps != [] {
      var mid :| Goes(s, steps[0], mid) && Leads(Goes, mid, steps[1..], t);
      StrandedStep(s, steps[0], id);
      StepKeepsInv(s, steps[0]);
      StrandedStays(mid, steps[1..], t, id);
    }
  }

  /** Whatever happens from s on, short of a crash, id stays undecided. */
  ghost predicate Abandoned(s: Sys, id: Uuid) {
    forall steps, t :: Leads(Goes, s, steps, t) && Unbroken(steps) ==> id in t.modules && Undecided(t.modules[id])
  }

  /** While the process lives past its recovery, the stranded modules are
      exactly those that nothing but a restart can get decided. */
  lemma StrandedIffAbandoned(run: seq<Sys>, n: nat, id: Uuid, judge: Uuid -> Report)
    requires IsRun(run) && n < |run| && PastRecovery(run[n].worker)
    ensures id in run[n].stranded <==> Abandoned(run[n], id)
  {
    RunKeepsInv(run, n);
    AbandonedIffStranded(run[n], id, judge);
  }

  lemma AbandonedIffStranded(s: Sys, id: Uuid, judge: Uuid -> Report)
    requires Inv(s) && PastRecovery(s.worker)
    ensures id in s.stranded <==> Abandoned(s, id)
  {
    if id in s.stranded {
      forall steps, t | Leads(Goes, s, steps, t) && Unbroken(steps)
        ensures id in t.modules && Undecided(t.modules[id])
      {
        StrandedStays(s, steps, t, id);
      }
    } else if id in s.modules {
      var steps, t := CanBeDecided(s, id, judge);
      assert Leads(Goes, s, steps, t) && Unbroken(steps);
    } else {
      assert Leads(Goes, s, [], s) && Unbroken([]);
    }
  }

  /** Exactly when cancelling an upload between its commit and its enqueue loses
      the module: it is undecided, and neither the queue nor the worker has it. */
  lemma CancelLosesIff(run: seq<Sys>, n: nat, id: Uuid, judge: Uuid -> Report)
    requires IsRun(run) && n < |run| && PastRecovery(run[n].worker) && Enabled(run[n], CancelUpload(id))
    ensures Abandoned(Apply(run[n], CancelUpload(id)), id) <==> Loses(run[n], id)
  {
    RunKeepsInv(run, n);
    StepKeepsInv(run[n], CancelUpload(id));
    AbandonedIffStranded(Apply(run[n], CancelUpload(id)), id, judge);
  }

  /** The loss does happen: from an empty system, an upload cancelled after its
      commit leaves a module that nothing but a restart gets decided. */
  lemma CancelStrands(id: Uuid, row: ModuleRow, judge: Uuid -> Report) returns (run: seq<Sys>)
    requires row.status == Uploaded && row.report == None
    ensures IsRun(run) && run != [] && Abandoned(run[|run| - 1], id)
  {
    run := RunToCancel(id, row);
    RunKeepsInv(run, |run| - 1);
    AbandonedIffStranded(run[|run| - 1], id, judge);
  }

  lemma Extended(run: seq<Sys>, step: Step) returns (longer: seq<Sys>)
    requires IsRun(run) && Enabled(run[|run| - 1], step)
    ensures IsRun(longer) && longer != [] && longer[|longer| - 1] == Apply(run[|run| - 1], step)
  {
    longer := run + [Apply(run[|run| - 1], step)];
    forall i | 0 <= i < |longer| - 1 ensures StepAt(longer, i) {
      if i < |run| - 1 {
        assert StepAt(run, i);
        var x :| Enabled(run[i], x) && run[i + 1] == Apply(run[i], x);
        assert Enabled(longer[i], x) && longer[i + 1] == Apply(longer[i], x);
      } else {
        assert Enabled(longer[i], step) && longer[i + 1] == Apply(longer[i], step);
      }
    }
  }

  lemma RunToCancel(id: Uuid, row: ModuleRow) returns (run: seq<Sys>)
    requires row.status == Uploaded && row.report == None
    ensures IsRun(run) && run != []
    ensures var s := run[|run| - 1];
      PastRecovery(s.worker) && id in s.stranded
  {
    run := Extended([START], Begin);
    assert PendingIds(START.modules) == {};
    run := Extended(run, ListPending([]));
    run := Extended(run, QueueListed);
    run := Extended(run, Insert(id, row));
    run := Extended(run, CancelUpload(id));
  }
}
