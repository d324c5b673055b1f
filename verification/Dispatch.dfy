/** Dispatch of background agent tasks to worker threads (src/rcp/background.py, `launch_admitted`,
    `_spawn_record`, `_run`, `_forget_control`, and the receipts of src/rcp/storage/agent_tasks.py that
    prove a task's dispatch never started).

    Any number of launchers race for a queued task.  Membership in the worker registry is the claim
    inside one process; across a crash, the durable receipts are.  Starting the thread may fail before
    or after its attempt receipt, a receipt may be lost, and the process may die at any moment. */
module Dispatch {
  import opened Options

  type Op = nat
  type WorkerId = nat
  type LauncherId = nat
  type AttemptId = nat

  datatype Status = Queued | Running | Pausing | Paused | Succeeded | Failed | Interrupted

  // The statuses a task may leave for the given one; nothing returns to Queued.
  predicate MayBecome(from: Status, to: Status) {
    match to
    case Queued => false
    case Running => from.Queued?
    case Pausing => from.Queued? || from.Running?
    case _ => from.Queued? || from.Running? || from.Pausing?
  }

  function Moved(from: Status, to: Status): Status { if MayBecome(from, to) then to else from }

  datatype Receipt = Attempt(id: AttemptId) | FailedBefore(id: AttemptId) | Began(id: AttemptId)

  /** A durable task row with its dispatch receipts; `starts` records how many threads were started. */
  datatype Task = Task(status: Status, receipts: seq<Receipt>, starts: nat)

  const ADMITTED := Task(Queued, [], 0)

  function LatestAttempt(rs: seq<Receipt>): Option<AttemptId> {
    if rs == [] then None
    else if rs[|rs| - 1].Attempt? then Some(rs[|rs| - 1].id)
    else LatestAttempt(rs[..|rs| - 1])
  }

  function LatestOutcome(rs: seq<Receipt>): Option<Receipt> {
    if rs == [] then None
    else if !rs[|rs| - 1].Attempt? then Some(rs[|rs| - 1])
    else LatestOutcome(rs[..|rs| - 1])
  }

  // Durable proof that no thread ever began: no attempt at all, or the latest one failed before start.
  predicate ProvenNotStarted(t: Task) {
    && t.status.Queued?
    && match LatestAttempt(t.receipts)
       case None => LatestOutcome(t.receipts).None?
       case Some(a) => LatestOutcome(t.receipts) == Some(FailedBefore(a))
  }

  predicate Unused(rs: seq<Receipt>, a: AttemptId) { forall r :: r in rs ==> r.id != a }

  // ---- One spawn, under the registry lock -------------------------------------------------

  /** How the try block ends, and whether the receipt of that end was written: the attempt receipt
      fails, something after it fails before the thread starts, or the thread starts. */
  datatype Ending = NoAttempt(noted: bool) | NoThread(noted: bool) | Starts(noted: bool)

  function Written(rs: seq<Receipt>, a: AttemptId, ending: Ending): seq<Receipt> {
    match ending
    case NoAttempt(noted) => rs + if noted then [FailedBefore(a)] else []
    case NoThread(noted) => rs + [Attempt(a)] + if noted then [FailedBefore(a)] else []
    case Starts(noted) => rs + [Attempt(a)] + if noted then [Began(a)] else []
  }

  datatype Registry = Registry(controls: map<Op, WorkerId>, workers: map<Op, WorkerId>)

  predicate Claimable(r: Registry, op: Op, t: Task) { op !in r.workers && t.status.Queued? }

  function SpawnTask(r: Registry, op: Op, t: Task, a: AttemptId, ending: Ending): Task {
    if !Claimable(r, op, t) then t
    else Task(t.status, Written(t.receipts, a, ending), t.starts + if ending.Starts? then 1 else 0)
  }

  function SpawnRegistry(r: Registry, op: Op, t: Task, w: WorkerId, ending: Ending): Registry {
    if Claimable(r, op, t) && ending.Starts? then Registry(r.controls[op := w], r.workers[op := w]) else r
  }

  function Forget(r: Registry, op: Op): Registry { Registry(r.controls - {op}, r.workers - {op}) }

  // ---- All interleavings and crashes ----------------------------------------------------

  datatype WorkerStage = Ready | Busy | Settled
  datatype Worker = Worker(op: Op, stage: WorkerStage)
  datatype LauncherStage = Checked | Proved
  datatype Launcher = Launcher(op: Op, stage: LauncherStage)

  datatype System = System(
    tasks: map<Op, Task>,
    registry: Registry,
    threads: map<WorkerId, Worker>,
    launchers: map<LauncherId, Launcher>)

  datatype Action =
    | Admit(op: Op)
    | Check(l: LauncherId, op: Op)
    | Prove(l: LauncherId)
    | Spawn(l: LauncherId, w: WorkerId, attempt: AttemptId, ending: Ending)
    | Begin(w: WorkerId, pause: bool)
    | Break(w: WorkerId)                    // the thread dies of a store error before it took the task up
    | Settle(w: WorkerId, verdict: Status)
    | Leave(w: WorkerId)
    | Transition(op: Op, to: Status)        // a pause request, an interruption, a failure from elsewhere
    | Crash

  predicate LauncherAt(s: System, l: LauncherId, stage: LauncherStage) {
    l in s.launchers && s.launchers[l].stage == stage && s.launchers[l].op in s.tasks
  }

  predicate WorkerAt(s: System, w: WorkerId, stage: WorkerStage) {
    w in s.threads && s.threads[w].stage == stage && s.threads[w].op in s.tasks
  }

  predicate Enabled(s: System, a: Action) {
    match a
    case Admit(op) => op !in s.tasks
    case Check(l, op) => l !in s.launchers && op in s.tasks
    case Prove(l) => LauncherAt(s, l, Checked)
    case Spawn(l, w, attempt, _) =>
      LauncherAt(s, l, Proved) && w !in s.threads && Unused(s.tasks[s.launchers[l].op].receipts, attempt)
    case Begin(w, _) => WorkerAt(s, w, Ready)
    case Break(w) => WorkerAt(s, w, Ready)
    case Settle(w, verdict) => WorkerAt(s, w, Busy)
    case Leave(w) => WorkerAt(s, w, Settled)
    case Transition(op, _) => op in s.tasks
    case Crash => true
  }

  function Put(s: System, op: Op, status: Status): map<Op, Task>
    requires op in s.tasks
  {
    s.tasks[op := s.tasks[op].(status := Moved(s.tasks[op].status, status))]
  }

  function Apply(s: System, a: Action): System
    requires Enabled(s, a)
  {
    match a
    case Admit(op) => s.(tasks := s.tasks[op := ADMITTED])
    case Check(l, op) =>
      if Claimable(s.registry, op, s.tasks[op]) then s.(launchers := s.launchers[l := Launcher(op, Checked)]) else s
    case Prove(l) =>
      var op := s.launchers[l].op;
      if ProvenNotStarted(s.tasks[op]) then s.(launchers := s.launchers[l := Launcher(op, Proved)])
      else s.(launchers := s.launchers - {l})
    case Spawn(l, w, attempt, ending) =>
      var op := s.launchers[l].op;
      var t := s.tasks[op];
      System(s.tasks[op := SpawnTask(s.registry, op, t, attempt, ending)],
             SpawnRegistry(s.registry, op, t, w, ending),
             if Claimable(s.registry, op, t) && ending.Starts? then s.threads[w := Worker(op, Ready)] else s.threads,
             s.launchers - {l})
    case Begin(w, pause) =>
      var op := s.threads[w].op;
      var paused := pause || s.tasks[op].status.Pausing?;
      s.(tasks := Put(s, op, if paused then Paused else Running),
         threads := s.threads[w := Worker(op, if paused then Settled else Busy)])
    case Break(w) => s.(threads := s.threads - {w})        // its registry entry stays
    case Settle(w, verdict) =>
      s.(tasks := Put(s, s.threads[w].op, verdict), threads := s.threads[w := s.threads[w].(stage := Settled)])
    case Leave(w) => s.(registry := Forget(s.registry, s.threads[w].op), threads := s.threads - {w})
    case Transition(op, to) => s.(tasks := Put(s, op, to))
    case Crash => System(s.tasks, Registry(map[], map[]), map[], map[])
  }

  predicate Feasible(s: System, run: seq<Action>)
    decreases |run|
  {
    run != [] ==> Enabled(s, run[0]) && Feasible(Apply(s, run[0]), run[1..])
  }

  function After(s: System, run: seq<Action>): System
    requires Feasible(s, run)
    decreases |run|
  {
    if run == [] then s else After(Apply(s, run[0]), run[1..])
  }

  const START := System(map[], Registry(map[], map[]), map[], map[])

  // ---- The invariant --------------------------------------------------------------------

  // The receipts can never again prove that no thread began.
  predicate Spoiled(rs: seq<Receipt>) {
    LatestAttempt(rs).Some? && LatestOutcome(rs) != Some(FailedBefore(LatestAttempt(rs).value))
  }

  predicate TaskOk(t: Task) { t.starts <= 1 && (t.starts == 1 ==> Spoiled(t.receipts)) }

  // A started task is claimed, or has left the queue, or nobody who could still spawn it is about.
  predicate LauncherOk(tasks: map<Op, Task>, workers: map<Op, WorkerId>, x: Launcher) {
    x.op in tasks && (x.stage.Proved? && tasks[x.op].starts > 0 ==> x.op in workers || !tasks[x.op].status.Queued?)
  }

  predicate WorkerOk(tasks: map<Op, Task>, workers: map<Op, WorkerId>, w: WorkerId, x: Worker) {
    && x.op in tasks && tasks[x.op].starts > 0
    && x.op in workers && workers[x.op] == w
    && (!x.stage.Ready? ==> !tasks[x.op].status.Queued?)
  }

  predicate Inv(s: System) {
    match s.registry
    case Registry(controls, workers) =>
      && controls == workers
      && (forall op :: op in s.tasks ==> TaskOk(s.tasks[op]))
      && (forall op :: op in workers ==> op in s.tasks)
      && (forall l :: l in s.launchers ==> LauncherOk(s.tasks, workers, s.launchers[l]))
      && (forall w :: w in s.threads ==> WorkerOk(s.tasks, workers, w, s.threads[w]))
  }

  lemma {:induction false} OutcomesAreReceipts(rs: seq<Receipt>)
    ensures LatestOutcome(rs).Some? ==> LatestOutcome(rs).value in rs && !LatestOutcome(rs).value.Attempt?
  {
    if rs != [] && rs[|rs| - 1].Attempt? { OutcomesAreReceipts(rs[..|rs| - 1]); }
  }

  lemma Latest(rs: seq<Receipt>, r: Receipt)
    ensures LatestAttempt(rs + [r]) == if r.Attempt? then Some(r.id) else LatestAttempt(rs)
    ensures LatestOutcome(rs + [r]) == if r.Attempt? then LatestOutcome(rs) else Some(r)
  {
    assert (rs + [r])[..|rs|] == rs;
  }

  // A fresh attempt that starts spoils the proof, whether or not its second receipt was written.
  lemma StartSpoils(rs: seq<Receipt>, a: AttemptId, noted: bool)
    requires Unused(rs, a)
    ensures Spoiled(Written(rs, a, Starts(noted)))
  {
    OutcomesAreReceipts(rs);
    Latest(rs, Attempt(a));
    Latest(rs + [Attempt(a)], Began(a));
    if !noted { assert rs + [Attempt(a)] + [] == rs + [Attempt(a)]; }
  }

  /** A start that failed and said so can be tried again: the receipts prove it once more. */
  lemma NotedFailureCanRetry(t: Task, r: Registry, op: Op, a: AttemptId)
    requires Claimable(r, op, t)
    ensures ProvenNotStarted(SpawnTask(r, op, t, a, NoThread(true)))
    ensures Claimable(SpawnRegistry(r, op, t, 0, NoThread(true)), op, SpawnTask(r, op, t, a, NoThread(true)))
  {
    Latest(t.receipts, Attempt(a));
    Latest(t.receipts + [Attempt(a)], FailedBefore(a));
  }

  lemma SpawnInv(s: System, a: Action)
    requires Inv(s) && Enabled(s, a) && a.Spawn?
    ensures Inv(Apply(s, a))
  {
    var s', op := Apply(s, a), s.launchers[a.l].op;
    assert LauncherOk(s.tasks, s.registry.workers, s.launchers[a.l]);
    assert TaskOk(s.tasks[op]);
    if Claimable(s.registry, op, s.tasks[op]) {
      assert s.tasks[op].starts == 0;
      if a.ending.Starts? { StartSpoils(s.tasks[op].receipts, a.attempt, a.ending.noted); }
    }
    forall l | l in s'.launchers ensures LauncherOk(s'.tasks, s'.registry.workers, s'.launchers[l]) {
      assert LauncherOk(s.tasks, s.registry.workers, s.launchers[l]);
    }
    forall w | w in s'.threads ensures WorkerOk(s'.tasks, s'.registry.workers, w, s'.threads[w]) {
      if w in s.threads { assert WorkerOk(s.tasks, s.registry.workers, w, s.threads[w]); }
    }
  }

  // A durable status change by a worker or from elsewhere.
  lemma PutKeeps(s: System, op: Op, to: Status)
    requires Inv(s) && op in s.tasks
    ensures Inv(s.(tasks := Put(s, op, to)))
  {
    var tasks := Put(s, op, to);
    forall o | o in tasks ensures TaskOk(tasks[o]) { assert TaskOk(s.tasks[o]); }
    forall l | l in s.launchers ensures LauncherOk(tasks, s.registry.workers, s.launchers[l]) {
      assert LauncherOk(s.tasks, s.registry.workers, s.launchers[l]);
    }
    forall w | w in s.threads ensures WorkerOk(tasks, s.registry.workers, w, s.threads[w]) {
      assert WorkerOk(s.tasks, s.registry.workers, w, s.threads[w]);
    }
  }

  lemma WorkerInv(s: System, a: Action)
    requires Inv(s) && Enabled(s, a) && (a.Begin? || a.Settle? || a.Leave? || a.Break?)
    ensures Inv(Apply(s, a))
  {
    var s', op := Apply(s, a), s.threads[a.w].op;
    assert WorkerOk(s.tasks, s.registry.workers, a.w, s.threads[a.w]);
    if a.Begin? {
      PutKeeps(s, op, if a.pause || s.tasks[op].status.Pausing? then Paused else Running);
    } else if a.Settle? {
      PutKeeps(s, op, a.verdict);
    }
    forall l | l in s'.launchers ensures LauncherOk(s'.tasks, s'.registry.workers, s'.launchers[l]) {
      assert LauncherOk(s.tasks, s.registry.workers, s.launchers[l]);
    }
    forall w | w in s'.threads ensures WorkerOk(s'.tasks, s'.registry.workers, w, s'.threads[w]) {
      assert WorkerOk(s.tasks, s.registry.workers, w, s.threads[w]);
    }
  }

  lemma LaunchInv(s: System, a: Action)
    requires Inv(s) && Enabled(s, a) && (a.Admit? || a.Check? || a.Prove?)
    ensures Inv(Apply(s, a))
  {
    var s' := Apply(s, a);
    forall l | l in s'.launchers ensures LauncherOk(s'.tasks, s'.registry.workers, s'.launchers[l]) {
      if l in s.launchers { assert LauncherOk(s.tasks, s.registry.workers, s.launchers[l]); }
    }
    forall w | w in s'.threads ensures WorkerOk(s'.tasks, s'.registry.workers, w, s'.threads[w]) {
      assert WorkerOk(s.tasks, s.registry.workers, w, s.threads[w]);
    }
  }

  lemma StepInv(s: System, a: Action)
    requires Inv(s) && Enabled(s, a)
    ensures Inv(Apply(s, a))
  {
    match a
    case Admit(_) => LaunchInv(s, a);
    case Check(_, _) => LaunchInv(s, a);
    case Prove(_) => LaunchInv(s, a);
    case Spawn(_, _, _, _) => SpawnInv(s, a);
    case Begin(_, _) => WorkerInv(s, a);
    case Break(_) => WorkerInv(s, a);
    case Settle(_, _) => WorkerInv(s, a);
    case Leave(_) => WorkerInv(s, a);
    case Transition(op, to) => PutKeeps(s, op, to);
    case Crash =>
  }

  lemma {:induction false} RunInv(s: System, run: seq<Action>)
    requires Inv(s) && Feasible(s, run)
    ensures Inv(After(s, run))
    decreases |run|
  {
    if run != [] {
      StepInv(s, run[0]);
      RunInv(Apply(s, run[0]), run[1..]);
    }
  }

  /** Under any interleaving of launchers, failing starts, workers, pauses and crashes, every operation
      has at most one worker thread started over its whole life, across restarts too, and the control
      and worker registries always hold the same entries. */
  lemma AtMostOneStart(run: seq<Action>)
    requires Feasible(START, run)
    ensures var s := After(START, run);
      && s.registry.controls == s.registry.workers
      && forall op :: op in s.tasks ==> s.tasks[op].starts <= 1
  {
    RunInv(START, run);
    forall op | op in After(START, run).tasks ensures After(START, run).tasks[op].starts <= 1 {
      assert TaskOk(After(START, run).tasks[op]);
    }
  }

  /** Two live threads never serve the same operation, and a live thread is always the registered one. */
  lemma ThreadsAreRegistered(run: seq<Action>, v: WorkerId, w: WorkerId)
    requires Feasible(START, run)
    requires v in After(START, run).threads && w in After(START, run).threads
    ensures var s := After(START, run);
      && s.threads[v].op in s.registry.workers && s.registry.workers[s.threads[v].op] == v
      && (s.threads[v].op == s.threads[w].op ==> v == w)
  {
    RunInv(START, run);
    var s := After(START, run);
    assert WorkerOk(s.tasks, s.registry.workers, v, s.threads[v]);
    assert WorkerOk(s.tasks, s.registry.workers, w, s.threads[w]);
  }

  // ---- The dispatcher --------------------------------------------------------------------

  class BackgroundAgentTasks {
    var tasks: map<Op, Task>
    var controls: map<Op, WorkerId>
    var workers: map<Op, WorkerId>

    function Registered(): Registry
      reads this
    {
      Registry(controls, workers)
    }

    /** The dispatch claim.  The registries are filled before any launch work and, when the thread does
        not start, emptied again. */
    method SpawnRecord(op: Op, worker: WorkerId, attempt: AttemptId, ending: Ending) returns (started: bool)
      requires op in tasks && controls.Keys == workers.Keys
      modifies this
      ensures tasks == old(tasks)[op := SpawnTask(old(Registered()), op, old(tasks)[op], attempt, ending)]
      ensures Registered() == SpawnRegistry(old(Registered()), op, old(tasks)[op], worker, ending)
      ensures started == (old(Claimable(Registered(), op, tasks[op])) && ending.Starts?)
    {
      if op in workers { return false; }
      var current := tasks[op];
      if current.status != Queued { return false; }
      controls := controls[op := worker];
      workers := workers[op := worker];
      var receipts := current.receipts;
      if !ending.NoAttempt? { receipts := receipts + [Attempt(attempt)]; }
      if ending.Starts? {
        started := true;
        if ending.noted { receipts := receipts + [Began(attempt)]; }
      } else {
        started := false;
        if ending.noted { receipts := receipts + [FailedBefore(attempt)]; }
        ForgetControl(op);
        assert controls == old(controls) && workers == old(workers);
      }
      assert receipts == Written(current.receipts, attempt, ending) by {
        assert current.receipts + [] == current.receipts;
        assert current.receipts + [Attempt(attempt)] + [] == current.receipts + [Attempt(attempt)];
      }
      tasks := tasks[op := Task(current.status, receipts, current.starts + if started then 1 else 0)];
    }

    method ForgetControl(op: Op)
      modifies this`controls, this`workers
      ensures Registered() == Forget(old(Registered()), op)
    {
      controls := controls - {op};
      workers := workers - {op};
    }
  }
}
