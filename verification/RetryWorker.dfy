/** The worker that runs graph-watcher retries on generation-scoped threads (src/rcp/watchers.py,
    `WatcherRetryWorker`).

    Starting and stopping bump a generation counter under a lock; each start makes a thread with its own
    `pending` and `stop` events.  Signals are delivered in two steps: the pending event is read under the
    lock and set outside it.  A thread waits, clears its event, checks that it is still current, and runs
    the callback, whose effects go through a lease that checks again under the lock. */
module RetryWorker {
  import opened Options

  type Generation = nat
  type SignalId = nat
  type StopId = nat

  datatype Stage = Waiting | Woken | Cleared | Checked | Calling | Dead

  /** A thread and its two events.  The last three fields record history: the signals set on it, how
      many of those had been set when its latest callback pass began, and the passes begun. */
  datatype Thread = Thread(pending: bool, stop: bool, stage: Stage, signals: nat, served: nat, passes: nat)

  const FRESH := Thread(false, false, Waiting, 0, 0, 0)

  /** `current` names the thread the worker holds; threads are numbered by their generation. */
  datatype Worker = Worker(generation: Generation, accepting: bool, current: Option<Generation>,
                           threads: map<Generation, Thread>)

  predicate Alive(w: Worker, g: Generation) { g in w.threads && !w.threads[g].stage.Dead? }

  predicate Current(w: Worker, g: Generation) { w.accepting && w.generation == g }

  // Stop and pending of the held thread are set; it will see that it is no longer current.
  function Retired(w: Worker): map<Generation, Thread> {
    if w.current.Some? && w.current.value in w.threads then
      w.threads[w.current.value := w.threads[w.current.value].(stop := true, pending := true)]
    else w.threads
  }

  predicate Running(w: Worker) { w.accepting && w.current.Some? && Alive(w, w.current.value) }

  function StartStep(w: Worker): Worker {
    if Running(w) then w
    else Worker(w.generation + 1, true, Some(w.generation + 1), Retired(w)[w.generation + 1 := FRESH])
  }

  function StopStep(w: Worker): Worker { Worker(w.generation + 1, false, w.current, Retired(w)) }

  // After joining the thread it took: forget it if it is still the one held and has ended.
  function ForgetStep(w: Worker, taken: Option<Generation>): Worker {
    if w.current == taken && (taken.None? || !Alive(w, taken.value)) then w.(current := None) else w
  }

  // The first half of a signal: whose pending event to set.
  function Addressee(w: Worker): Option<Generation> { if w.accepting then w.current else None }

  function Update(w: Worker, g: Generation, t: Thread): Worker { w.(threads := w.threads[g := t]) }

  // ---- All interleavings ----------------------------------------------------------------

  /** `inflight` are the signals, and `stops` the stop calls, between their two halves, with the thread
      each took; `effects` are the generations whose leases ran an effect, in order. */
  datatype System = System(worker: Worker, inflight: map<SignalId, Generation>,
                           stops: map<StopId, Option<Generation>>, effects: seq<Generation>)

  datatype Action =
    | Start
    | Stop(call: StopId)
    | Forget(call: StopId)
    | SignalRead(id: SignalId)
    | SignalSet(id: SignalId)
    | Wake(g: Generation)
    | Clear(g: Generation)
    | CheckStop(g: Generation)
    | CheckCurrent(g: Generation)
    | Effect(g: Generation)
    | Return(g: Generation)
    | Die(g: Generation)          // the callback escapes with more than an exception

  predicate At(w: Worker, g: Generation, stage: Stage) { g in w.threads && w.threads[g].stage == stage }

  predicate Enabled(s: System, a: Action) {
    match a
    case Stop(call) => call !in s.stops
    case Forget(call) => call in s.stops
    case SignalRead(id) => id !in s.inflight
    case SignalSet(id) => id in s.inflight && s.inflight[id] in s.worker.threads
    case Wake(g) => At(s.worker, g, Waiting) && s.worker.threads[g].pending
    case Clear(g) => At(s.worker, g, Woken)
    case CheckStop(g) => At(s.worker, g, Cleared)
    case CheckCurrent(g) => At(s.worker, g, Checked)
    case Effect(g) => g in s.worker.threads
    case Return(g) => At(s.worker, g, Calling)
    case Die(g) => At(s.worker, g, Calling)
    case _ => true
  }

  function Signalled(t: Thread): Thread { t.(pending := true, signals := t.signals + 1) }

  // The thread's own steps: the loop of `_run`.
  function Moved(w: Worker, a: Action, t: Thread): Thread {
    match a
    case Wake(_) => t.(stage := Woken)
    case Clear(_) => t.(pending := false, stage := Cleared)
    case CheckStop(_) => t.(stage := if t.stop then Dead else Checked)
    case CheckCurrent(g) =>
      if Current(w, g) then t.(stage := Calling, served := t.signals, passes := t.passes + 1) else t.(stage := Dead)
    case Return(_) => t.(stage := Waiting)
    case Die(_) => t.(stage := Dead)
    case _ => t
  }

  function Apply(s: System, a: Action): System
    requires Enabled(s, a)
  {
    match a
    case Start => s.(worker := StartStep(s.worker))
    case Stop(call) => s.(worker := StopStep(s.worker), stops := s.stops[call := s.worker.current])
    case Forget(call) => s.(worker := ForgetStep(s.worker, s.stops[call]), stops := s.stops - {call})
    case SignalRead(id) =>
      var to := Addressee(s.worker);
      if to.Some? then s.(inflight := s.inflight[id := to.value]) else s
    case SignalSet(id) =>
      s.(worker := Update(s.worker, s.inflight[id], Signalled(s.worker.threads[s.inflight[id]])),
         inflight := s.inflight - {id})
    case Effect(g) => if Current(s.worker, g) then s.(effects := s.effects + [g]) else s
    case _ => s.(worker := Update(s.worker, a.g, Moved(s.worker, a, s.worker.threads[a.g])))
  }

  predicate Feasible(s: System, run: seq<Action>)
    decreases |run|
  {
    run != [] ==> Enabled(s, run[0]) && Feasible(Apply(s, run[0]), run[1..])
  }

  function After(s: System, run: seq<Action>): System
    requires Feasible(s, run)
    decreases |run|
  {
    if run == [] then s else After(Apply(s, run[0]), run[1..])
  }

  const START := System(Worker(0, false, None, map[]), map[], map[], [])

  // ---- The fence ------------------------------------------------------------------------

  function EffectsOf(effects: seq<Generation>, g: Generation): nat { multiset(effects)[g] }

  lemma StaleStep(s: System, a: Action, g: Generation)
    requires Enabled(s, a) && g < s.worker.generation
    ensures g < Apply(s, a).worker.generation && EffectsOf(Apply(s, a).effects, g) == EffectsOf(s.effects, g)
  {
  }

  /** Once the generation has moved past `g`, the lease of `g` never runs another effect, whatever
      happens: no schedule revives it. */
  lemma {:induction false} StaleLeaseNeverRuns(s: System, run: seq<Action>, g: Generation)
    requires Feasible(s, run) && g < s.worker.generation
    ensures EffectsOf(After(s, run).effects, g) == EffectsOf(s.effects, g)
    decreases |run|
  {
    if run != [] {
      StaleStep(s, run[0], g);
      StaleLeaseNeverRuns(Apply(s, run[0]), run[1..], g);
    }
  }

  /** Stopping, and a start that does not find its thread running, end the generation before them:
      from then on nothing of it has an effect. */
  lemma EndedGenerationIsFenced(s: System, a: Action, run: seq<Action>, g: Generation)
    requires g <= s.worker.generation && Enabled(s, a) && (a.Stop? || (a.Start? && !Running(s.worker)))
    requires Feasible(Apply(s, a), run)
    ensures EffectsOf(After(Apply(s, a), run).effects, g) == EffectsOf(s.effects, g)
  {
    StaleLeaseNeverRuns(Apply(s, a), run, g);
  }

  // ---- The invariant --------------------------------------------------------------------

  // A wake-up the thread has taken but not yet turned into a pass.
  predicate Taken(t: Thread) { t.stage.Cleared? || t.stage.Checked? }

  function One(b: bool): nat { if b then 1 else 0 }

  predicate ThreadOk(t: Thread) {
    && t.served <= t.signals
    && (t.served < t.signals ==> t.pending || t.stage.Woken? || Taken(t) || t.stage.Dead?)
    && (t.stage.Woken? ==> t.pending)
  }

  // Nothing but a signal wakes a thread that nobody retired.
  predicate LiveOk(t: Thread) { !t.stop && t.passes + One(t.pending) + One(Taken(t)) <= t.signals }

  predicate ThreadInv(generation: Generation, accepting: bool, g: Generation, t: Thread) {
    ThreadOk(t) && g <= generation && t.passes <= t.signals && (accepting && g == generation ==> LiveOk(t))
  }

  predicate HoldsCurrent(w: Worker) {
    && (w.accepting ==> w.current == Some(w.generation))
    && (w.current.Some? ==> w.current.value in w.threads && w.current.value <= w.generation)
  }

  predicate Sorted(xs: seq<Generation>) { forall i, j :: 0 <= i < j < |xs| ==> xs[i] <= xs[j] }

  predicate EffectsOk(effects: seq<Generation>, generation: Generation) {
    Sorted(effects) && forall i :: 0 <= i < |effects| ==> effects[i] <= generation
  }

  predicate ThreadsInv(w: Worker) {
    forall g :: g in w.threads ==> ThreadInv(w.generation, w.accepting, g, w.threads[g])
  }

  // A stop in progress took a thread of a generation that has ended.
  predicate StopsInv(stops: map<StopId, Option<Generation>>, generation: Generation) {
    forall c :: c in stops && stops[c].Some? ==> stops[c].value < generation
  }

  predicate Inv(s: System) {
    && HoldsCurrent(s.worker) && ThreadsInv(s.worker) && StopsInv(s.stops, s.worker.generation)
    && (forall id :: id in s.inflight ==> s.inflight[id] in s.worker.threads)
    && EffectsOk(s.effects, s.worker.generation)
  }

  lemma RetiredInv(w: Worker, g: Generation)
    requires ThreadsInv(w) && HoldsCurrent(w) && g in w.threads
    ensures g in Retired(w) && ThreadOk(Retired(w)[g]) && Retired(w)[g].passes <= Retired(w)[g].signals
  {
    assert ThreadInv(w.generation, w.accepting, g, w.threads[g]);
  }

  lemma BumpInv(s: System, a: Action)
    requires Inv(s) && Enabled(s, a) && (a.Start? || a.Stop?)
    ensures Inv(Apply(s, a))
  {
    var w, w' := s.worker, Apply(s, a).worker;
    forall g | g in w'.threads
      ensures ThreadInv(w'.generation, w'.accepting, g, w'.threads[g])
    {
      if g in w.threads {
        assert ThreadInv(w.generation, w.accepting, g, w.threads[g]);
        RetiredInv(w, g);
      }
    }
  }

  // A thread moving by itself.
  lemma MoveInv(w: Worker, a: Action, t: Thread)
    requires (a.Wake? && t.stage.Waiting? && t.pending) || (a.Clear? && t.stage.Woken?)
      || (a.CheckStop? && t.stage.Cleared?) || (a.CheckCurrent? && t.stage.Checked?)
      || ((a.Return? || a.Die?) && t.stage.Calling?)
    requires ThreadInv(w.generation, w.accepting, a.g, t)
    ensures ThreadInv(w.generation, w.accepting, a.g, Moved(w, a, t))
  {
  }

  lemma UpdateInv(w: Worker, g: Generation, t: Thread)
    requires ThreadsInv(w) && HoldsCurrent(w) && g in w.threads && ThreadInv(w.generation, w.accepting, g, t)
    ensures ThreadsInv(Update(w, g, t)) && HoldsCurrent(Update(w, g, t))
  {
    forall h | h in Update(w, g, t).threads
      ensures ThreadInv(w.generation, w.accepting, h, Update(w, g, t).threads[h])
    {
      if h != g { assert ThreadInv(w.generation, w.accepting, h, w.threads[h]); }
    }
  }

  predicate IsMove(a: Action) { a.Wake? || a.Clear? || a.CheckStop? || a.CheckCurrent? || a.Return? || a.Die? }

  lemma StepInv(s: System, a: Action)
    requires Inv(s) && Enabled(s, a)
    ensures Inv(Apply(s, a))
  {
    if a.Start? || a.Stop? {
      BumpInv(s, a);
    } else if a.SignalSet? {
      var g := s.inflight[a.id];
      assert ThreadInv(s.worker.generation, s.worker.accepting, g, s.worker.threads[g]);
      UpdateInv(s.worker, g, Signalled(s.worker.threads[g]));
    } else if IsMove(a) {
      assert ThreadInv(s.worker.generation, s.worker.accepting, a.g, s.worker.threads[a.g]);
      MoveInv(s.worker, a, s.worker.threads[a.g]);
      UpdateInv(s.worker, a.g, Moved(s.worker, a, s.worker.threads[a.g]));
    } else if a.Forget? {
      var w, w' := s.worker, Apply(s, a).worker;
      assert w'.threads == w.threads;
      forall g | g in w'.threads ensures ThreadInv(w'.generation, w'.accepting, g, w'.threads[g]) {
        assert ThreadInv(w.generation, w.accepting, g, w.threads[g]);
      }
    }
  }

  lemma {:induction false} RunInv(s: System, run: seq<Action>)
    requires Inv(s) && Feasible(s, run)
    ensures Inv(After(s, run))
    decreases |run|
  {
    if run != [] {
      StepInv(s, run[0]);
      RunInv(Apply(s, run[0]), run[1..]);
    }
  }

  /** Generations never interleave their effects: in every run, all effects of an earlier generation
      come before all effects of a later one. */
  lemma EffectsComeInGenerations(run: seq<Action>)
    requires Feasible(START, run)
    ensures Sorted(After(START, run).effects)
  {
    RunInv(START, run);
  }

  /** Signals coalesce but are not invented: a generation never begins more callback passes than
      signals were set on it, retirement's own wake-up included. */
  lemma PassesAreSignalled(run: seq<Action>, g: Generation)
    requires Feasible(START, run) && g in After(START, run).worker.threads
    ensures After(START, run).worker.threads[g].passes <= After(START, run).worker.threads[g].signals
  {
    RunInv(START, run);
    var w := After(START, run).worker;
    assert ThreadInv(w.generation, w.accepting, g, w.threads[g]);
  }

  // ---- No signal is lost ----------------------------------------------------------------

  // The current generation's living thread owes a pass: a signal was set since its last one began.
  predicate Owes(s: System, g: Generation) {
    && Current(s.worker, g) && Alive(s.worker, g)
    && s.worker.threads[g].served < s.worker.threads[g].signals
  }

  // The steps of its own that the thread is away from beginning a pass.
  function Distance(stage: Stage): nat {
    match stage
    case Checked => 1
    case Cleared => 2
    case Woken => 3
    case Waiting => 4
    case Calling => 5
    case Dead => 6
  }

  function NextStep(g: Generation, stage: Stage): Action {
    match stage
    case Waiting => Wake(g)
    case Woken => Clear(g)
    case Cleared => CheckStop(g)
    case Checked => CheckCurrent(g)
    case Calling => Return(g)
    case Dead => Return(g)
  }

  /** A signal delivered to the current generation leaves it owing a pass. */
  lemma DeliveryOwesAPass(s: System, id: SignalId)
    requires Inv(s) && Enabled(s, SignalSet(id))
    requires Current(s.worker, s.inflight[id]) && Alive(s.worker, s.inflight[id])
    ensures Owes(Apply(s, SignalSet(id)), s.inflight[id])
  {
    var g := s.inflight[id];
    assert ThreadInv(s.worker.generation, s.worker.accepting, g, s.worker.threads[g]);
  }

  // A signal begun while a generation is current is addressed to it.
  lemma SignalsGoToTheCurrent(s: System, id: SignalId)
    requires Inv(s) && Enabled(s, SignalRead(id))
    ensures Apply(s, SignalRead(id))
      == if s.worker.accepting then s.(inflight := s.inflight[id := s.worker.generation]) else s
  {
  }

  /** A thread that owes a pass can always take its next step, and each such step either begins a pass
      that answers every signal so far or brings it one step nearer. */
  lemma OwedPassComesNearer(s: System, g: Generation)
    requires Inv(s) && Owes(s, g)
    ensures var stage := s.worker.threads[g].stage; var a := NextStep(g, stage);
      && Enabled(s, a)
      && var t := Apply(s, a).worker.threads[g];
         if stage.Checked? then
           t.stage.Calling? && t.served == t.signals && t.passes == s.worker.threads[g].passes + 1
         else Owes(Apply(s, a), g) && Distance(t.stage) < Distance(stage)
  {
    assert ThreadInv(s.worker.generation, s.worker.accepting, g, s.worker.threads[g]);
  }

  /** Nothing else sets it back: short of the generation ending or its thread dying, every other step
      leaves the pass owed and no further away. */
  lemma OwedPassIsNotForgotten(s: System, a: Action, g: Generation)
    requires Inv(s) && Owes(s, g) && Enabled(s, a) && !a.Stop? && a != Die(g) && a != CheckCurrent(g)
    ensures Owes(Apply(s, a), g)
    ensures Distance(Apply(s, a).worker.threads[g].stage) <= Distance(s.worker.threads[g].stage)
  {
    assert ThreadInv(s.worker.generation, s.worker.accepting, g, s.worker.threads[g]);
  }

  // The steps of thread `g` itself in a run.
  function OwnSteps(run: seq<Action>, g: Generation): nat
    decreases |run|
  {
    if run == [] then 0 else One(IsMove(run[0]) && run[0].g == g) + OwnSteps(run[1..], g)
  }

  predicate LeavesAlone(run: seq<Action>, g: Generation) {
    forall a :: a in run ==> !a.Stop? && a != Die(g)
  }

  // A pass of `g` begins somewhere in the run.
  predicate BeginsPass(s: System, run: seq<Action>, g: Generation)
    requires Feasible(s, run)
    decreases |run|
  {
    run != [] && ((run[0] == CheckCurrent(g) && Current(s.worker, g)) || BeginsPass(Apply(s, run[0]), run[1..], g))
  }

  /** In any interleaving, once a signal is delivered, a callback pass begins before the thread has
      taken five more of its own steps, unless its generation ends or it dies first. */
  lemma {:induction false} SignalIsServed(s: System, run: seq<Action>, g: Generation)
    requires Inv(s) && Owes(s, g) && Feasible(s, run) && LeavesAlone(run, g)
    requires OwnSteps(run, g) >= Distance(s.worker.threads[g].stage)
    ensures BeginsPass(s, run, g)
    decreases |run|
  {
    var a := run[0];
    if a != CheckCurrent(g) {
      StepInv(s, a);
      OwedPassIsNotForgotten(s, a, g);
      if IsMove(a) && a.g == g { OwedPassComesNearer(s, g); }
      assert forall b :: b in run[1..] ==> b in run;
      SignalIsServed(Apply(s, a), run[1..], g);
    }
  }

  // What is left of the run once signal `id` has been set.
  function Delivered(run: seq<Action>, id: SignalId): seq<Action>
    decreases |run|
  {
    if run == [] then [] else if run[0] == SignalSet(id) then run[1..] else Delivered(run[1..], id)
  }

  // Signal `id` is set somewhere in the run, and a pass of `g` begins after that.
  predicate Answered(s: System, run: seq<Action>, id: SignalId, g: Generation)
    requires Feasible(s, run)
    decreases |run|
  {
    run != [] &&
      if run[0] == SignalSet(id) then BeginsPass(Apply(s, run[0]), run[1..], g)
      else Answered(Apply(s, run[0]), run[1..], id, g)
  }

  // The signal is on its way to the current generation, whose thread lives.
  predicate Underway(s: System, id: SignalId, g: Generation) {
    id in s.inflight && s.inflight[id] == g && Current(s.worker, g) && Alive(s.worker, g)
  }

  lemma UnderwayStays(s: System, a: Action, id: SignalId, g: Generation)
    requires Inv(s) && Underway(s, id, g) && Enabled(s, a) && !a.Stop? && a != Die(g) && a != SignalSet(id)
    ensures Underway(Apply(s, a), id, g)
  {
    assert ThreadInv(s.worker.generation, s.worker.accepting, g, s.worker.threads[g]);
  }

  lemma {:induction false} UnderwayIsServed(s: System, run: seq<Action>, id: SignalId, g: Generation)
    requires Inv(s) && Underway(s, id, g) && Feasible(s, run) && LeavesAlone(run, g)
    requires OwnSteps(Delivered(run, id), g) >= 5
    ensures Answered(s, run, id, g)
    decreases |run|
  {
    var a := run[0];
    assert forall b :: b in run[1..] ==> b in run;
    StepInv(s, a);
    if a == SignalSet(id) {
      DeliveryOwesAPass(s, id);
      SignalIsServed(Apply(s, a), run[1..], g);
    } else {
      UnderwayStays(s, a, id, g);
      UnderwayIsServed(Apply(s, a), run[1..], id, g);
    }
  }

  /** No signal is lost, from the call on: one begun while a generation is current and its thread lives
      is followed by a callback pass of that generation, begun after it was set and before the
      thread has taken five more steps of its own, in any interleaving in which the generation does not
      end and its thread does not die. */
  lemma SignalLeadsToAPass(s: System, id: SignalId, run: seq<Action>)
    requires Inv(s) && Enabled(s, SignalRead(id)) && s.worker.accepting && Alive(s.worker, s.worker.generation)
    requires Feasible(Apply(s, SignalRead(id)), run) && LeavesAlone(run, s.worker.generation)
    requires OwnSteps(Delivered(run, id), s.worker.generation) >= 5
    ensures Answered(Apply(s, SignalRead(id)), run, id, s.worker.generation)
  {
    StepInv(s, SignalRead(id));
    SignalsGoToTheCurrent(s, id);
    UnderwayIsServed(Apply(s, SignalRead(id)), run, id, s.worker.generation);
  }

  // ---- The worker -----------------------------------------------------------------------

  class WatcherRetryWorker {
    var generation: Generation
    var accepting: bool
    var current: Option<Generation>
    var threads: map<Generation, Thread>
    ghost var effects: seq<Generation>     // the leases that ran an effect, in order

    constructor ()
      ensures Value() == START.worker && effects == [] && Valid()
    {
      generation, accepting, current, threads, effects := 0, false, None, map[], [];
    }

    function Value(): Worker
      reads this
    {
      Worker(generation, accepting, current, threads)
    }

    predicate Held()
      reads this
    {
      current.Some? ==> current.value in threads
    }

    // The held thread exists, and effects came in the order of their generations.
    ghost predicate Valid()
      reads this
    {
      Held() && EffectsOk(effects, generation)
    }

    method Start()
      requires Valid()
      modifies this
      ensures Valid() && Value() == StartStep(old(Value())) && effects == old(effects)
    {
      if accepting && current.Some? && !threads[current.value].stage.Dead? { return; }
      RetireThread();
      generation := generation + 1;
      threads := threads[generation := FRESH];
      accepting, current := true, Some(generation);
    }

    method RetireThread()
      requires Held()
      modifies this`threads
      ensures Held() && threads == Retired(old(Value()))
    {
      if current.Some? {
        var t := threads[current.value];
        threads := threads[current.value := t.(stop := true, pending := true)];
      }
    }

    method BeginStop() returns (taken: Option<Generation>)
      requires Valid()
      modifies this
      ensures Valid() && Value() == StopStep(old(Value())) && taken == old(current) && effects == old(effects)
    {
      accepting := false;
      generation := generation + 1;
      taken := current;
      RetireThread();
    }

    method EndStop(taken: Option<Generation>)
      requires Valid() && (taken.Some? ==> taken.value in threads)
      modifies this
      ensures Valid() && Value() == ForgetStep(old(Value()), taken) && effects == old(effects)
    {
      if current == taken && (taken.None? || threads[taken.value].stage.Dead?) { current := None; }
    }

    method BeginSignal() returns (to: Option<Generation>)
      ensures to == Addressee(Value())
    {
      to := if accepting then current else None;
    }

    /** An effect runs under the lock, so no lease of a later generation has run one before it: effects
        stay in the order of their generations, whoever calls this and when. */
    method RunIfCurrent(g: Generation) returns (ran: bool)
      requires Valid()
      modifies this`effects
      ensures Valid() && effects == if ran then old(effects) + [g] else old(effects)
      ensures ran ==> forall h :: h in old(effects) ==> h <= g
      ensures ran <==> Current(Value(), g)
      ensures g < generation ==> EffectsOf(effects, g) == EffectsOf(old(effects), g)
    {
      if !accepting || generation != g { return false; }
      effects := effects + [g];
      return true;
    }
  }
}
