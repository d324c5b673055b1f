/** The gateway's pool of child processes (challenge/gateway_processes.py): at most one per session, kept
    alive by leases while a response is in flight, reaped when idle, evicted when the pool is full, and
    stopped only when quiet.

    A process is alive or has exited.  Which live processes report no active task is an arbitrary answer,
    `quiet`, given to each call; so is the outcome of a launch, and so are the processes that exit between
    an acquire's two polls.

    `Pool` is the manager's dictionary and its processes.  `System` adds the leases handed out, so that
    accounts can be compared with them over whole runs.  The main results come first. */
module ChildProcesses {
  import opened Options

  type SessionId = nat   // an opaque identity: only equality is used
  type ProcessId = nat
  type LeaseId = nat

  datatype Limits = Limits(maxProcesses: int, idle: int)

  datatype ManagedChild = ManagedChild(sid: SessionId, process: ProcessId, lastUsed: int, inFlight: int)

  /** `children` is the ordered dictionary keyed by session; `live` are the launched processes that
      have not exited, whoever owns them; `next` numbers the next launch. */
  datatype Pool = Pool(children: seq<ManagedChild>, live: set<ProcessId>, next: ProcessId)

  function Find(cs: seq<ManagedChild>, sid: SessionId): Option<ManagedChild> {
    if cs == [] then None else if cs[0].sid == sid then Some(cs[0]) else Find(cs[1..], sid)
  }

  function Without(cs: seq<ManagedChild>, sid: SessionId): seq<ManagedChild> {
    if cs == [] then []
    else (if cs[0].sid == sid then [] else [cs[0]]) + Without(cs[1..], sid)
  }

  // The entry of `sid` with its use count changed and its last use at `now`.
  function Touch(cs: seq<ManagedChild>, sid: SessionId, delta: int, now: int): seq<ManagedChild> {
    if cs == [] then []
    else
      [if cs[0].sid == sid then cs[0].(inFlight := cs[0].inFlight + delta, lastUsed := now) else cs[0]]
      + Touch(cs[1..], sid, delta, now)
  }

  // ---- Reaping --------------------------------------------------------------------------

  datatype Reaping = Reaping(kept: seq<ManagedChild>, live: set<ProcessId>, stopped: seq<SessionId>)

  predicate Stays(c: ManagedChild, quiet: set<ProcessId>, now: int, idle: int) {
    c.inFlight != 0 || now - c.lastUsed < idle || c.process !in quiet
  }

  function Reap(cs: seq<ManagedChild>, live: set<ProcessId>, quiet: set<ProcessId>, now: int, idle: int): Reaping {
    if cs == [] then Reaping([], live, [])
    else if cs[0].process !in live then Reap(cs[1..], live, quiet, now, idle)
    else if Stays(cs[0], quiet, now, idle) then
      var rest := Reap(cs[1..], live, quiet, now, idle);
      rest.(kept := [cs[0]] + rest.kept)
    else
      var rest := Reap(cs[1..], live - {cs[0].process}, quiet, now, idle);
      rest.(stopped := [cs[0].sid] + rest.stopped)
  }

  // ---- Making room ----------------------------------------------------------------------

  function Running(cs: seq<ManagedChild>, live: set<ProcessId>): seq<ManagedChild> {
    if cs == [] then [] else (if cs[0].process in live then [cs[0]] else []) + Running(cs[1..], live)
  }

  predicate Evictable(c: ManagedChild, quiet: set<ProcessId>) { c.inFlight == 0 && c.process in quiet }

  // The first least recently used child among those that may be evicted.
  function Victim(cs: seq<ManagedChild>, quiet: set<ProcessId>): Option<ManagedChild> {
    if cs == [] then None
    else
      var rest := Victim(cs[1..], quiet);
      if Evictable(cs[0], quiet) && (rest.Some? ==> cs[0].lastUsed <= rest.value.lastUsed) then Some(cs[0])
      else rest
  }

  function MakeRoom(p: Pool, quiet: set<ProcessId>, max: int): (Pool, bool) {
    var running := Running(p.children, p.live);
    if |running| < max then (p.(children := running), true)
    else
      match Victim(running, quiet)
      case None => (p.(children := running), false)
      case Some(c) => (p.(children := Without(running, c.sid), live := p.live - {c.process}), true)
  }

  // ---- Launching ------------------------------------------------------------------------

  /** How starting a child ends: nothing was launched; it exited; it answered for itself; the deadline
      passed and it was terminated; or the health read raised an error that start-up does not handle,
      which leaves the process running without an owner. */
  datatype Launch = NotLaunched | ExitedEarly | Ready | NeverReady | ReaderRaised

  datatype Health = Unreadable | Foreign | Ours | Unhandled
  datatype Probe = Probe(now: int, exited: bool, health: Health)

  predicate Decisive(p: Probe) { p.exited || p.health.Ours? || p.health.Unhandled? }

  // ---- The lock-held calls --------------------------------------------------------------

  datatype Acquired = Leased(process: ProcessId) | NoCapacity | StartFailed

  // After reaping; the processes in `died` exit between the two polls.
  function Reaped(p: Pool, limits: Limits, now: int, quiet: set<ProcessId>, died: set<ProcessId>): Pool {
    var after := ReapStep(p, limits, now, quiet);
    after.(live := after.live - died)
  }

  predicate Serving(p: Pool, sid: SessionId) {
    Find(p.children, sid).Some? && Find(p.children, sid).value.process in p.live
  }

  // An acquire that finds no running child for its session, and has or makes room for one, starts one.
  predicate Starts(p: Pool, limits: Limits, sid: SessionId, now: int, quiet: set<ProcessId>, died: set<ProcessId>) {
    var p1 := Reaped(p, limits, now, quiet, died);
    !Serving(p1, sid) && MakeRoom(p1.(children := Without(p1.children, sid)), quiet, limits.maxProcesses).1
  }

  function StartStep(p: Pool, limits: Limits, sid: SessionId, now: int, quiet: set<ProcessId>, launch: Launch):
    (Pool, Acquired)
  {
    var (p', room) := MakeRoom(p.(children := Without(p.children, sid)), quiet, limits.maxProcesses);
    if !room then (p', NoCapacity)
    else
      match launch
      case NotLaunched => (p', StartFailed)
      case Ready =>
        (Pool(p'.children + [ManagedChild(sid, p'.next, now, 1)], p'.live + {p'.next}, p'.next + 1), Leased(p'.next))
      case ReaderRaised => (p'.(live := p'.live + {p'.next}, next := p'.next + 1), StartFailed)
      case _ => (p'.(next := p'.next + 1), StartFailed)
  }

  function AcquireStep(p: Pool, limits: Limits, sid: SessionId, now: int, quiet: set<ProcessId>,
                       died: set<ProcessId>, launch: Launch): (Pool, Acquired)
  {
    var p1 := Reaped(p, limits, now, quiet, died);
    if Serving(p1, sid) then
      (p1.(children := Touch(p1.children, sid, 1, now)), Leased(Find(p1.children, sid).value.process))
    else StartStep(p1, limits, sid, now, quiet, launch)
  }

  /** False is the source's error: the lease was released more than once. */
  function ReleaseStep(p: Pool, sid: SessionId, now: int): (Pool, bool) {
    var found := Find(p.children, sid);
    if found.None? then (p, true)
    else if found.value.inFlight < 1 then (p, false)
    else (p.(children := Touch(p.children, sid, -1, now)), true)
  }

  datatype Stopped = NoChild | Busy | Ended

  function StopStep(p: Pool, sid: SessionId, quiet: set<ProcessId>): (Pool, Stopped) {
    var found := Find(p.children, sid);
    if found.None? then (p, NoChild)
    else if found.value.inFlight != 0 || (found.value.process in p.live && found.value.process !in quiet) then (p, Busy)
    else (p.(children := Without(p.children, sid), live := p.live - {found.value.process}), Ended)
  }

  function ReapStep(p: Pool, limits: Limits, now: int, quiet: set<ProcessId>): Pool {
    var r := Reap(p.children, p.live, quiet, now, limits.idle);
    p.(children := r.kept, live := r.live)
  }

  function Processes(cs: seq<ManagedChild>): set<ProcessId> {
    set c | c in cs :: c.process
  }

  function CloseStep(p: Pool): Pool {
    p.(children := [], live := p.live - Processes(p.children))
  }

  // ---- Leases and runs ------------------------------------------------------------------

  datatype Lease = Lease(sid: SessionId, process: ProcessId)

  datatype System = System(pool: Pool, leases: map<LeaseId, Lease>, strays: set<ProcessId>)

  datatype Action =
    | Acquire(lease: LeaseId, sid: SessionId, now: int, quiet: set<ProcessId>, died: set<ProcessId>, launch: Launch)
    | Release(lease: LeaseId, now: int)
    | Stop(sid: SessionId, quiet: set<ProcessId>)
    | ReapIdle(now: int, quiet: set<ProcessId>)
    | CloseAll
    | Exit(process: ProcessId)

  predicate Enabled(s: System, a: Action) {
    match a
    case Acquire(l, _, _, _, _, _) => l !in s.leases
    case Release(l, _) => l in s.leases
    case _ => true
  }

  // A grant adds a lease; a launch abandoned by start-up leaves a stray process.
  function Started(s: System, result: (Pool, Acquired), sid: SessionId, launch: Launch, l: LeaseId): System {
    System(result.0,
           if result.1.Leased? then s.leases[l := Lease(sid, result.1.process)] else s.leases,
           s.strays + if result.0.next > s.pool.next && launch.ReaderRaised? then {s.pool.next} else {})
  }

  function Apply(s: System, limits: Limits, a: Action): System
    requires Enabled(s, a)
  {
    match a
    case Acquire(l, sid, now, quiet, died, launch) =>
      Started(s, AcquireStep(s.pool, limits, sid, now, quiet, died, launch), sid, launch, l)
    case Release(l, now) => System(ReleaseStep(s.pool, s.leases[l].sid, now).0, s.leases - {l}, s.strays)
    case Stop(sid, quiet) => s.(pool := StopStep(s.pool, sid, quiet).0)
    case ReapIdle(now, quiet) => s.(pool := ReapStep(s.pool, limits, now, quiet))
    case CloseAll => s.(pool := CloseStep(s.pool))
    case Exit(process) => s.(pool := s.pool.(live := s.pool.live - {process}))
  }

  function OfSession(leases: map<LeaseId, Lease>, sid: SessionId): set<LeaseId> {
    set l | l in leases && leases[l].sid == sid
  }

  function OnProcess(leases: map<LeaseId, Lease>, process: ProcessId): set<LeaseId> {
    set l | l in leases && leases[l].process == process
  }

  predicate Distinct(cs: seq<ManagedChild>) {
    cs == [] ||
    ((forall c :: c in cs[1..] ==> c.sid != cs[0].sid && c.process != cs[0].process) && Distinct(cs[1..]))
  }

  // ---- The main results; the lemmas they rest on follow ---------------------------------

  /** What reaping keeps and what it ends, exactly: it keeps the running children that are in use, used
      recently or not quiet; it ends the processes of the other running children and nothing else. */
  lemma {:induction false} ReapMembers(cs: seq<ManagedChild>, live: set<ProcessId>, quiet: set<ProcessId>, now: int, idle: int)
    requires Distinct(cs)
    ensures var r := Reap(cs, live, quiet, now, idle);
      && (forall c :: c in r.kept <==> c in cs && c.process in live && Stays(c, quiet, now, idle))
      && |r.kept| <= |cs| && Distinct(r.kept)
      && r.live <= live
      && (forall p :: p in live && p !in r.live <==>
            exists c :: c in cs && c.process == p && p in live && !Stays(c, quiet, now, idle))
  {
    if cs != [] {
      var head, tail := cs[0], cs[1..];
      var live' := if head.process in live && !Stays(head, quiet, now, idle) then live - {head.process} else live;
      ReapMembers(tail, live', quiet, now, idle);
      var rest := Reap(tail, live', quiet, now, idle);
      var r := Reap(cs, live, quiet, now, idle);
      assert forall c :: c in tail ==> (c.process in live' <==> c.process in live);
      assert forall c :: c in cs <==> c == head || c in tail;
      if head.process in live && Stays(head, quiet, now, idle) {
        assert r.kept[1..] == rest.kept;
      }
    }
  }

  /** Eviction takes a least recently used child among those that are unused and quiet, and finds
      none only if there is none. */
  lemma {:induction false} VictimIsOldest(cs: seq<ManagedChild>, quiet: set<ProcessId>)
    ensures var v := Victim(cs, quiet);
      && (v.None? <==> forall c :: c in cs ==> !Evictable(c, quiet))
      && (v.Some? ==> v.value in cs && Evictable(v.value, quiet))
      && (v.Some? ==> forall c :: c in cs && Evictable(c, quiet) ==> v.value.lastUsed <= c.lastUsed)
  {
    if cs != [] {
      VictimIsOldest(cs[1..], quiet);
      assert forall c :: c in cs <==> c == cs[0] || c in cs[1..];
    }
  }

  // ---- Start-up polling -----------------------------------------------------------------

  // The outcome named by the first decisive probe before the deadline.
  function Verdict(probes: seq<Probe>, deadline: int): Launch {
    if probes == [] || probes[0].now >= deadline then NeverReady
    else if probes[0].exited then ExitedEarly
    else if probes[0].health.Ours? then Ready
    else if probes[0].health.Unhandled? then ReaderRaised
    else Verdict(probes[1..], deadline)
  }

  predicate FirstDecisive(probes: seq<Probe>, deadline: int, k: nat)
    requires k < |probes|
  {
    Decisive(probes[k]) && probes[k].now < deadline
    && forall j :: 0 <= j < k ==> probes[j].now < deadline && !Decisive(probes[j])
  }

  /** A start succeeds if and only if some probe before the deadline sees the process alive and
      answering for itself, and every earlier probe was inconclusive. */
  lemma {:induction false} ReadyIff(probes: seq<Probe>, deadline: int)
    ensures Verdict(probes, deadline) == Ready <==>
      exists k :: 0 <= k < |probes| && FirstDecisive(probes, deadline, k) && probes[k].health.Ours? && !probes[k].exited
  {
    if probes != [] {
      var rest := probes[1..];
      ReadyIff(rest, deadline);
      if Verdict(probes, deadline) == Ready && probes[0].now < deadline && !Decisive(probes[0]) {
        var k :| 0 <= k < |rest| && FirstDecisive(rest, deadline, k) && rest[k].health.Ours? && !rest[k].exited;
        assert forall j :: 0 < j <= k + 1 ==> probes[j] == rest[j - 1];
        assert FirstDecisive(probes, deadline, k + 1);
      }
      if k :| 0 < k < |probes| && FirstDecisive(probes, deadline, k) && probes[k].health.Ours? && !probes[k].exited {
        assert forall j :: 0 <= j <= k - 1 ==> rest[j] == probes[j + 1];
        assert FirstDecisive(rest, deadline, k - 1);
      }
    }
  }

  /** The polling loop; `probes` are the clock readings, polls and health reads it will see. */
  method AwaitReady(probes: seq<Probe>, deadline: int) returns (launch: Launch)
    ensures launch == Verdict(probes, deadline)
  {
    var i := 0;
    while i < |probes| && probes[i].now < deadline
      invariant 0 <= i <= |probes|
      invariant Verdict(probes, deadline) == Verdict(probes[i..], deadline)
    {
      if probes[i].exited {
        return ExitedEarly;
      }
      if probes[i].health.Ours? {
        return Ready;
      }
      if probes[i].health.Unhandled? {
        return ReaderRaised;
      }
      i := i + 1;
    }
    launch := NeverReady;
  }

  // ---- Ownership and exact accounts ------------------------------------------------------

  predicate ChildOk(c: ManagedChild, next: ProcessId, leases: map<LeaseId, Lease>) {
    c.process < next && 0 <= c.inFlight <= |OfSession(leases, c.sid)|
  }

  predicate HasProcess(cs: seq<ManagedChild>, p: ProcessId) { exists c :: c in cs && c.process == p }

  /** Every live process is a child of the pool, except those that start-up abandoned; one child per
      session; the pool's cap; and a child's use count never exceeds its session's leases. */
  ghost predicate Owned(s: System, limits: Limits) {
    match s
    case System(Pool(children, live, next), leases, strays) =>
      && Distinct(children) && |children| <= limits.maxProcesses
      && (forall c :: c in children ==> ChildOk(c, next, leases))
      && (forall p :: p in live ==> p < next && (HasProcess(children, p) || p in strays))
      && (forall p :: p in strays ==> p < next && !HasProcess(children, p))
  }

  predicate Serves(cs: seq<ManagedChild>, lease: Lease) {
    exists c :: c in cs && c.sid == lease.sid && c.process == lease.process
  }

  // Use counts are the leases on each process.
  ghost predicate Exact(s: System) {
    forall c :: c in s.pool.children ==> c.inFlight == |OnProcess(s.leases, c.process)|
  }

  // A leased process was launched, and if it is a child's it is its session's.
  predicate Homed(s: System) {
    forall l :: l in s.leases ==>
      && s.leases[l].process < s.pool.next
      && forall c :: c in s.pool.children && c.process == s.leases[l].process ==> c.sid == s.leases[l].sid
  }

  // The manager's child for the lease's session is no longer the one that was leased.
  predicate Replaced(s: System, l: LeaseId)
    requires l in s.leases
  {
    var found := Find(s.pool.children, s.leases[l].sid);
    found.Some? && found.value.process != s.leases[l].process
  }

  predicate ReturnsReplaced(s: System, a: Action)
    requires Enabled(s, a)
  {
    a.Release? && Replaced(s, a.lease)
  }

  predicate Raises(s: System, a: Action)
    requires Enabled(s, a)
  {
    a.Release? && !ReleaseStep(s.pool, s.leases[a.lease].sid, a.now).1
  }

  // Every leased process runs and is owned.
  predicate AllServed(s: System) {
    forall l :: l in s.leases ==> s.leases[l].process in s.pool.live && Serves(s.pool.children, s.leases[l])
  }

  // No leased process exits by itself, and the pool is not closed while a lease is out.
  predicate Calm(s: System, a: Action) {
    match a
    case Acquire(_, _, _, _, died, _) => forall l :: l in s.leases ==> s.leases[l].process !in died
    case Exit(p) => forall l :: l in s.leases ==> s.leases[l].process != p
    case CloseAll => s.leases == map[]
    case _ => true
  }

  predicate AllOwned(p: Pool) { forall q :: q in p.live ==> HasProcess(p.children, q) }

  // The step starts a process, and the health read raises an error that start-up does not handle.
  predicate Abandons(s: System, limits: Limits, a: Action) {
    a.Acquire? && a.launch.ReaderRaised? && Starts(s.pool, limits, a.sid, a.now, a.quiet, a.died)
  }

  /** Releasing a lease raises exactly when its child was replaced by one that nobody uses; so releasing
      a lease whose process still runs as a child finds that child in use. */
  lemma ReleaseRaises(s: System, limits: Limits, l: LeaseId, now: int)
    requires Owned(s, limits) && Exact(s) && Homed(s) && l in s.leases
    ensures Raises(s, Release(l, now)) <==> Replaced(s, l) && Find(s.pool.children, s.leases[l].sid).value.inFlight == 0
    ensures Serves(s.pool.children, s.leases[l]) ==>
      var found := Find(s.pool.children, s.leases[l].sid);
      found.Some? && found.value.process == s.leases[l].process && found.value.inFlight >= 1
  {
    FindMember(s.pool.children, s.leases[l].sid);
    assert l in OnProcess(s.leases, s.leases[l].process);
  }

  // ---- Runs -----------------------------------------------------------------------------

  const Start := System(Pool([], {}, 0), map[], {})

  predicate Feasible(s: System, limits: Limits, run: seq<Action>)
    decreases |run|
  {
    run == [] || (Enabled(s, run[0]) && Feasible(Apply(s, limits, run[0]), limits, run[1..]))
  }

  function After(s: System, limits: Limits, run: seq<Action>): System
    requires Feasible(s, limits, run)
    decreases |run|
  {
    if run == [] then s else After(Apply(s, limits, run[0]), limits, run[1..])
  }

  predicate AllCalm(s: System, limits: Limits, run: seq<Action>)
    requires Feasible(s, limits, run)
    decreases |run|
  {
    run == [] || (Calm(s, run[0]) && AllCalm(Apply(s, limits, run[0]), limits, run[1..]))
  }

  // Accounts are exact at every moment, and no release raises.
  ghost predicate ExactThroughout(s: System, limits: Limits, run: seq<Action>)
    requires Feasible(s, limits, run)
    decreases |run|
  {
    Exact(s) && (run != [] ==> !Raises(s, run[0]) && ExactThroughout(Apply(s, limits, run[0]), limits, run[1..]))
  }

  predicate NeverReturnsReplaced(s: System, limits: Limits, run: seq<Action>)
    requires Feasible(s, limits, run)
    decreases |run|
  {
    run == [] ||
    (!ReturnsReplaced(s, run[0]) && NeverReturnsReplaced(Apply(s, limits, run[0]), limits, run[1..]))
  }

  predicate NeverAbandons(s: System, limits: Limits, run: seq<Action>)
    requires Feasible(s, limits, run)
    decreases |run|
  {
    run == [] || (!Abandons(s, limits, run[0]) && NeverAbandons(Apply(s, limits, run[0]), limits, run[1..]))
  }

  predicate OwnedThroughout(s: System, limits: Limits, run: seq<Action>)
    requires Feasible(s, limits, run)
    decreases |run|
  {
    AllOwned(s.pool) && (run != [] ==> OwnedThroughout(Apply(s, limits, run[0]), limits, run[1..]))
  }

  /** In every run each live process that start-up did not abandon is a child of the pool, with one
      child per session and at most `maxProcesses` of them, and use counts stay within the leases. */
  lemma {:induction false} RunOwned(s: System, limits: Limits, run: seq<Action>)
    requires Owned(s, limits) && Feasible(s, limits, run)
    ensures Owned(After(s, limits, run), limits)
    decreases |run|
  {
    if run != [] {
      StepOwned(s, limits, run[0]);
      RunOwned(Apply(s, limits, run[0]), limits, run[1..]);
    }
  }

  /** Each use count is the number of leases on that process at every moment of a run, and no release
      raises, if and only if no lease is given back after its session's child was replaced.  A leased
      process that exits does no harm by itself. */
  lemma {:induction false} RunExact(s: System, limits: Limits, run: seq<Action>)
    requires Owned(s, limits) && Exact(s) && Homed(s) && Feasible(s, limits, run)
    ensures ExactThroughout(s, limits, run) <==> NeverReturnsReplaced(s, limits, run)
    ensures NeverReturnsReplaced(s, limits, run) ==> Exact(After(s, limits, run)) && Homed(After(s, limits, run))
    decreases |run|
  {
    if run != [] {
      StepOwned(s, limits, run[0]);
      StepExact(s, limits, run[0]);
      if !ReturnsReplaced(s, run[0]) { RunExact(Apply(s, limits, run[0]), limits, run[1..]); }
    }
  }

  /** One step from exact accounts keeps them exact, and does not raise, if and only if it does not give
      back a lease whose child was replaced. */
  lemma StepExact(s: System, limits: Limits, a: Action)
    requires Owned(s, limits) && Exact(s) && Homed(s) && Enabled(s, a)
    ensures Exact(Apply(s, limits, a)) && !Raises(s, a) <==> !ReturnsReplaced(s, a)
    ensures !ReturnsReplaced(s, a) ==> Homed(Apply(s, limits, a))
  {
    match a
    case Acquire(_, _, _, _, _, _) => AcquireExact(s, limits, a);
    case Release(l, now) =>
      if Replaced(s, l) {
        ReplacedInexact(s, limits, l, now);
      } else {
        ReleaseExact(s, limits, l, now);
      }
    case _ =>
      StepKeepsChildren(s, limits, a);
      FewerExact(s, Apply(s, limits, a).pool);
  }

  /** Reaping, eviction and stopping never end a leased child: under exact accounts a running child on
      which a lease is out is still running and owned after any step but its own exit or the closing of
      the pool. */
  lemma LeasedChildStays(s: System, limits: Limits, a: Action, c: ManagedChild, l: LeaseId)
    requires Owned(s, limits) && Exact(s) && Enabled(s, a)
    requires c in s.pool.children && c.process in s.pool.live && l in s.leases && s.leases[l].process == c.process
    requires !a.CloseAll? && a != Exit(c.process) && (a.Acquire? ==> c.process !in a.died)
    ensures c.process in Apply(s, limits, a).pool.live
    ensures Serves(Apply(s, limits, a).pool.children, Lease(c.sid, c.process))
  {
    assert l in OnProcess(s.leases, c.process);
    match a
    case Acquire(_, _, _, _, _, _) => InUseSurvivesAcquire(s.pool, limits, a, c);
    case Release(k, now) =>
      TouchServes(s.pool.children, s.leases[k].sid, -1, now, Lease(c.sid, c.process));
    case Stop(sid, quiet) =>
      FindMember(s.pool.children, sid);
      if StopStep(s.pool, sid, quiet).1.Ended? { EndTrims(s.pool, Find(s.pool.children, sid).value); }
    case ReapIdle(now, quiet) => ReapTrims(s.pool, limits, now, quiet);
    case Exit(p) =>
  }

  /** So in a run in which no leased process exits by itself and the pool is not closed under a lease,
      every leased process runs and is owned until its lease is given back. */
  lemma {:induction false} RunServed(s: System, limits: Limits, run: seq<Action>)
    requires Owned(s, limits) && Exact(s) && AllServed(s) && Feasible(s, limits, run) && AllCalm(s, limits, run)
    ensures AllServed(After(s, limits, run)) && NeverReturnsReplaced(s, limits, run)
    decreases |run|
  {
    if run != [] {
      ServedIsHomed(s, limits);
      StepOwned(s, limits, run[0]);
      StepExact(s, limits, run[0]);
      StepServed(s, limits, run[0]);
      RunServed(Apply(s, limits, run[0]), limits, run[1..]);
    }
  }

  /** One step keeps every live process owned if and only if it does not abandon the process it starts. */
  lemma StepAllOwned(s: System, limits: Limits, a: Action)
    requires Owned(s, limits) && AllOwned(s.pool) && Enabled(s, a)
    ensures AllOwned(Apply(s, limits, a).pool) <==> !Abandons(s, limits, a)
  {
    StepOwned(s, limits, a);
    StepLive(s, limits, a);
    var s' := Apply(s, limits, a);
    if Abandons(s, limits, a) {
      assert s.pool.next in s'.pool.live && s.pool.next in s'.strays;
    } else {
      assert forall q :: q in s'.pool.live && q in s.strays ==> q in s.pool.live;
    }
  }

  lemma {:induction false} RunAllOwned(s: System, limits: Limits, run: seq<Action>)
    requires Owned(s, limits) && AllOwned(s.pool) && Feasible(s, limits, run)
    ensures OwnedThroughout(s, limits, run) <==> NeverAbandons(s, limits, run)
    ensures NeverAbandons(s, limits, run) ==> AllOwned(After(s, limits, run).pool)
    decreases |run|
  {
    if run != [] {
      StepOwned(s, limits, run[0]);
      StepAllOwned(s, limits, run[0]);
      if !Abandons(s, limits, run[0]) { RunAllOwned(Apply(s, limits, run[0]), limits, run[1..]); }
    }
  }

  /** The whole pool property from the start: at every moment each live process is owned, if and only if
      no health read of a starting process raises an error that start-up does not handle; one child per
      session and the cap hold in any case. */
  lemma PoolProperty(limits: Limits, run: seq<Action>)
    requires limits.maxProcesses >= 0 && Feasible(Start, limits, run)
    ensures OwnedThroughout(Start, limits, run) <==> NeverAbandons(Start, limits, run)
    ensures var p := After(Start, limits, run).pool;
      && (NeverAbandons(Start, limits, run) ==> AllOwned(p))
      && |p.children| <= limits.maxProcesses && Distinct(p.children)
  {
    RunAllOwned(Start, limits, run);
    RunOwned(Start, limits, run);
  }

  /** The first launch is enough to leave a live process that nobody owns. */
  lemma AbandonedByTheReader(limits: Limits, sid: SessionId, now: int)
    requires limits.maxProcesses >= 1
    ensures var run := [Acquire(0, sid, now, {}, {}, ReaderRaised)];
      && Feasible(Start, limits, run)
      && var p := After(Start, limits, run).pool; p.live == {0} && !HasProcess(p.children, 0)
  {
    var a := Acquire(0, sid, now, {}, {}, ReaderRaised);
    Unfold(Start, limits, a, []);
    assert [a] + [] == [a];
    assert Apply(Start, limits, a).pool == Pool([], {0}, 1);
  }

  lemma Unfold(s: System, limits: Limits, a: Action, rest: seq<Action>)
    requires Enabled(s, a) && Feasible(Apply(s, limits, a), limits, rest)
    ensures Feasible(s, limits, [a] + rest)
    ensures After(s, limits, [a] + rest) == After(Apply(s, limits, a), limits, rest)
  {
    assert ([a] + rest)[1..] == rest;
  }

  // The first lease starts process 0, which then exits.
  lemma LeaseThenExit(limits: Limits, now: int)
    requires limits.maxProcesses >= 1
    ensures var a0 := Acquire(0, 7, now, {}, {}, Ready);
      && Enabled(Start, a0) && Enabled(Apply(Start, limits, a0), Exit(0))
      && Apply(Apply(Start, limits, a0), limits, Exit(0))
        == System(Pool([ManagedChild(7, 0, now, 1)], {}, 1), map[0 := Lease(7, 0)], {})
  {
    var s1 := Apply(Start, limits, Acquire(0, 7, now, {}, {}, Ready));
    assert s1 == System(Pool([ManagedChild(7, 0, now, 1)], {0}, 1), map[0 := Lease(7, 0)], {});
  }

  // The second lease reaps it and starts process 1.
  lemma LeaseAfterExit(limits: Limits, now: int)
    requires limits.maxProcesses >= 1
    ensures var s := System(Pool([ManagedChild(7, 0, now, 1)], {}, 1), map[0 := Lease(7, 0)], {});
      var a := Acquire(1, 7, now, {}, {}, Ready);
      && Enabled(s, a)
      && Apply(s, limits, a) == System(Pool([ManagedChild(7, 1, now, 1)], {1}, 2), map[0 := Lease(7, 0), 1 := Lease(7, 1)], {})
  {
    var s := System(Pool([ManagedChild(7, 0, now, 1)], {}, 1), map[0 := Lease(7, 0)], {});
    assert Reap([ManagedChild(7, 0, now, 1)], {}, {}, now, limits.idle) == Reaping([], {}, []);
    assert Reaped(s.pool, limits, now, {}, {}) == Pool([], {}, 1);
    assert StartStep(Pool([], {}, 1), limits, 7, now, {}, Ready).0 == Pool([ManagedChild(7, 1, now, 1)], {1}, 2);
  }

  // Giving the first lease back takes the use of process 1 away.
  lemma FirstLeaseReturns(limits: Limits, now: int)
    ensures var s := System(Pool([ManagedChild(7, 1, now, 1)], {1}, 2), map[0 := Lease(7, 0), 1 := Lease(7, 1)], {});
      && Enabled(s, Release(0, now))
      && Apply(s, limits, Release(0, now)) == System(Pool([ManagedChild(7, 1, now, 0)], {1}, 2), map[1 := Lease(7, 1)], {})
  {
    assert Touch([ManagedChild(7, 1, now, 1)], 7, -1, now) == [ManagedChild(7, 1, now, 0)];
    assert map[0 := Lease(7, 0), 1 := Lease(7, 1)] - {0} == map[1 := Lease(7, 1)];
  }

  /** A lease is given back by session, not by process.  When a leased process exits and the session
      gets a new one, the old lease takes the new child's use away, and giving back the new lease
      raises. */
  lemma LeasedExitBreaksTheAccount(limits: Limits, now: int)
    requires limits.maxProcesses >= 1
    ensures var run := [Acquire(0, 7, now, {}, {}, Ready)] + ([Exit(0)] + ([Acquire(1, 7, now, {}, {}, Ready)] + ([Release(0, now)] + [])));
      && Feasible(Start, limits, run)
      && var s := After(Start, limits, run);
         && 1 in s.leases && s.leases[1].process in s.pool.live
         && !ReleaseStep(s.pool, s.leases[1].sid, now).1
  {
    var a0, a2 := Acquire(0, 7, now, {}, {}, Ready), Acquire(1, 7, now, {}, {}, Ready);
    LeaseThenExit(limits, now);
    LeaseAfterExit(limits, now);
    FirstLeaseReturns(limits, now);
    var s1 := Apply(Start, limits, a0);
    var s2 := Apply(s1, limits, Exit(0));
    var s3 := Apply(s2, limits, a2);
    Unfold(s3, limits, Release(0, now), []);
    Unfold(s2, limits, a2, [Release(0, now)] + []);
    Unfold(s1, limits, Exit(0), [a2] + ([Release(0, now)] + []));
    Unfold(Start, limits, a0, [Exit(0)] + ([a2] + ([Release(0, now)] + [])));
  }

  // ---- Facts about the ordered dictionary -----------------------------------------------

  lemma {:induction false} FindMember(cs: seq<ManagedChild>, sid: SessionId)
    ensures var f := Find(cs, sid);
      && (f.Some? ==> f.value in cs && f.value.sid == sid)
      && (f.None? ==> forall c :: c in cs ==> c.sid != sid)
      && (f.Some? && Distinct(cs) ==> forall c :: c in cs && c.sid == sid ==> c == f.value)
  {
    if cs != [] { FindMember(cs[1..], sid); }
  }

  lemma {:induction false} WithoutMembers(cs: seq<ManagedChild>, sid: SessionId)
    ensures var r := Without(cs, sid);
      && (forall c :: c in r <==> c in cs && c.sid != sid)
      && |r| <= |cs| && (Distinct(cs) ==> Distinct(r))
      && (Find(cs, sid).Some? ==> |r| < |cs|)
  {
    if cs != [] {
      WithoutMembers(cs[1..], sid);
      var rest := Without(cs[1..], sid);
      if cs[0].sid == sid {
        assert Without(cs, sid) == rest;
      } else {
        assert Without(cs, sid) == [cs[0]] + rest && ([cs[0]] + rest)[1..] == rest;
      }
    }
  }

  lemma {:induction false} RunningMembers(cs: seq<ManagedChild>, live: set<ProcessId>)
    ensures var r := Running(cs, live);
      && (forall c :: c in r <==> c in cs && c.process in live)
      && |r| <= |cs| && (Distinct(cs) ==> Distinct(r))
  {
    if cs != [] {
      RunningMembers(cs[1..], live);
      var rest := Running(cs[1..], live);
      if cs[0].process in live {
        assert Running(cs, live) == [cs[0]] + rest && ([cs[0]] + rest)[1..] == rest;
      } else {
        assert Running(cs, live) == rest;
      }
    }
  }

  predicate SameChild(a: ManagedChild, b: ManagedChild) { a.sid == b.sid && a.process == b.process }

  lemma {:induction false} TouchMembers(cs: seq<ManagedChild>, sid: SessionId, delta: int, now: int)
    ensures var r := Touch(cs, sid, delta, now);
      && |r| == |cs|
      && (forall i :: 0 <= i < |cs| ==>
            r[i] == if cs[i].sid == sid then cs[i].(inFlight := cs[i].inFlight + delta, lastUsed := now) else cs[i])
  {
    if cs != [] { TouchMembers(cs[1..], sid, delta, now); }
  }

  lemma {:induction false} TouchDistinct(cs: seq<ManagedChild>, sid: SessionId, delta: int, now: int)
    requires Distinct(cs)
    ensures Distinct(Touch(cs, sid, delta, now))
  {
    if cs != [] {
      TouchDistinct(cs[1..], sid, delta, now);
      TouchMembers(cs[1..], sid, delta, now);
      var r := Touch(cs, sid, delta, now);
      assert r[1..] == Touch(cs[1..], sid, delta, now);
      forall c | c in r[1..] ensures c.sid != r[0].sid && c.process != r[0].process {
        var i :| 0 <= i < |r[1..]| && r[1..][i] == c;
        assert cs[1..][i] in cs[1..] && SameChild(c, cs[1..][i]);
      }
    }
  }

  // ---- Losing children keeps ownership ---------------------------------------------------

  // `after` has lost some children of `before`, and none of the lost ones is still running.
  ghost predicate Trimmed(before: Pool, after: Pool) {
    match after
    case Pool(children, live, next) =>
      && next == before.next && live <= before.live
      && Distinct(children) && |children| <= |before.children|
      && (forall c :: c in children ==> c in before.children)
      && (forall c :: c in before.children && c.process in live ==> c in children)
  }

  // ... and the running children in use were not touched.
  ghost predicate Spares(before: Pool, after: Pool) {
    forall c :: c in before.children && c.inFlight != 0 && c.process in before.live ==>
      c in after.children && c.process in after.live
  }

  lemma TrimTwice(a: Pool, b: Pool, c: Pool)
    requires Trimmed(a, b) && Trimmed(b, c)
    ensures Trimmed(a, c)
    ensures Spares(a, b) && Spares(b, c) ==> Spares(a, c)
  {
  }

  lemma TrimOwned(s: System, limits: Limits, after: Pool)
    requires Owned(s, limits) && Trimmed(s.pool, after)
    ensures Owned(s.(pool := after), limits)
  {
    forall p | p in after.live
      ensures p < after.next && (HasProcess(after.children, p) || p in s.strays)
    {
      if HasProcess(s.pool.children, p) {
        var c :| c in s.pool.children && c.process == p;
        assert c in after.children;
      }
    }
  }

  lemma ReapTrims(p: Pool, limits: Limits, now: int, quiet: set<ProcessId>)
    requires Distinct(p.children)
    ensures var after := ReapStep(p, limits, now, quiet);
      && Trimmed(p, after) && Spares(p, after)
      && forall c :: c in after.children ==> c.process in after.live
  {
    ReapMembers(p.children, p.live, quiet, now, limits.idle);
    SameProcessSameChild(p.children);
  }

  lemma {:induction false} SameProcessSameChild(cs: seq<ManagedChild>)
    requires Distinct(cs)
    ensures forall c, d :: c in cs && d in cs && (c.process == d.process || c.sid == d.sid) ==> c == d
  {
    if cs != [] {
      SameProcessSameChild(cs[1..]);
      assert forall c :: c in cs <==> c == cs[0] || c in cs[1..];
    }
  }

  // Dropping the entry of a session that has no running child.
  lemma DropTrims(p: Pool, sid: SessionId)
    requires Distinct(p.children)
    requires Find(p.children, sid).Some? ==> Find(p.children, sid).value.process !in p.live
    ensures var after := p.(children := Without(p.children, sid));
      Trimmed(p, after) && Spares(p, after) && Find(after.children, sid).None?
  {
    WithoutMembers(p.children, sid);
    FindMember(p.children, sid);
    FindMember(Without(p.children, sid), sid);
  }

  // Ending the process of one entry and dropping it.
  lemma EndTrims(p: Pool, c: ManagedChild)
    requires Distinct(p.children) && c in p.children
    ensures var after := p.(children := Without(p.children, c.sid), live := p.live - {c.process});
      Trimmed(p, after) && (c.inFlight == 0 ==> Spares(p, after)) && |after.children| < |p.children|
  {
    WithoutMembers(p.children, c.sid);
    FindMember(p.children, c.sid);
    SameProcessSameChild(p.children);
  }

  lemma MakeRoomTrims(p: Pool, quiet: set<ProcessId>, max: int)
    requires Distinct(p.children) && |p.children| <= max
    ensures var (after, room) := MakeRoom(p, quiet, max);
      && Trimmed(p, after) && Spares(p, after)
      && (room ==> |after.children| < max)
      && (!room ==> forall c :: c in p.children && c.process in p.live ==> !Evictable(c, quiet))
  {
    var running := Running(p.children, p.live);
    RunningMembers(p.children, p.live);
    var mid := p.(children := running);
    VictimIsOldest(running, quiet);
    match Victim(running, quiet)
    case None =>
    case Some(c) =>
      EndTrims(mid, c);
      TrimTwice(p, mid, mid.(children := Without(running, c.sid), live := p.live - {c.process}));
  }

  // ---- Counting leases ------------------------------------------------------------------

  lemma LeaseAdded(leases: map<LeaseId, Lease>, l: LeaseId, lease: Lease)
    requires l !in leases
    ensures forall sid ::
      |OfSession(leases[l := lease], sid)| == |OfSession(leases, sid)| + if sid == lease.sid then 1 else 0
    ensures forall p ::
      |OnProcess(leases[l := lease], p)| == |OnProcess(leases, p)| + if p == lease.process then 1 else 0
  {
    forall sid
      ensures |OfSession(leases[l := lease], sid)| == |OfSession(leases, sid)| + if sid == lease.sid then 1 else 0
    {
      SessionLeaseAdded(leases, l, lease, sid);
    }
    forall p
      ensures |OnProcess(leases[l := lease], p)| == |OnProcess(leases, p)| + if p == lease.process then 1 else 0
    {
      ProcessLeaseAdded(leases, l, lease, p);
    }
  }

  lemma OneMore(before: set<LeaseId>, after: set<LeaseId>, l: LeaseId)
    requires l !in before && l in after && forall k :: k != l ==> (k in after <==> k in before)
    ensures |after| == |before| + 1
  {
    assert after == before + {l};
  }

  lemma SessionLeaseAdded(leases: map<LeaseId, Lease>, l: LeaseId, lease: Lease, sid: SessionId)
    requires l !in leases
    ensures |OfSession(leases[l := lease], sid)| == |OfSession(leases, sid)| + if sid == lease.sid then 1 else 0
  {
    var before, after := OfSession(leases, sid), OfSession(leases[l := lease], sid);
    if sid == lease.sid {
      OneMore(before, after, l);
    } else {
      assert after == before;
    }
  }

  lemma ProcessLeaseAdded(leases: map<LeaseId, Lease>, l: LeaseId, lease: Lease, p: ProcessId)
    requires l !in leases
    ensures |OnProcess(leases[l := lease], p)| == |OnProcess(leases, p)| + if p == lease.process then 1 else 0
  {
    var before, after := OnProcess(leases, p), OnProcess(leases[l := lease], p);
    if p == lease.process {
      OneMore(before, after, l);
    } else {
      assert after == before;
    }
  }

  lemma LeaseDropped(leases: map<LeaseId, Lease>, l: LeaseId)
    requires l in leases
    ensures forall sid ::
      |OfSession(leases - {l}, sid)| == |OfSession(leases, sid)| - if sid == leases[l].sid then 1 else 0
    ensures forall p ::
      |OnProcess(leases - {l}, p)| == |OnProcess(leases, p)| - if p == leases[l].process then 1 else 0
  {
    var after := leases - {l};
    assert after[l := leases[l]] == leases;
    LeaseAdded(after, l, leases[l]);
  }

  // ---- One step keeps ownership ---------------------------------------------------------

  lemma TouchOwned(s: System, limits: Limits, sid: SessionId, now: int, l: LeaseId)
    requires Owned(s, limits) && l !in s.leases && Find(s.pool.children, sid).Some?
    ensures Owned(System(s.pool.(children := Touch(s.pool.children, sid, 1, now)),
                         s.leases[l := Lease(sid, Find(s.pool.children, sid).value.process)], s.strays), limits)
  {
    var cs := s.pool.children;
    var cs' := Touch(cs, sid, 1, now);
    var lease := Lease(sid, Find(cs, sid).value.process);
    TouchMembers(cs, sid, 1, now);
    TouchDistinct(cs, sid, 1, now);
    TouchKeepsProcesses(cs, sid, 1, now);
    LeaseAdded(s.leases, l, lease);
    forall c | c in cs' ensures ChildOk(c, s.pool.next, s.leases[l := lease]) {
      var i :| 0 <= i < |cs'| && cs'[i] == c;
      assert cs[i] in cs;
    }
  }

  lemma TouchKeepsProcesses(cs: seq<ManagedChild>, sid: SessionId, delta: int, now: int)
    ensures forall p :: HasProcess(Touch(cs, sid, delta, now), p) <==> HasProcess(cs, p)
  {
    TouchMembers(cs, sid, delta, now);
    var cs' := Touch(cs, sid, delta, now);
    forall p ensures HasProcess(cs', p) <==> HasProcess(cs, p) {
      if HasProcess(cs, p) {
        var c :| c in cs && c.process == p;
        var i :| 0 <= i < |cs| && cs[i] == c;
        assert cs'[i] in cs' && cs'[i].process == p;
      }
      if HasProcess(cs', p) {
        var c :| c in cs' && c.process == p;
        var i :| 0 <= i < |cs'| && cs'[i] == c;
        assert cs[i] in cs && cs[i].process == p;
      }
    }
  }

  lemma {:induction false} AppendDistinct(cs: seq<ManagedChild>, c: ManagedChild)
    requires Distinct(cs) && forall d :: d in cs ==> d.sid != c.sid && d.process != c.process
    ensures Distinct(cs + [c])
  {
    if cs != [] {
      assert (cs + [c])[1..] == cs[1..] + [c];
      AppendDistinct(cs[1..], c);
    }
  }

  lemma LaunchOwned(s: System, limits: Limits, sid: SessionId, now: int, l: LeaseId)
    requires Owned(s, limits) && l !in s.leases && |s.pool.children| < limits.maxProcesses
    requires Find(s.pool.children, sid).None?
    ensures var p := s.pool;
      Owned(System(Pool(p.children + [ManagedChild(sid, p.next, now, 1)], p.live + {p.next}, p.next + 1),
                   s.leases[l := Lease(sid, p.next)], s.strays), limits)
  {
    var p, c, leases := s.pool, ManagedChild(sid, s.pool.next, now, 1), s.leases[l := Lease(sid, s.pool.next)];
    FindMember(p.children, sid);
    AppendDistinct(p.children, c);
    LeaseAdded(s.leases, l, Lease(sid, p.next));
    var cs := p.children + [c];
    assert forall d :: d in cs <==> d in p.children || d == c;
    assert c in cs;
    forall q ensures HasProcess(cs, q) <==> HasProcess(p.children, q) || q == p.next {
      assert HasProcess(cs, p.next);
    }
  }

  lemma AcquireOwned(s: System, limits: Limits, a: Action)
    requires Owned(s, limits) && Enabled(s, a) && a.Acquire?
    ensures Owned(Apply(s, limits, a), limits)
  {
    var p1 := Reaped(s.pool, limits, a.now, a.quiet, a.died);
    ReapedTrims(s.pool, limits, a.now, a.quiet, a.died);
    TrimOwned(s, limits, p1);
    if Serving(p1, a.sid) {
      TouchOwned(s.(pool := p1), limits, a.sid, a.now, a.lease);
    } else {
      StartOwned(s.(pool := p1), limits, a.sid, a.now, a.quiet, a.launch, a.lease);
    }
  }

  lemma StartOwned(s: System, limits: Limits, sid: SessionId, now: int, quiet: set<ProcessId>, launch: Launch, l: LeaseId)
    requires Owned(s, limits) && l !in s.leases && !Serving(s.pool, sid)
    ensures Owned(Started(s, StartStep(s.pool, limits, sid, now, quiet, launch), sid, launch, l), limits)
  {
    var (p, room) := MakeRoom(s.pool.(children := Without(s.pool.children, sid)), quiet, limits.maxProcesses);
    var t := Started(s, StartStep(s.pool, limits, sid, now, quiet, launch), sid, launch, l);
    StartTrims(s.pool, limits, sid, quiet);
    TrimOwned(s, limits, p);
    var s' := s.(pool := p);
    assert s.strays + {} == s.strays;
    if !room || launch.NotLaunched? {
      assert t == s';
    } else if launch.Ready? {
      LaunchOwned(s', limits, sid, now, l);
    } else {
      StrayOwned(s', limits);
    }
  }

  lemma StrayOwned(s: System, limits: Limits)
    requires Owned(s, limits)
    ensures Owned(System(s.pool.(live := s.pool.live + {s.pool.next}, next := s.pool.next + 1),
                         s.leases, s.strays + {s.pool.next}), limits)
    ensures Owned(s.(pool := s.pool.(next := s.pool.next + 1)), limits)
  {
  }

  lemma ReapedTrims(p: Pool, limits: Limits, now: int, quiet: set<ProcessId>, died: set<ProcessId>)
    requires Distinct(p.children)
    ensures var after := Reaped(p, limits, now, quiet, died);
      Trimmed(p, after) && ((forall c :: c in p.children && c.inFlight != 0 ==> c.process !in died) ==> Spares(p, after))
  {
    ReapTrims(p, limits, now, quiet);
    TrimTwice(p, ReapStep(p, limits, now, quiet), Reaped(p, limits, now, quiet, died));
  }

  lemma StartTrims(p: Pool, limits: Limits, sid: SessionId, quiet: set<ProcessId>)
    requires Distinct(p.children) && |p.children| <= limits.maxProcesses && !Serving(p, sid)
    ensures var (after, room) := MakeRoom(p.(children := Without(p.children, sid)), quiet, limits.maxProcesses);
      && Trimmed(p, after) && Spares(p, after) && Find(after.children, sid).None?
      && (room ==> |after.children| < limits.maxProcesses)
  {
    var dropped := p.(children := Without(p.children, sid));
    var after := MakeRoom(dropped, quiet, limits.maxProcesses).0;
    DropTrims(p, sid);
    MakeRoomTrims(dropped, quiet, limits.maxProcesses);
    TrimTwice(p, dropped, after);
    FindMember(dropped.children, sid);
    FindMember(after.children, sid);
  }

  lemma ReleaseOwned(s: System, limits: Limits, l: LeaseId, now: int)
    requires Owned(s, limits) && l in s.leases
    ensures Owned(Apply(s, limits, Release(l, now)), limits)
  {
    var sid := s.leases[l].sid;
    var cs := s.pool.children;
    var found := Find(cs, sid);
    FindMember(cs, sid);
    LeaseDropped(s.leases, l);
    if found.Some? && found.value.inFlight >= 1 {
      var cs' := Touch(cs, sid, -1, now);
      TouchMembers(cs, sid, -1, now);
      TouchDistinct(cs, sid, -1, now);
      TouchKeepsProcesses(cs, sid, -1, now);
      forall c | c in cs' ensures ChildOk(c, s.pool.next, s.leases - {l}) {
        var i :| 0 <= i < |cs'| && cs'[i] == c;
        assert cs[i] in cs;
      }
    } else {
      forall c | c in cs ensures ChildOk(c, s.pool.next, s.leases - {l}) {
        assert l in OfSession(s.leases, sid);
      }
    }
  }

  lemma StepOwned(s: System, limits: Limits, a: Action)
    requires Owned(s, limits) && Enabled(s, a)
    ensures Owned(Apply(s, limits, a), limits)
  {
    match a
    case Acquire(_, _, _, _, _, _) => AcquireOwned(s, limits, a);
    case Release(l, now) => ReleaseOwned(s, limits, l, now);
    case Stop(sid, quiet) =>
      FindMember(s.pool.children, sid);
      if StopStep(s.pool, sid, quiet).1.Ended? {
        EndTrims(s.pool, Find(s.pool.children, sid).value);
        TrimOwned(s, limits, StopStep(s.pool, sid, quiet).0);
      }
    case ReapIdle(now, quiet) =>
      ReapTrims(s.pool, limits, now, quiet);
      TrimOwned(s, limits, ReapStep(s.pool, limits, now, quiet));
    case CloseAll => TrimOwned(s, limits, CloseStep(s.pool));
    case Exit(p) => TrimOwned(s, limits, s.pool.(live := s.pool.live - {p}));
  }

  // ---- One step keeps the accounts exact -------------------------------------------------

  lemma FewerExact(s: System, after: Pool)
    requires Exact(s) && Homed(s) && after.next == s.pool.next
    requires forall c :: c in after.children ==> c in s.pool.children
    ensures Exact(s.(pool := after)) && Homed(s.(pool := after))
  {
  }

  // A step that neither takes nor gives a lease only loses children.
  lemma StepKeepsChildren(s: System, limits: Limits, a: Action)
    requires Owned(s, limits) && Enabled(s, a) && !a.Acquire? && !a.Release?
    ensures var s' := Apply(s, limits, a);
      && s' == s.(pool := s'.pool) && s'.pool.next == s.pool.next
      && forall c :: c in s'.pool.children ==> c in s.pool.children
  {
    match a
    case Stop(sid, quiet) =>
      FindMember(s.pool.children, sid);
      WithoutMembers(s.pool.children, sid);
    case ReapIdle(now, quiet) => ReapTrims(s.pool, limits, now, quiet);
    case _ =>
  }

  lemma TouchCounts(s: System, sid: SessionId, delta: int, now: int, leases': map<LeaseId, Lease>, c: ManagedChild)
    requires Distinct(s.pool.children) && Exact(s) && Find(s.pool.children, sid).Some?
    requires var held := Find(s.pool.children, sid).value.process;
      |OnProcess(leases', c.process)| == |OnProcess(s.leases, c.process)| + if c.process == held then delta else 0
    requires c in Touch(s.pool.children, sid, delta, now)
    ensures c.inFlight == |OnProcess(leases', c.process)|
  {
    var cs := s.pool.children;
    FindMember(cs, sid);
    TouchMembers(cs, sid, delta, now);
    SameProcessSameChild(cs);
    var i :| 0 <= i < |Touch(cs, sid, delta, now)| && Touch(cs, sid, delta, now)[i] == c;
    assert cs[i] in cs;
  }

  lemma TouchServes(cs: seq<ManagedChild>, sid: SessionId, delta: int, now: int, l: Lease)
    requires Serves(cs, l)
    ensures Serves(Touch(cs, sid, delta, now), l)
  {
    var cs' := Touch(cs, sid, delta, now);
    TouchMembers(cs, sid, delta, now);
    var c :| c in cs && c.sid == l.sid && c.process == l.process;
    var i :| 0 <= i < |cs| && cs[i] == c;
    assert cs'[i] in cs' && SameChild(cs'[i], c);
  }

  lemma TouchExact(s: System, sid: SessionId, delta: int, now: int, leases': map<LeaseId, Lease>)
    requires Distinct(s.pool.children) && Exact(s) && Find(s.pool.children, sid).Some?
    requires var held := Find(s.pool.children, sid).value.process;
      forall p :: |OnProcess(leases', p)| == |OnProcess(s.leases, p)| + if p == held then delta else 0
    ensures Exact(System(s.pool.(children := Touch(s.pool.children, sid, delta, now)), leases', s.strays))
  {
    forall c | c in Touch(s.pool.children, sid, delta, now) ensures c.inFlight == |OnProcess(leases', c.process)| {
      TouchCounts(s, sid, delta, now, leases', c);
    }
  }

  lemma TouchHomed(s: System, sid: SessionId, delta: int, now: int, leases': map<LeaseId, Lease>)
    requires Homed(s) && forall l :: l in leases' ==>
      (l in s.leases && leases'[l] == s.leases[l])
      || (leases'[l].process < s.pool.next
          && forall c :: c in s.pool.children && c.process == leases'[l].process ==> c.sid == leases'[l].sid)
    ensures Homed(System(s.pool.(children := Touch(s.pool.children, sid, delta, now)), leases', s.strays))
  {
    var cs, cs' := s.pool.children, Touch(s.pool.children, sid, delta, now);
    TouchMembers(cs, sid, delta, now);
    forall c | c in cs' ensures exists b :: b in cs && SameChild(b, c) {
      var i :| 0 <= i < |cs'| && cs'[i] == c;
      assert cs[i] in cs && SameChild(cs[i], c);
    }
  }

  lemma LaunchExact(s: System, limits: Limits, sid: SessionId, now: int, l: LeaseId)
    requires Owned(s, limits) && Exact(s) && Homed(s) && l !in s.leases
    ensures var p := s.pool;
      var t := System(Pool(p.children + [ManagedChild(sid, p.next, now, 1)], p.live + {p.next}, p.next + 1),
                      s.leases[l := Lease(sid, p.next)], s.strays);
      Exact(t) && Homed(t)
  {
    var p := s.pool;
    LeaseAdded(s.leases, l, Lease(sid, p.next));
    assert forall d :: d in p.children + [ManagedChild(sid, p.next, now, 1)] <==>
        d in p.children || d == ManagedChild(sid, p.next, now, 1);
    assert OnProcess(s.leases, p.next) == {};
  }

  lemma AcquireExact(s: System, limits: Limits, a: Action)
    requires Owned(s, limits) && Exact(s) && Homed(s) && Enabled(s, a) && a.Acquire?
    ensures Exact(Apply(s, limits, a)) && Homed(Apply(s, limits, a))
  {
    var p1 := Reaped(s.pool, limits, a.now, a.quiet, a.died);
    var s1 := s.(pool := p1);
    ReapedTrims(s.pool, limits, a.now, a.quiet, a.died);
    TrimOwned(s, limits, p1);
    FewerExact(s, p1);
    if Serving(p1, a.sid) {
      var lease := Lease(a.sid, Find(p1.children, a.sid).value.process);
      FindMember(p1.children, a.sid);
      SameProcessSameChild(p1.children);
      LeaseAdded(s.leases, a.lease, lease);
      TouchExact(s1, a.sid, 1, a.now, s.leases[a.lease := lease]);
      TouchHomed(s1, a.sid, 1, a.now, s.leases[a.lease := lease]);
    } else {
      StartExact(s1, limits, a.sid, a.now, a.quiet, a.launch, a.lease);
    }
  }

  lemma StartExact(s: System, limits: Limits, sid: SessionId, now: int, quiet: set<ProcessId>, launch: Launch, l: LeaseId)
    requires Owned(s, limits) && Exact(s) && Homed(s) && l !in s.leases && !Serving(s.pool, sid)
    ensures var t := Started(s, StartStep(s.pool, limits, sid, now, quiet, launch), sid, launch, l); Exact(t) && Homed(t)
  {
    var (p, room) := MakeRoom(s.pool.(children := Without(s.pool.children, sid)), quiet, limits.maxProcesses);
    StartTrims(s.pool, limits, sid, quiet);
    TrimOwned(s, limits, p);
    FewerExact(s, p);
    if room && launch.Ready? {
      LaunchExact(s.(pool := p), limits, sid, now, l);
    }
  }

  lemma ReleaseExact(s: System, limits: Limits, l: LeaseId, now: int)
    requires Owned(s, limits) && Exact(s) && Homed(s) && l in s.leases && !Replaced(s, l)
    ensures !Raises(s, Release(l, now))
    ensures Exact(Apply(s, limits, Release(l, now))) && Homed(Apply(s, limits, Release(l, now)))
  {
    ReleaseRaises(s, limits, l, now);
    LeaseDropped(s.leases, l);
    FindMember(s.pool.children, s.leases[l].sid);
    if Find(s.pool.children, s.leases[l].sid).Some? {
      TouchExact(s, s.leases[l].sid, -1, now, s.leases - {l});
      TouchHomed(s, s.leases[l].sid, -1, now, s.leases - {l});
    }
  }

  // The wrong child's use goes, or there is none to take.
  lemma ReplacedInexact(s: System, limits: Limits, l: LeaseId, now: int)
    requires Owned(s, limits) && Exact(s) && Homed(s) && l in s.leases && Replaced(s, l)
    ensures !Exact(Apply(s, limits, Release(l, now))) || Raises(s, Release(l, now))
  {
    var cs, sid := s.pool.children, s.leases[l].sid;
    var c := Find(cs, sid).value;
    FindMember(cs, sid);
    if c.inFlight >= 1 {
      TouchMembers(cs, sid, -1, now);
      LeaseDropped(s.leases, l);
      var i :| 0 <= i < |cs| && cs[i] == c;
      assert Touch(cs, sid, -1, now)[i] in Apply(s, limits, Release(l, now)).pool.children;
    }
  }

  // ---- One step keeps every lease served -------------------------------------------------

  lemma InUseSurvivesAcquire(p: Pool, limits: Limits, a: Action, c: ManagedChild)
    requires a.Acquire? && Distinct(p.children) && |p.children| <= limits.maxProcesses
    requires c in p.children && c.inFlight != 0 && c.process in p.live && c.process !in a.died
    ensures var after := AcquireStep(p, limits, a.sid, a.now, a.quiet, a.died, a.launch).0;
      c.process in after.live && Serves(after.children, Lease(c.sid, c.process))
  {
    var p1 := Reaped(p, limits, a.now, a.quiet, a.died);
    ReapTrims(p, limits, a.now, a.quiet);
    ReapedTrims(p, limits, a.now, a.quiet, a.died);
    assert c in p1.children && c.process in p1.live;
    if Serving(p1, a.sid) {
      TouchServes(p1.children, a.sid, 1, a.now, Lease(c.sid, c.process));
    } else {
      InUseSurvivesStart(p1, limits, a.sid, a.now, a.quiet, a.launch, c);
    }
  }

  lemma InUseSurvivesStart(p: Pool, limits: Limits, sid: SessionId, now: int, quiet: set<ProcessId>, launch: Launch,
                           c: ManagedChild)
    requires Distinct(p.children) && |p.children| <= limits.maxProcesses && !Serving(p, sid)
    requires c in p.children && c.inFlight != 0 && c.process in p.live
    ensures var after := StartStep(p, limits, sid, now, quiet, launch).0;
      c.process in after.live && Serves(after.children, Lease(c.sid, c.process))
  {
    StartTrims(p, limits, sid, quiet);
    var kept := MakeRoom(p.(children := Without(p.children, sid)), quiet, limits.maxProcesses).0.children;
    assert c in kept && c in kept + [ManagedChild(sid, p.next, now, 1)];
  }

  lemma ServedIsHomed(s: System, limits: Limits)
    requires Owned(s, limits) && AllServed(s)
    ensures Homed(s)
  {
    SameProcessSameChild(s.pool.children);
  }

  // What a new lease is on runs and is owned.
  lemma LeasedIsServed(s: System, limits: Limits, a: Action)
    requires Owned(s, limits) && Enabled(s, a) && a.Acquire? && a.lease in Apply(s, limits, a).leases
    ensures var s' := Apply(s, limits, a);
      s'.leases[a.lease].process in s'.pool.live && Serves(s'.pool.children, s'.leases[a.lease])
  {
    var p1 := Reaped(s.pool, limits, a.now, a.quiet, a.died);
    if Serving(p1, a.sid) {
      FindMember(p1.children, a.sid);
      TouchServes(p1.children, a.sid, 1, a.now, Lease(a.sid, Find(p1.children, a.sid).value.process));
    } else {
      var kept := MakeRoom(p1.(children := Without(p1.children, a.sid)), a.quiet, limits.maxProcesses).0;
      assert ManagedChild(a.sid, kept.next, a.now, 1) in kept.children + [ManagedChild(a.sid, kept.next, a.now, 1)];
    }
  }

  lemma StepServed(s: System, limits: Limits, a: Action)
    requires Owned(s, limits) && Exact(s) && AllServed(s) && Enabled(s, a) && Calm(s, a)
    ensures AllServed(Apply(s, limits, a)) && !ReturnsReplaced(s, a)
  {
    var s' := Apply(s, limits, a);
    if a.Release? { ServedIsNotReplaced(s, a.lease); }
    forall l | l in s'.leases ensures s'.leases[l].process in s'.pool.live && Serves(s'.pool.children, s'.leases[l]) {
      if a.Acquire? && l == a.lease {
        LeasedIsServed(s, limits, a);
      } else {
        assert l in s.leases && s'.leases[l] == s.leases[l];
        var c :| c in s.pool.children && c.sid == s.leases[l].sid && c.process == s.leases[l].process;
        LeasedChildStays(s, limits, a, c, l);
        assert Lease(c.sid, c.process) == s.leases[l];
      }
    }
  }

  lemma ServedIsNotReplaced(s: System, l: LeaseId)
    requires Distinct(s.pool.children) && l in s.leases && Serves(s.pool.children, s.leases[l])
    ensures !Replaced(s, l)
  {
    FindMember(s.pool.children, s.leases[l].sid);
  }

  // ---- What a step can do to the live processes ------------------------------------------

  lemma StartLive(p: Pool, limits: Limits, sid: SessionId, now: int, quiet: set<ProcessId>, launch: Launch)
    requires Distinct(p.children) && |p.children| <= limits.maxProcesses && !Serving(p, sid)
    ensures var after := StartStep(p, limits, sid, now, quiet, launch).0;
      var room := MakeRoom(p.(children := Without(p.children, sid)), quiet, limits.maxProcesses).1;
      && after.live <= p.live + {p.next}
      && (launch.ReaderRaised? ==> (room <==> after.next > p.next) && (room ==> p.next in after.live))
  {
    StartTrims(p, limits, sid, quiet);
  }

  // An acquire ends processes and starts at most the next one.
  lemma AcquireLive(p: Pool, limits: Limits, a: Action)
    requires a.Acquire? && Distinct(p.children) && |p.children| <= limits.maxProcesses
    ensures var after := AcquireStep(p, limits, a.sid, a.now, a.quiet, a.died, a.launch).0;
      && after.live <= p.live - a.died + {p.next}
      && (a.launch.ReaderRaised? ==>
            var started := Starts(p, limits, a.sid, a.now, a.quiet, a.died);
            (started <==> after.next > p.next) && (started ==> p.next in after.live))
  {
    ReapedTrims(p, limits, a.now, a.quiet, a.died);
    var p1 := Reaped(p, limits, a.now, a.quiet, a.died);
    assert p1.live <= p.live - a.died;
    if !Serving(p1, a.sid) { StartLive(p1, limits, a.sid, a.now, a.quiet, a.launch); }
  }

  // So does a step, and it abandons the one it starts exactly when it adds to the strays.
  lemma StepLive(s: System, limits: Limits, a: Action)
    requires Owned(s, limits) && Enabled(s, a)
    ensures var s' := Apply(s, limits, a);
      && s'.pool.live <= s.pool.live + {s.pool.next}
      && (Abandons(s, limits, a) ==> s.pool.next in s'.pool.live)
      && s'.strays == if Abandons(s, limits, a) then s.strays + {s.pool.next} else s.strays
  {
    if a.Acquire? {
      AcquireLive(s.pool, limits, a);
      assert s.strays + {} == s.strays;
    } else if a.ReapIdle? {
      ReapTrims(s.pool, limits, a.now, a.quiet);
    }
  }

  // ---- Where the children of a pool come from -------------------------------------------

  // Each child of `after` was a child of `before`, of the same session and process.
  ghost predicate From(before: seq<ManagedChild>, after: seq<ManagedChild>) {
    forall c :: c in after ==> exists b :: b in before && SameChild(b, c)
  }

  lemma FromSubset(before: seq<ManagedChild>, after: seq<ManagedChild>)
    requires forall c :: c in after ==> c in before
    ensures From(before, after)
  {
    forall c | c in after ensures exists b :: b in before && SameChild(b, c) {
      assert SameChild(c, c);
    }
  }

  lemma TouchFrom(cs: seq<ManagedChild>, sid: SessionId, delta: int, now: int)
    ensures From(cs, Touch(cs, sid, delta, now))
  {
    TouchMembers(cs, sid, delta, now);
    var after := Touch(cs, sid, delta, now);
    forall c | c in after ensures exists b :: b in cs && SameChild(b, c) {
      var i :| 0 <= i < |after| && after[i] == c;
      assert cs[i] in cs && SameChild(cs[i], c);
    }
  }

  /** An acquire adds at most one child: its session's, running the process just launched. */
  lemma AcquireFrom(p: Pool, limits: Limits, sid: SessionId, now: int, quiet: set<ProcessId>, died: set<ProcessId>, launch: Launch)
    returns (kept: seq<ManagedChild>)
    requires Distinct(p.children) && |p.children| <= limits.maxProcesses
    ensures From(p.children, kept)
    ensures var (after, result) := AcquireStep(p, limits, sid, now, quiet, died, launch);
      && p.next <= after.next <= p.next + 1
      && (after.children == kept ||
          (!launch.NotLaunched? && after.next == p.next + 1
           && after.children == kept + [ManagedChild(sid, p.next, now, 1)]))
      && (result.Leased? ==> !launch.NotLaunched? || exists b :: b in p.children && b.sid == sid)
  {
    var p1 := Reaped(p, limits, now, quiet, died);
    ReapedTrims(p, limits, now, quiet, died);
    if Serving(p1, sid) {
      kept := Touch(p1.children, sid, 1, now);
      FindMember(p1.children, sid);
      TouchFrom(p1.children, sid, 1, now);
    } else {
      kept := MakeRoom(p1.(children := Without(p1.children, sid)), quiet, limits.maxProcesses).0.children;
      StartTrims(p1, limits, sid, quiet);
      FromSubset(p.children, kept);
    }
  }

  lemma {:induction false} ReapShrinks(cs: seq<ManagedChild>, live: set<ProcessId>, quiet: set<ProcessId>, now: int, idle: int)
    ensures Reap(cs, live, quiet, now, idle).live <= live
  {
    if cs != [] {
      ReapShrinks(cs[1..], live, quiet, now, idle);
      ReapShrinks(cs[1..], live - {cs[0].process}, quiet, now, idle);
    }
  }

  lemma RoomAddsNobody(p: Pool, quiet: set<ProcessId>, max: int, sid: SessionId)
    requires Find(p.children, sid).None?
    ensures Find(MakeRoom(p, quiet, max).0.children, sid).None?
  {
    var running := Running(p.children, p.live);
    FindMember(p.children, sid);
    RunningMembers(p.children, p.live);
    FindMember(running, sid);
    if Victim(running, quiet).Some? {
      var kept := Without(running, Victim(running, quiet).value.sid);
      WithoutMembers(running, Victim(running, quiet).value.sid);
      FindMember(kept, sid);
    }
  }

  lemma {:induction false} TouchLast(cs: seq<ManagedChild>, c: ManagedChild, delta: int, now: int)
    requires Find(cs, c.sid).None?
    ensures Touch(cs + [c], c.sid, delta, now) == cs + [c.(inFlight := c.inFlight + delta, lastUsed := now)]
  {
    if cs != [] {
      assert (cs + [c])[1..] == cs[1..] + [c];
      TouchLast(cs[1..], c, delta, now);
    }
  }

  // ---- The manager's fields, updated in place -------------------------------------------

  class ChildProcessManager {
    const limits: Limits
    var children: seq<ManagedChild>
    var live: set<ProcessId>
    var next: ProcessId

    function View(): Pool
      reads this
    {
      Pool(children, live, next)
    }

    constructor (limits: Limits)
      ensures this.limits == limits && View() == Start.pool
    {
      this.limits := limits;
      children, live, next := [], {}, 0;
    }

    method ReapIdle(now: int, quiet: set<ProcessId>) returns (stopped: seq<SessionId>)
      modifies this`children, this`live
      ensures View() == ReapStep(old(View()), limits, now, quiet)
      ensures stopped == Reap(old(children), old(live), quiet, now, limits.idle).stopped
    {
      var all := children;
      ghost var whole := Reap(all, live, quiet, now, limits.idle);
      var kept := [];
      stopped := [];
      var i := 0;
      while i < |all|
        invariant 0 <= i <= |all|
        invariant children == kept + all[i..]
        invariant var rest := Reap(all[i..], live, quiet, now, limits.idle);
          whole == Reaping(kept + rest.kept, rest.live, stopped + rest.stopped)
      {
        var child := all[i];
        ghost var rest := Reap(all[i..], live, quiet, now, limits.idle);
        ghost var after := Reap(all[i + 1..],
          if child.process in live && !Stays(child, quiet, now, limits.idle) then live - {child.process} else live,
          quiet, now, limits.idle);
        assert all[i..] == [child] + all[i + 1..];
        if child.process !in live {
          children := kept + all[i + 1..];
        } else if child.inFlight != 0 || now - child.lastUsed < limits.idle || child.process !in quiet {
          assert kept + ([child] + after.kept) == (kept + [child]) + after.kept;
          kept := kept + [child];
          children := kept + all[i + 1..];
        } else {
          assert stopped + ([child.sid] + after.stopped) == (stopped + [child.sid]) + after.stopped;
          live := live - {child.process};
          children := kept + all[i + 1..];
          stopped := stopped + [child.sid];
        }
        i := i + 1;
      }
    }

    method MakeProcessRoom(quiet: set<ProcessId>) returns (room: bool)
      modifies this`children, this`live
      ensures (View(), room) == MakeRoom(old(View()), quiet, limits.maxProcesses)
    {
      children := Running(children, live);
      if |children| < limits.maxProcesses {
        return true;
      }
      var victim: Option<ManagedChild> := None;
      var i := |children|;
      while i > 0
        invariant 0 <= i <= |children|
        invariant victim == Victim(children[i..], quiet)
      {
        i := i - 1;
        assert children[i..][1..] == children[i + 1..];
        if Evictable(children[i], quiet) && (victim.Some? ==> children[i].lastUsed <= victim.value.lastUsed) {
          victim := Some(children[i]);
        }
      }
      assert children[0..] == children;
      if victim.None? {
        return false;
      }
      live := live - {victim.value.process};
      children := Without(children, victim.value.sid);
      room := true;
    }

    // Launched processes are numbered before `next`.
    predicate Numbered()
      reads this
    {
      forall p :: p in live ==> p < next
    }

    method StartChild(sid: SessionId, now: int, launch: Launch) returns (child: Option<ManagedChild>)
      requires Numbered()
      modifies this`live, this`next
      ensures child == if launch.Ready? then Some(ManagedChild(sid, old(next), now, 0)) else None
      ensures live == if launch.Ready? || launch.ReaderRaised? then old(live) + {old(next)} else old(live)
      ensures next == old(next) + if launch.NotLaunched? then 0 else 1
    {
      if launch.NotLaunched? {
        return None;
      }
      var process := next;
      next := next + 1;
      live := live + {process};
      if launch.ExitedEarly? || launch.NeverReady? {
        live := live - {process};
      }
      child := if launch.Ready? then Some(ManagedChild(sid, process, now, 0)) else None;
    }

    // The part of an acquire that runs when no running child serves the session.
    method Launch(sid: SessionId, now: int, quiet: set<ProcessId>, launch: Launch) returns (result: Acquired)
      requires Numbered()
      modifies this
      ensures (View(), result) == StartStep(old(View()), limits, sid, now, quiet, launch)
    {
      children := Without(children, sid);
      WithoutMembers(old(children), sid);
      FindMember(children, sid);
      RoomAddsNobody(View(), quiet, limits.maxProcesses, sid);
      var room := MakeProcessRoom(quiet);
      if !room {
        return NoCapacity;
      }
      var child := StartChild(sid, now, launch);
      if child.None? {
        return StartFailed;
      }
      TouchLast(children, child.value, 1, now);
      children := children + [child.value];
      children := Touch(children, sid, 1, now);
      result := Leased(child.value.process);
    }

    method Acquire(sid: SessionId, now: int, quiet: set<ProcessId>, died: set<ProcessId>, launch: Launch)
      returns (result: Acquired)
      requires Numbered()
      modifies this
      ensures (View(), result) == AcquireStep(old(View()), limits, sid, now, quiet, died, launch)
    {
      ReapShrinks(children, live, quiet, now, limits.idle);
      var _ := ReapIdle(now, quiet);
      live := live - died;
      var child := Find(children, sid);
      if child.None? || child.value.process !in live {
        result := Launch(sid, now, quiet, launch);
      } else {
        children := Touch(children, sid, 1, now);
        result := Leased(child.value.process);
      }
    }

    method Release(sid: SessionId, now: int) returns (ok: bool)
      modifies this`children
      ensures (View(), ok) == ReleaseStep(old(View()), sid, now)
    {
      var child := Find(children, sid);
      if child.None? {
        return true;
      }
      ok := !(child.value.inFlight < 1);
      if ok {
        children := Touch(children, sid, -1, now);
      }
    }

    method StopQuiescent(sid: SessionId, quiet: set<ProcessId>) returns (stopped: Stopped)
      modifies this`children, this`live
      ensures (View(), stopped) == StopStep(old(View()), sid, quiet)
    {
      var child := Find(children, sid);
      if child.None? {
        return NoChild;
      }
      if child.value.inFlight != 0 {
        return Busy;
      }
      if !(child.value.process !in live || child.value.process in quiet) {
        return Busy;
      }
      live := live - {child.value.process};
      children := Without(children, sid);
      stopped := Ended;
    }

    method CloseAll()
      modifies this`children, this`live
      ensures View() == CloseStep(old(View()))
    {
      var all := children;
      children := [];
      var i := 0;
      while i < |all|
        invariant 0 <= i <= |all|
        invariant children == []
        invariant live == old(live) - Processes(all[..i])
      {
        assert all[..i + 1] == all[..i] + [all[i]];
        live := live - {all[i].process};
        i := i + 1;
      }
      assert all[..i] == all;
    }
  }

  class ChildLease {
    const manager: ChildProcessManager
    const sid: SessionId
    var released: bool

    constructor (manager: ChildProcessManager, sid: SessionId)
      ensures this.manager == manager && this.sid == sid && !released
    {
      this.manager, this.sid, released := manager, sid, false;
    }

    // Releasing again changes nothing and raises nothing.
    method Release(now: int) returns (ok: bool)
      modifies this`released, manager`children
      ensures released
      ensures old(released) ==> ok && manager.View() == old(manager.View())
      ensures !old(released) ==> (manager.View(), ok) == ReleaseStep(old(manager.View()), sid, now)
    {
      if released {
        return true;
      }
      released := true;
      ok := manager.Release(sid, now);
    }
  }
}
