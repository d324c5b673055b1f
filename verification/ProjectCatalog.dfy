/** Single-flight project opening racing with project deletion.

    `Catalog` holds the four fields that the lock-held blocks of the source read and
    write, together with the store's registration set and the futures handed to waiters.
    Each lock-held block is one function on `Catalog`; the class at the end of the module
    carries the same blocks as methods that update fields in place.  `System` adds one
    program counter per thread, and `Inv` is the inductive invariant over every
    interleaving of any number of openers, waiters and deleters.
 */
module ProjectOpening {
  type ProjectId = nat   // an opaque identity: only equality is used
  type Service = nat
  type Thread = nat
  type FutureId = nat

  datatype Attempt = Pending | Opened(service: Service) | Failed

  datatype Catalog = Catalog(
    registered: set<ProjectId>,
    services: map<ProjectId, Service>,
    opening: map<ProjectId, FutureId>,
    deleting: set<ProjectId>,
    futures: seq<Attempt>)

  datatype Claim = Refused | Cached(service: Service) | Wait(future: FutureId) | Own(future: FutureId)

  // ---- The lock-held blocks -------------------------------------------------------------

  function ClaimBlock(c: Catalog, p: ProjectId): (Catalog, Claim) {
    if p in c.deleting then (c, Refused)
    else if p in c.services then (c, Cached(c.services[p]))
    else if p in c.opening then (c, Wait(c.opening[p]))
    else
      var f := |c.futures|;
      (c.(opening := c.opening[p := f], futures := c.futures + [Pending]), Own(f))
  }

  function AbandonBlock(c: Catalog, p: ProjectId): Catalog {
    c.(opening := c.opening - {p})
  }

  function Resolve(c: Catalog, f: FutureId, a: Attempt): Catalog {
    if f < |c.futures| then c.(futures := c.futures[f := a]) else c
  }

  /** Installs the service and answers the waiters, unless a delete has begun: then the claim is
      dropped and the answer, an error, follows outside the lock. */
  function InstallBlock(c: Catalog, p: ProjectId, f: FutureId, service: Service): (Catalog, bool) {
    if p in c.deleting then (AbandonBlock(c, p), false)
    else
      (Resolve(AbandonBlock(c, p).(services := c.services[p := service]), f, Opened(service)), true)
  }

  datatype DeleteClaim = Unknown | Proceed(opening: FutureId) | ProceedAtOnce

  function BeginDeleteBlock(c: Catalog, p: ProjectId): (Catalog, DeleteClaim) {
    if p !in c.registered || p in c.deleting then (c, Unknown)
    else
      (c.(deleting := c.deleting + {p}, services := c.services - {p}),
       if p in c.opening then Proceed(c.opening[p]) else ProceedAtOnce)
  }

  function EndDeleteBlock(c: Catalog, p: ProjectId): Catalog {
    c.(deleting := c.deleting - {p})
  }

  // ---- Threads --------------------------------------------------------------------------

  datatype Stage =
    | Checked             // identity read, lock not yet taken
    | Claimed             // owner of the single flight, record not yet read
    | Loading             // owner, record read inside the open
    | Loaded(service: Service)
    | Broken              // the open raised, claim still held
    | Unclaimed           // claim dropped, waiters not yet told
    | Waiting
    | Returned(answer: Service)
    | Raised
    | Draining            // deleter waiting for the open it captured
    | Removing            // deleter past its wait
    | Closing             // deleter about to drop its mark
    | Deleted

  datatype Pc = Pc(stage: Stage, project: ProjectId, future: FutureId)

  datatype System = System(
    catalog: Catalog,
    threads: map<Thread, Pc>,
    owners: seq<Thread>,                 // who created each future
    deleters: map<ProjectId, Thread>)    // who placed each deletion mark

  datatype Action =
    | Register(project: ProjectId)
    | CheckIdentity(t: Thread, project: ProjectId)
    | TakeClaim(t: Thread)
    | ReadRecord(t: Thread)
    | OpenReturns(t: Thread, service: Service)
    | OpenRaises(t: Thread)
    | Abandon(t: Thread)
    | TellWaiters(t: Thread)
    | Install(t: Thread)
    | Await(t: Thread)
    | BeginDelete(t: Thread, project: ProjectId)
    | AwaitOpening(t: Thread)
    | RemoveRecord(t: Thread)
    | RemovalRaises(t: Thread)
    | EndDelete(t: Thread)

  predicate At(s: System, t: Thread, stage: Stage) { t in s.threads && s.threads[t].stage == stage }

  predicate Settled(s: System, f: FutureId) {
    f < |s.catalog.futures| && s.catalog.futures[f] != Pending
  }

  predicate Enabled(s: System, a: Action) {
    match a
    case Register(p) => true
    case CheckIdentity(t, p) => t !in s.threads && p in s.catalog.registered
    case TakeClaim(t) => At(s, t, Checked)
    case ReadRecord(t) => At(s, t, Claimed)
    case OpenReturns(t, _) => At(s, t, Loading)
    case OpenRaises(t) => At(s, t, Loading)
    case Abandon(t) => At(s, t, Broken)
    case TellWaiters(t) => At(s, t, Unclaimed)
    case Install(t) => t in s.threads && s.threads[t].stage.Loaded?
    case Await(t) => At(s, t, Waiting) && Settled(s, s.threads[t].future)
    case BeginDelete(t, p) => t !in s.threads && BeginDeleteBlock(s.catalog, p).1 != Unknown
    case AwaitOpening(t) => At(s, t, Draining) && Settled(s, s.threads[t].future)
    case RemoveRecord(t) => At(s, t, Removing)
    case RemovalRaises(t) => At(s, t, Removing)
    case EndDelete(t) => At(s, t, Closing)
  }

  function Goto(s: System, c: Catalog, t: Thread, pc: Pc): System {
    s.(catalog := c, threads := s.threads[t := pc])
  }

  function Apply(s: System, a: Action): System
    requires Enabled(s, a)
  {
    var c := s.catalog;
    match a
    case Register(p) => s.(catalog := c.(registered := c.registered + {p}))
    case CheckIdentity(t, p) => Goto(s, c, t, Pc(Checked, p, 0))
    case TakeClaim(t) =>
      var pc := s.threads[t];
      var (c', claim) := ClaimBlock(c, pc.project);
      (match claim
       case Refused => Goto(s, c', t, pc.(stage := Raised))
       case Cached(service) => Goto(s, c', t, pc.(stage := Returned(service)))
       case Wait(f) => Goto(s, c', t, pc.(stage := Waiting, future := f))
       case Own(f) => Goto(s, c', t, pc.(stage := Claimed, future := f)).(owners := s.owners + [t]))
    case ReadRecord(t) =>
      var pc := s.threads[t];
      Goto(s, c, t, pc.(stage := if pc.project in c.registered then Loading else Broken))
    case OpenReturns(t, service) => Goto(s, c, t, s.threads[t].(stage := Loaded(service)))
    case OpenRaises(t) => Goto(s, c, t, s.threads[t].(stage := Broken))
    case Abandon(t) =>
      var pc := s.threads[t];
      Goto(s, AbandonBlock(c, pc.project), t, pc.(stage := Unclaimed))
    case TellWaiters(t) =>
      var pc := s.threads[t];
      Goto(s, Resolve(c, pc.future, Failed), t, pc.(stage := Raised))
    case Install(t) =>
      var pc := s.threads[t];
      var (c', installed) := InstallBlock(c, pc.project, pc.future, pc.stage.service);
      Goto(s, c', t, pc.(stage := if installed then Returned(pc.stage.service) else Unclaimed))
    case Await(t) =>
      var pc := s.threads[t];
      var answer := c.futures[pc.future];
      Goto(s, c, t, pc.(stage := if answer.Opened? then Returned(answer.service) else Raised))
    case BeginDelete(t, p) =>
      var (c', claim) := BeginDeleteBlock(c, p);
      Goto(s, c', t, if claim.Proceed? then Pc(Draining, p, claim.opening) else Pc(Removing, p, 0))
        .(deleters := s.deleters[p := t])
    case AwaitOpening(t) => Goto(s, c, t, s.threads[t].(stage := Removing))
    case RemoveRecord(t) =>
      var pc := s.threads[t];
      Goto(s, c.(registered := c.registered - {pc.project}), t, pc.(stage := Closing))
    case RemovalRaises(t) => Goto(s, c, t, s.threads[t].(stage := Closing))
    case EndDelete(t) =>
      var pc := s.threads[t];
      Goto(s, EndDeleteBlock(c, pc.project), t, pc.(stage := Deleted))
        .(deleters := s.deleters - {pc.project})
  }

  function Start(registered: set<ProjectId>): System {
    System(Catalog(registered, map[], map[], {}, []), map[], [], map[])
  }

  // A schedule is any finite sequence of actions, each enabled where it is taken.
  predicate Feasible(s: System, schedule: seq<Action>)
    decreases |schedule|
  {
    schedule == [] || (Enabled(s, schedule[0]) && Feasible(Apply(s, schedule[0]), schedule[1..]))
  }

  function After(s: System, schedule: seq<Action>): System
    requires Feasible(s, schedule)
    decreases |schedule|
  {
    if schedule == [] then s else After(Apply(s, schedule[0]), schedule[1..])
  }

  // ---- The invariant --------------------------------------------------------------------

  predicate HoldsClaim(st: Stage) { st.Claimed? || st.Loading? || st.Loaded? || st.Broken? }
  predicate OwesAnswer(st: Stage) { HoldsClaim(st) || st.Unclaimed? }
  predicate Deletes(st: Stage) { st.Draining? || st.Removing? || st.Closing? }

  // What a thread at `pc` knows of the shared fields, whatever the other threads do.
  predicate ThreadOk(c: Catalog, owners: seq<Thread>, deleters: map<ProjectId, Thread>, t: Thread, pc: Pc) {
    && (OwesAnswer(pc.stage) ==>
          pc.future < |owners| == |c.futures| && owners[pc.future] == t && c.futures[pc.future] == Pending)
    && (HoldsClaim(pc.stage) ==> pc.project in c.opening && c.opening[pc.project] == pc.future)
    && (pc.stage.Waiting? || pc.stage.Draining? ==> pc.future < |owners|)
    && (Deletes(pc.stage) ==> pc.project in deleters && deleters[pc.project] == t)
    && (pc.stage.Draining? && pc.project in c.opening ==> c.opening[pc.project] == pc.future)
    // The heart of the protocol: past its wait a deleter knows that nobody can still install.
    && (pc.stage.Removing? || pc.stage.Closing? ==> pc.project !in c.opening)
    && (pc.stage.Loading? || pc.stage.Loaded? ==> pc.project in c.registered)
  }

  // A live thread still owes the answer of future `f`.
  predicate AnswerOwed(threads: map<Thread, Pc>, owners: seq<Thread>, f: FutureId) {
    f < |owners| && owners[f] in threads
    && OwesAnswer(threads[owners[f]].stage) && threads[owners[f]].future == f
  }

  // The live thread that owes the answer of `f` holds the claim on project `p`.
  predicate ClaimHeld(threads: map<Thread, Pc>, owners: seq<Thread>, p: ProjectId, f: FutureId) {
    AnswerOwed(threads, owners, f)
    && HoldsClaim(threads[owners[f]].stage) && threads[owners[f]].project == p
  }

  // A live deleter stands behind the mark on project `p`.
  predicate MarkHeld(threads: map<Thread, Pc>, deleters: map<ProjectId, Thread>, p: ProjectId) {
    p in deleters && deleters[p] in threads
    && Deletes(threads[deleters[p]].stage) && threads[deleters[p]].project == p
  }

  predicate ServiceOk(c: Catalog, p: ProjectId) {
    p in c.registered && p !in c.opening && p !in c.deleting
  }

  ghost predicate Inv(s: System) {
    var c := s.catalog;
    && |s.owners| == |c.futures|
    && s.deleters.Keys == c.deleting
    && (forall t :: t in s.threads ==> ThreadOk(c, s.owners, s.deleters, t, s.threads[t]))
    && (forall f: FutureId :: f < |c.futures| && c.futures[f] == Pending ==> AnswerOwed(s.threads, s.owners, f))
    && (forall p :: p in c.opening ==> ClaimHeld(s.threads, s.owners, p, c.opening[p]))
    && (forall p :: p in c.deleting ==> MarkHeld(s.threads, s.deleters, p))
    && (forall p :: p in c.services ==> ServiceOk(c, p))
  }

  lemma StartInv(registered: set<ProjectId>)
    ensures Inv(Start(registered))
  {
  }

  // Moving one program counter keeps the invariant when the thread keeps its roles.
  ghost predicate KeepsRoles(s: System, t: Thread, pc: Pc) {
    var was := if t in s.threads then s.threads[t] else pc.(stage := Raised);
    && (OwesAnswer(pc.stage) <==> OwesAnswer(was.stage))
    && (HoldsClaim(pc.stage) <==> HoldsClaim(was.stage))
    && (Deletes(pc.stage) <==> Deletes(was.stage))
    && (OwesAnswer(pc.stage) || Deletes(pc.stage) ==> pc.project == was.project && pc.future == was.future)
    && ThreadOk(s.catalog, s.owners, s.deleters, t, pc)
  }

  lemma MoveInv(s: System, t: Thread, pc: Pc)
    requires Inv(s) && KeepsRoles(s, t, pc)
    ensures Inv(Goto(s, s.catalog, t, pc))
  {
  }

  lemma OwnInv(s: System, t: Thread)
    requires Inv(s) && Enabled(s, TakeClaim(t)) && ClaimBlock(s.catalog, s.threads[t].project).1.Own?
    ensures Inv(Apply(s, TakeClaim(t)))
  {
  }

  lemma AbandonInv(s: System, t: Thread)
    requires Inv(s) && t in s.threads && (s.threads[t].stage.Broken? || s.threads[t].stage.Loaded?)
    ensures Inv(Goto(s, AbandonBlock(s.catalog, s.threads[t].project), t, s.threads[t].(stage := Unclaimed)))
  {
  }

  lemma TellInv(s: System, t: Thread)
    requires Inv(s) && Enabled(s, TellWaiters(t))
    ensures Inv(Apply(s, TellWaiters(t)))
  {
  }

  lemma InstallInv(s: System, t: Thread)
    requires Inv(s) && Enabled(s, Install(t)) && s.threads[t].project !in s.catalog.deleting
    ensures Inv(Apply(s, Install(t)))
  {
  }

  lemma BeginDeleteInv(s: System, t: Thread, p: ProjectId)
    requires Inv(s) && Enabled(s, BeginDelete(t, p))
    ensures Inv(Apply(s, BeginDelete(t, p)))
  {
    var s' := Apply(s, BeginDelete(t, p));
    forall u | u in s'.threads ensures ThreadOk(s'.catalog, s'.owners, s'.deleters, u, s'.threads[u]) {
      if u != t { assert ThreadOk(s.catalog, s.owners, s.deleters, u, s.threads[u]); }
    }
  }

  lemma RemoveRecordInv(s: System, t: Thread)
    requires Inv(s) && Enabled(s, RemoveRecord(t))
    ensures Inv(Apply(s, RemoveRecord(t)))
  {
  }

  lemma EndDeleteInv(s: System, t: Thread)
    requires Inv(s) && Enabled(s, EndDelete(t))
    ensures Inv(Apply(s, EndDelete(t)))
  {
    var s' := Apply(s, EndDelete(t));
    forall u | u in s'.threads ensures ThreadOk(s'.catalog, s'.owners, s'.deleters, u, s'.threads[u]) {
      assert ThreadOk(s.catalog, s.owners, s.deleters, u, s.threads[u]);
    }
  }

  // The steps that read the shared fields but leave them alone.
  predicate OnlyMoves(s: System, a: Action)
    requires Enabled(s, a)
  {
    match a
    case CheckIdentity(_, _) => true
    case TakeClaim(t) => !ClaimBlock(s.catalog, s.threads[t].project).1.Own?
    case ReadRecord(_) => true
    case OpenReturns(_, _) => true
    case OpenRaises(_) => true
    case Await(_) => true
    case AwaitOpening(_) => true
    case RemovalRaises(_) => true
    case _ => false
  }

  lemma MoveKeepsRoles(s: System, a: Action)
    requires Inv(s) && Enabled(s, a) && OnlyMoves(s, a)
    ensures var s' := Apply(s, a);
      a.t in s'.threads && s' == Goto(s, s.catalog, a.t, s'.threads[a.t]) && KeepsRoles(s, a.t, s'.threads[a.t])
  {
    assert ThreadOk(s.catalog, s.owners, s.deleters, a.t,
                    if a.t in s.threads then s.threads[a.t] else Pc(Raised, 0, 0));
  }

  lemma MoveStepInv(s: System, a: Action)
    requires Inv(s) && Enabled(s, a) && OnlyMoves(s, a)
    ensures Inv(Apply(s, a))
  {
    MoveKeepsRoles(s, a);
    MoveInv(s, a.t, Apply(s, a).threads[a.t]);
  }

  lemma RegisterInv(s: System, p: ProjectId)
    requires Inv(s)
    ensures Inv(Apply(s, Register(p)))
  {
  }

  lemma StepInv(s: System, a: Action)
    requires Inv(s) && Enabled(s, a)
    ensures Inv(Apply(s, a))
  {
    if OnlyMoves(s, a) {
      MoveStepInv(s, a);
    } else {
      match a
      case Register(p) => RegisterInv(s, p);
      case TakeClaim(t) => OwnInv(s, t);
      case Abandon(t) => AbandonInv(s, t);
      case TellWaiters(t) => TellInv(s, t);
      case Install(t) =>
        if s.threads[t].project in s.catalog.deleting {
          AbandonInv(s, t);
        } else {
          InstallInv(s, t);
        }
      case BeginDelete(t, p) => BeginDeleteInv(s, t, p);
      case RemoveRecord(t) => RemoveRecordInv(s, t);
      case EndDelete(t) => EndDeleteInv(s, t);
    }
  }

  // ---- What holds in every run ----------------------------------------------------------

  lemma {:induction false} RunInv(s: System, schedule: seq<Action>)
    requires Inv(s) && Feasible(s, schedule)
    ensures Inv(After(s, schedule))
    decreases |schedule|
  {
    if schedule != [] {
      StepInv(s, schedule[0]);
      RunInv(Apply(s, schedule[0]), schedule[1..]);
    }
  }

  predicate BothClaim(a: Pc, b: Pc) { HoldsClaim(a.stage) && HoldsClaim(b.stage) && a.project == b.project }
  predicate BothDelete(a: Pc, b: Pc) { Deletes(a.stage) && Deletes(b.stage) && a.project == b.project }

  /** Any number of openers and deleters, in any interleaving: an installed service belongs to a
      registered project that is being neither opened nor deleted; a project has at most one
      opening owner and one deleter; behind each open stands a live owner and behind each delete mark
      a live deleter; and every unfinished future, waited for or not, is owed its answer by a live
      thread. */
  lemma EveryInterleavingIsSafe(registered: set<ProjectId>, schedule: seq<Action>)
    requires Feasible(Start(registered), schedule)
    ensures var s := After(Start(registered), schedule);
      var c := s.catalog;
      && c.services.Keys <= c.registered
      && c.services.Keys !! c.opening.Keys && c.services.Keys !! c.deleting
      && (forall t, u :: t in s.threads && u in s.threads && BothClaim(s.threads[t], s.threads[u]) ==> t == u)
      && (forall t, u :: t in s.threads && u in s.threads && BothDelete(s.threads[t], s.threads[u]) ==> t == u)
      && (forall t :: t in s.threads && (s.threads[t].stage.Waiting? || s.threads[t].stage.Draining?) ==>
            Settled(s, s.threads[t].future) || AnswerOwed(s.threads, s.owners, s.threads[t].future))
      && (forall p :: p in c.opening ==> ClaimHeld(s.threads, s.owners, p, c.opening[p]))
      && (forall p :: p in c.deleting ==> MarkHeld(s.threads, s.deleters, p))
      && (forall f: FutureId :: f < |c.futures| && c.futures[f] == Pending ==> AnswerOwed(s.threads, s.owners, f))
  {
    StartInv(registered);
    RunInv(Start(registered), schedule);
    var s := After(Start(registered), schedule);
    forall t | t in s.threads
      ensures ThreadOk(s.catalog, s.owners, s.deleters, t, s.threads[t])
    {
    }
  }

  /** When a deleter removes the record nothing of the project is installed, and no thread that
      has read the record can still install it. */
  lemma RemovalFindsNobody(s: System, d: Thread)
    requires Inv(s) && At(s, d, Removing)
    ensures var p := s.threads[d].project;
      && p !in s.catalog.services && p !in s.catalog.opening
      && forall t :: t in s.threads && s.threads[t].project == p ==> !HoldsClaim(s.threads[t].stage)
  {
    var p := s.threads[d].project;
    assert ThreadOk(s.catalog, s.owners, s.deleters, d, s.threads[d]);
    forall t | t in s.threads && s.threads[t].project == p
      ensures !HoldsClaim(s.threads[t].stage)
    {
      assert ThreadOk(s.catalog, s.owners, s.deleters, t, s.threads[t]);
    }
  }

  lemma StaysUnregistered(s: System, p: ProjectId, a: Action)
    requires p !in s.catalog.registered && Enabled(s, a) && a != Register(p)
    ensures p !in Apply(s, a).catalog.registered
  {
  }

  // ... and unless it is registered again it stays uninstalled for ever.
  lemma {:induction false} DeletedStaysUninstalled(s: System, p: ProjectId, schedule: seq<Action>)
    requires Inv(s) && p !in s.catalog.registered && Feasible(s, schedule)
    requires Register(p) !in schedule
    ensures p !in After(s, schedule).catalog.services
    ensures p !in After(s, schedule).catalog.registered
    decreases |schedule|
  {
    if schedule == [] {
      assert p in s.catalog.services ==> ServiceOk(s.catalog, p);
    } else {
      StepInv(s, schedule[0]);
      StaysUnregistered(s, p, schedule[0]);
      DeletedStaysUninstalled(Apply(s, schedule[0]), p, schedule[1..]);
    }
  }

  function Actor(a: Action): (t: int) {
    if a.Register? then -1 else a.t
  }

  // How many of its own steps an owner is away from answering, at most.
  function StepsToAnswer(stage: Stage): nat {
    match stage
    case Claimed => 4
    case Loading => 3
    case Loaded(_) => 2
    case Broken => 2
    case Unclaimed => 1
    case _ => 0
  }

  /** No waiter is lost.  The owner of an unfinished future always has a step it can take; each of
      its own steps answers the future or brings the answer nearer, and no step of another thread
      delays it. */
  lemma AnswerComesNearer(s: System, f: FutureId, a: Action)
    requires Inv(s) && f < |s.catalog.futures| && s.catalog.futures[f] == Pending && Enabled(s, a)
    ensures var owner := s.owners[f];
      var s' := Apply(s, a);
      && (exists b :: Enabled(s, b) && Actor(b) == owner)
      && (Actor(a) == owner ==>
            Settled(s', f) || StepsToAnswer(s'.threads[owner].stage) < StepsToAnswer(s.threads[owner].stage))
      && (Actor(a) != owner ==>
            !Settled(s', f) && owner in s'.threads && s'.threads[owner] == s.threads[owner])
  {
    var owner := s.owners[f];
    assert AnswerOwed(s.threads, s.owners, f);
    assert ThreadOk(s.catalog, s.owners, s.deleters, owner, s.threads[owner]);
    OwnerCanStep(s, owner);
    if a.TellWaiters? || a.Install? {
      assert ThreadOk(s.catalog, s.owners, s.deleters, a.t, s.threads[a.t]);
    }
  }

  lemma OwnerCanStep(s: System, owner: Thread)
    requires owner in s.threads && OwesAnswer(s.threads[owner].stage)
    ensures exists b :: Enabled(s, b) && Actor(b) == owner
  {
    var b := match s.threads[owner].stage
      case Claimed => ReadRecord(owner)
      case Loading => OpenRaises(owner)
      case Loaded(_) => Install(owner)
      case Broken => Abandon(owner)
      case _ => TellWaiters(owner);
    assert Enabled(s, b) && Actor(b) == owner;
  }

  lemma StaysSettled(s: System, f: FutureId, a: Action)
    requires Inv(s) && Settled(s, f) && Enabled(s, a)
    ensures Settled(Apply(s, a), f) && Apply(s, a).catalog.futures[f] == s.catalog.futures[f]
  {
    if a.TellWaiters? || a.Install? {
      assert ThreadOk(s.catalog, s.owners, s.deleters, a.t, s.threads[a.t]);
    }
  }

  // The first answer of a future is its only one: every waiter of one attempt sees the same.
  lemma {:induction false} AnswersAreFinal(s: System, f: FutureId, schedule: seq<Action>)
    requires Inv(s) && Settled(s, f) && Feasible(s, schedule)
    ensures Settled(After(s, schedule), f)
    ensures After(s, schedule).catalog.futures[f] == s.catalog.futures[f]
    decreases |schedule|
  {
    if schedule != [] {
      StaysSettled(s, f, schedule[0]);
      StepInv(s, schedule[0]);
      AnswersAreFinal(Apply(s, schedule[0]), f, schedule[1..]);
    }
  }

  // ---- The catalog's fields, updated in place -------------------------------------------

  class ProjectCatalog {
    var registered: set<ProjectId>
    var services: map<ProjectId, Service>
    var opening: map<ProjectId, FutureId>
    var deleting: set<ProjectId>
    var futures: seq<Attempt>

    function View(): Catalog
      reads this
    {
      Catalog(registered, services, opening, deleting, futures)
    }

    constructor (registered: set<ProjectId>)
      ensures View() == Start(registered).catalog
    {
      this.registered := registered;
      services, opening, deleting, futures := map[], map[], {}, [];
    }

    method ClaimOpen(p: ProjectId) returns (claim: Claim)
      modifies this
      ensures (View(), claim) == ClaimBlock(old(View()), p)
    {
      if p in deleting {
        return Refused;
      }
      if p in services {
        return Cached(services[p]);
      }
      var owner := p !in opening;
      if owner {
        opening := opening[p := |futures|];
        futures := futures + [Pending];
      }
      claim := if owner then Own(opening[p]) else Wait(opening[p]);
    }

    method DropClaim(p: ProjectId)
      modifies this`opening
      ensures View() == AbandonBlock(old(View()), p)
    {
      opening := opening - {p};
    }

    method TellFailure(f: FutureId)
      modifies this`futures
      ensures View() == Resolve(old(View()), f, Failed)
    {
      if f < |futures| {
        futures := futures[f := Failed];
      }
    }

    method InstallOpened(p: ProjectId, f: FutureId, service: Service) returns (installed: bool)
      modifies this
      ensures (View(), installed) == InstallBlock(old(View()), p, f, service)
    {
      installed := p !in deleting;
      if installed {
        services := services[p := service];
      }
      opening := opening - {p};
      if installed && f < |futures| {
        futures := futures[f := Opened(service)];
      }
    }

    method BeginDelete(p: ProjectId) returns (claim: DeleteClaim)
      modifies this`deleting, this`services
      ensures (View(), claim) == BeginDeleteBlock(old(View()), p)
    {
      if p !in registered || p in deleting {
        return Unknown;
      }
      deleting := deleting + {p};
      services := services - {p};
      claim := if p in opening then Proceed(opening[p]) else ProceedAtOnce;
    }

    method EndDelete(p: ProjectId)
      modifies this`deleting
      ensures View() == EndDeleteBlock(old(View()), p)
    {
      deleting := deleting - {p};
    }
  }
}
