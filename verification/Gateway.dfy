/** The demo gateway as one system: the request gate, the pool of child processes and the session
    registry, driven by any number of proxied requests and start-overs in any interleaving.

    A proxied request binds a session, takes a gate lease, then a child lease, and gives them back in
    the opposite order.  A start-over marks the session, stops its child, rotates the cookie to a new
    copy, removes the old copy, and drops the mark, the last even when one of the others fails.  Expiry,
    the discarding of fresh copies, reaping and process exits may happen at any moment, with any
    arguments. */
module Gateway {
  import G = RequestGate
  import P = ChildProcesses
  import R = SessionRegistry
  import T = SessionTables
  import W = SlidingWindow

  type SessionId = nat
  type Token = nat
  type RequestId = nat
  type StartOverId = nat

  datatype Limits = Limits(gate: G.Limits, pool: P.Limits, registry: R.Limits)

  datatype RequestStage = Bound | Gated | Serving | Draining | Answered
  datatype Request = Request(stage: RequestStage, sid: SessionId)

  datatype OverStage = Resolved | Marked | Stopped | Swapped | Removed | Failing | Ended
  datatype StartOver = StartOver(stage: OverStage, token: Token, sid: SessionId)

  /** `held` are the gate leases by request; a request's child lease carries its number in
      `pool.leases`.  The last five fields record history: the session each process was launched for,
      the session each cookie was issued for, every session id ever used, which start-over placed each
      reset mark, and the sessions whose copies start-overs removed. */
  datatype System = System(
    gate: G.Gate,
    held: map<RequestId, SessionId>,
    pool: P.System,
    reg: R.Registry,
    requests: map<RequestId, Request>,
    overs: map<StartOverId, StartOver>,
    homes: map<P.ProcessId, SessionId>,
    issued: map<Token, SessionId>,
    known: set<SessionId>,
    markers: map<SessionId, StartOverId>,
    rotated: set<SessionId>)

  datatype Action =
    | Create(token: Token, sid: SessionId, client: T.Client, now: int, size: nat)
    | Bind(r: RequestId, token: Token, now: int)
    | GateAcquire(r: RequestId, now: int)
    | ChildAcquire(r: RequestId, now: int, quiet: set<P.ProcessId>, died: set<P.ProcessId>, launch: P.Launch,
                   prepared: bool)
    | ChildRelease(r: RequestId, now: int)
    | GateRelease(r: RequestId)
    | Resolve(o: StartOverId, token: Token, now: int)
    | BeginReset(o: StartOverId)
    | StopChild(o: StartOverId, quiet: set<P.ProcessId>)
    | Rotate(o: StartOverId, token: Token, sid: SessionId, client: T.Client, now: int, size: nat)
    | RotateFails(o: StartOverId)
    | RemoveOld(o: StartOverId)
    | RemoveFails(o: StartOverId, whole: bool)    // leaves the old copy whole or in pieces
    | EndReset(o: StartOverId)
    | Expire(now: int, protected: set<SessionId>)
    | Discard(token: Token)
    | Reap(now: int, quiet: set<P.ProcessId>)
    | Exit(process: P.ProcessId)

  predicate RequestAt(s: System, r: RequestId, stage: RequestStage) {
    r in s.requests && s.requests[r].stage == stage
  }

  predicate OverAt(s: System, o: StartOverId, stage: OverStage) { o in s.overs && s.overs[o].stage == stage }

  predicate Whole(trees: map<SessionId, R.Tree>, sid: SessionId) { sid in trees && trees[sid].Complete? }

  // A launch looks for the copy's manifest, so it starts nothing on a copy that is gone or incomplete.
  predicate LaunchPossible(s: System, sid: SessionId, launch: P.Launch) {
    !launch.NotLaunched? ==> Whole(s.reg.trees, sid)
  }

  /** Before it looks, it opens the session's database, which makes the data directory: if `prepared`
      says that it came so far, a copy that was gone is there again, without its project. */
  function PreparedTrees(s: System, limits: Limits, a: Action): map<SessionId, R.Tree>
    requires a.ChildAcquire? && a.r in s.requests
  {
    var sid := s.requests[a.r].sid;
    if a.prepared && sid !in s.reg.trees && P.Starts(s.pool.pool, limits.pool, sid, a.now, a.quiet, a.died) then
      s.reg.trees[sid := R.Partial]
    else s.reg.trees
  }

  predicate Enabled(s: System, a: Action) {
    match a
    case Create(token, sid, _, _, _) => token !in s.issued && sid !in s.known
    case Bind(r, token, _) => r !in s.requests && T.RowFor(s.reg.rows, token).Some?
    case GateAcquire(r, _) => RequestAt(s, r, Bound)
    case ChildAcquire(r, _, _, _, launch, _) =>
      RequestAt(s, r, Gated) && r !in s.pool.leases && LaunchPossible(s, s.requests[r].sid, launch)
    case ChildRelease(r, _) => RequestAt(s, r, Serving) && r in s.pool.leases
    case GateRelease(r) => RequestAt(s, r, Draining)
    case Resolve(o, token, _) => o !in s.overs && T.RowFor(s.reg.rows, token).Some?
    case BeginReset(o) => OverAt(s, o, Resolved)
    case StopChild(o, _) => OverAt(s, o, Marked)
    case Rotate(o, token, sid, _, _, _) => OverAt(s, o, Stopped) && token !in s.issued && sid !in s.known
    case RotateFails(o) => OverAt(s, o, Stopped)
    case RemoveOld(o) => OverAt(s, o, Swapped)
    case RemoveFails(o, _) => OverAt(s, o, Swapped)
    case EndReset(o) => OverAt(s, o, Removed) || OverAt(s, o, Failing)
    case _ => true
  }

  function ToRequest(s: System, r: RequestId, stage: RequestStage): map<RequestId, Request>
    requires r in s.requests
  {
    s.requests[r := s.requests[r].(stage := stage)]
  }

  function ToOver(s: System, o: StartOverId, stage: OverStage): map<StartOverId, StartOver>
    requires o in s.overs
  {
    s.overs[o := s.overs[o].(stage := stage)]
  }

  // A copy is made and its row committed, or nothing happens.
  function Created(s: System, limits: Limits, token: Token, sid: SessionId, client: T.Client, now: int, size: nat): System {
    var (reg, verdict) := R.CreateTxn(s.reg, limits.registry, token, sid, client, now, size);
    if verdict.Admitted? then
      s.(reg := reg.(trees := reg.trees[sid := R.Complete]), issued := s.issued[token := sid], known := s.known + {sid})
    else s
  }

  /** The rotation reads the cookie's row again; on success the old row is gone and the new copy is in
      place, and only then is the old copy removed. */
  function Rotated(s: System, limits: Limits, o: StartOverId, token: Token, sid: SessionId, client: T.Client,
                   now: int, size: nat): System
    requires o in s.overs
  {
    var current := T.RowFor(s.reg.rows, s.overs[o].token);
    if current.None? then s.(overs := ToOver(s, o, Failing))
    else
      var (reg, verdict) := R.RotateTxn(s.reg, limits.registry, s.overs[o].token, current.value.sid, token, sid,
                                        client, now, size);
      if verdict.Admitted? then
        s.(reg := reg.(trees := reg.trees[sid := R.Complete]), issued := s.issued[token := sid],
           known := s.known + {sid},
           overs := s.overs[o := StartOver(Swapped, s.overs[o].token, current.value.sid)])
      else s.(overs := ToOver(s, o, Failing))
  }

  function PoolAcquire(s: System, r: RequestId, a: Action): P.Action
    requires a.ChildAcquire? && r in s.requests
  {
    P.Acquire(r, s.requests[r].sid, a.now, a.quiet, a.died, a.launch)
  }

  function Apply(s: System, limits: Limits, a: Action): System
    requires G.Positive(limits.gate) && Enabled(s, a)
  {
    match a
    case Create(token, sid, client, now, size) => Created(s, limits, token, sid, client, now, size)
    case Bind(r, token, now) =>
      s.(requests := s.requests[r := Request(Bound, T.RowFor(s.reg.rows, token).value.sid)],
         reg := s.reg.(rows := T.Renewed(s.reg.rows, token, now)))
    case GateAcquire(r, now) =>
      var (gate, verdict) := G.AcquireStep(s.gate, limits.gate, s.requests[r].sid, now);
      if verdict.Granted? then
        s.(gate := gate, held := s.held[r := s.requests[r].sid], requests := ToRequest(s, r, Gated))
      else s.(gate := gate, requests := ToRequest(s, r, Answered))
    case ChildAcquire(r, _, _, _, _, _) =>
      var pool := P.Apply(s.pool, limits.pool, PoolAcquire(s, r, a));
      s.(pool := pool, reg := s.reg.(trees := PreparedTrees(s, limits, a)),
         requests := ToRequest(s, r, if r in pool.leases then Serving else Draining),
         homes := if pool.pool.next > s.pool.pool.next then s.homes[s.pool.pool.next := s.requests[r].sid] else s.homes)
    case ChildRelease(r, now) =>
      s.(pool := P.Apply(s.pool, limits.pool, P.Release(r, now)), requests := ToRequest(s, r, Draining))
    case GateRelease(r) =>
      s.(gate := G.ReleaseStep(s.gate, s.requests[r].sid).0, held := s.held - {r}, requests := ToRequest(s, r, Answered))
    case Resolve(o, token, now) =>
      s.(overs := s.overs[o := StartOver(Resolved, token, T.RowFor(s.reg.rows, token).value.sid)],
         reg := s.reg.(rows := T.Renewed(s.reg.rows, token, now)))
    case BeginReset(o) =>
      var (gate, marked) := G.BeginResetStep(s.gate, s.overs[o].sid);
      if marked then
        s.(gate := gate, overs := ToOver(s, o, Marked), markers := s.markers[s.overs[o].sid := o])
      else s.(overs := ToOver(s, o, Ended))     // refused before the mark: nothing to drop
    case StopChild(o, quiet) =>
      var (pool, result) := P.StopStep(s.pool.pool, s.overs[o].sid, quiet);
      s.(pool := s.pool.(pool := pool), overs := ToOver(s, o, if result.Busy? then Failing else Stopped))
    case Rotate(o, token, sid, client, now, size) => Rotated(s, limits, o, token, sid, client, now, size)
    case RotateFails(o) => s.(overs := ToOver(s, o, Failing))
    case RemoveOld(o) =>
      s.(reg := s.reg.(trees := s.reg.trees - {s.overs[o].sid}), overs := ToOver(s, o, Removed),
         rotated := s.rotated + {s.overs[o].sid})
    case RemoveFails(o, whole) =>
      var sid := s.overs[o].sid;
      s.(reg := s.reg.(trees := if whole || sid !in s.reg.trees then s.reg.trees else s.reg.trees[sid := R.Partial]),
         overs := ToOver(s, o, Failing))
    case EndReset(o) =>
      s.(gate := G.EndResetStep(s.gate, s.overs[o].sid), overs := ToOver(s, o, Ended),
         markers := s.markers - {s.overs[o].sid})
    case Expire(now, protected) =>
      var (reg, doomed) := R.ExpireTxn(s.reg, now, protected);
      s.(reg := reg.(trees := reg.trees - doomed))
    case Discard(token) =>
      var current := T.RowFor(s.reg.rows, token);
      if current.None? then s
      else s.(reg := s.reg.(rows := T.DropToken(s.reg.rows, token), trees := s.reg.trees - {current.value.sid}))
    case Reap(now, quiet) => s.(pool := P.Apply(s.pool, limits.pool, P.ReapIdle(now, quiet)))
    case Exit(process) => s.(pool := P.Apply(s.pool, limits.pool, P.Exit(process)))
  }

  // ---- The invariant --------------------------------------------------------------------

  predicate HoldsGate(stage: RequestStage) { stage.Gated? || stage.Serving? || stage.Draining? }
  predicate HoldsMark(stage: OverStage) {
    stage.Marked? || stage.Stopped? || stage.Swapped? || stage.Removed? || stage.Failing?
  }
  predicate PastStop(stage: OverStage) { stage.Stopped? || stage.Swapped? || stage.Removed? }

  predicate NoChild(cs: seq<P.ManagedChild>, sid: SessionId) { forall c :: c in cs ==> c.sid != sid }

  predicate NoLease(leases: map<P.LeaseId, P.Lease>, sid: SessionId) {
    forall l :: l in leases ==> leases[l].sid != sid
  }

  // A gate lease encloses the child lease, and both are for the bound session.
  predicate RequestOk(held: map<RequestId, SessionId>, leases: map<P.LeaseId, P.Lease>, r: RequestId, q: Request) {
    && (HoldsGate(q.stage) <==> r in held) && (r in held ==> held[r] == q.sid)
    && (q.stage.Serving? <==> r in leases) && (r in leases ==> leases[r].sid == q.sid)
  }

  predicate RequestsInv(requests: map<RequestId, Request>, held: map<RequestId, SessionId>,
                        leases: map<P.LeaseId, P.Lease>) {
    && (forall r :: r in requests ==> RequestOk(held, leases, r, requests[r]))
    && (forall r :: r in held ==> r in requests) && (forall r :: r in leases ==> r in requests)
  }

  predicate OverOk(issued: map<Token, SessionId>, resetting: set<SessionId>, markers: map<SessionId, StartOverId>,
                   children: seq<P.ManagedChild>, o: StartOverId, v: StartOver) {
    && v.token in issued && issued[v.token] == v.sid
    && (HoldsMark(v.stage) ==> v.sid in resetting && v.sid in markers && markers[v.sid] == o)
    && (PastStop(v.stage) ==> NoChild(children, v.sid))
  }

  predicate OversInv(overs: map<StartOverId, StartOver>, issued: map<Token, SessionId>, resetting: set<SessionId>,
                     markers: map<SessionId, StartOverId>, children: seq<P.ManagedChild>) {
    forall o :: o in overs ==> OverOk(issued, resetting, markers, children, o, overs[o])
  }

  // A live start-over stands behind the mark.
  predicate MarkOk(markers: map<SessionId, StartOverId>, overs: map<StartOverId, StartOver>, sid: SessionId) {
    sid in markers && markers[sid] in overs && overs[markers[sid]].sid == sid && HoldsMark(overs[markers[sid]].stage)
  }

  predicate MarksInv(resetting: set<SessionId>, markers: map<SessionId, StartOverId>, overs: map<StartOverId, StartOver>) {
    forall sid :: sid in resetting ==> MarkOk(markers, overs, sid)
  }

  predicate HomeOk(homes: map<P.ProcessId, SessionId>, c: P.ManagedChild) {
    c.process in homes && homes[c.process] == c.sid
  }

  ghost predicate HomesInv(children: seq<P.ManagedChild>, homes: map<P.ProcessId, SessionId>, next: P.ProcessId) {
    && (forall c :: c in children ==> HomeOk(homes, c))
    && (forall p: P.ProcessId :: p in homes <==> p < next)
  }

  predicate TablesInv(rows: seq<T.Row>, issued: map<Token, SessionId>, known: set<SessionId>) {
    && (forall row :: row in rows ==> row.token in issued && issued[row.token] == row.sid)
    && (forall t :: t in issued ==> issued[t] in known)
  }

  predicate RotatedInv(rotated: set<SessionId>, known: set<SessionId>, trees: map<SessionId, R.Tree>,
                       children: seq<P.ManagedChild>, leases: map<P.LeaseId, P.Lease>) {
    forall sid :: sid in rotated ==> sid in known && !Whole(trees, sid) && NoChild(children, sid) && NoLease(leases, sid)
  }

  ghost predicate Inv(s: System, limits: Limits) {
    && G.Accounts(s.gate, limits.gate, s.held)
    && P.Owned(s.pool, limits.pool)
    && RequestsInv(s.requests, s.held, s.pool.leases)
    && OversInv(s.overs, s.issued, s.gate.resetting, s.markers, s.pool.pool.children)
    && MarksInv(s.gate.resetting, s.markers, s.overs)
    && HomesInv(s.pool.pool.children, s.homes, s.pool.pool.next)
    && TablesInv(s.reg.rows, s.issued, s.known)
    && RotatedInv(s.rotated, s.known, s.reg.trees, s.pool.pool.children, s.pool.leases)
  }

  // ---- Consequences of the invariant ----------------------------------------------------

  /** A session that is starting over has no gate lease, hence no child lease. */
  lemma MarkedIsQuiet(s: System, limits: Limits, sid: SessionId)
    requires Inv(s, limits) && sid in s.gate.resetting
    ensures forall r :: r in s.held ==> s.held[r] != sid
    ensures NoLease(s.pool.leases, sid)
  {
    assert G.Held(s.gate, sid) == |G.LeasesOf(s.held, sid)|;
    forall r | r in s.held ensures s.held[r] != sid {
      assert r !in G.LeasesOf(s.held, sid);
    }
    forall l | l in s.pool.leases ensures s.pool.leases[l].sid != sid {
      assert RequestOk(s.held, s.pool.leases, l, s.requests[l]);
    }
  }

  // ---- Steps of the gate ----------------------------------------------------------------

  lemma AcquireKeepsMarks(g: G.Gate, limits: G.Limits, sid: SessionId, now: int)
    requires G.Positive(limits)
    ensures G.AcquireStep(g, limits, sid, now).0.resetting == g.resetting
  {
  }

  lemma GateAcquireInv(s: System, limits: Limits, a: Action)
    requires G.Positive(limits.gate) && Inv(s, limits) && Enabled(s, a) && a.GateAcquire?
    ensures Inv(Apply(s, limits, a), limits)
  {
    var sid := s.requests[a.r].sid;
    assert RequestOk(s.held, s.pool.leases, a.r, s.requests[a.r]);
    G.AcquireAccounts(s.gate, limits.gate, s.held, sid, a.now, a.r);
    AcquireKeepsMarks(s.gate, limits.gate, sid, a.now);
    var s' := Apply(s, limits, a);
    assert s'.held == if G.AcquireStep(s.gate, limits.gate, sid, a.now).1.Granted? then s.held[a.r := sid] else s.held;
    GateRequests(s, s'.held, a.r, s'.requests[a.r].stage);
  }

  // One request takes a gate lease, or is refused.
  lemma GateRequests(s: System, held: map<RequestId, SessionId>, r: RequestId, stage: RequestStage)
    requires RequestsInv(s.requests, s.held, s.pool.leases) && RequestAt(s, r, Bound)
    requires (stage.Gated? && held == s.held[r := s.requests[r].sid]) || (stage.Answered? && held == s.held)
    ensures RequestsInv(ToRequest(s, r, stage), held, s.pool.leases)
  {
    forall q | q in s.requests
      ensures RequestOk(held, s.pool.leases, q, ToRequest(s, r, stage)[q])
    {
      assert RequestOk(s.held, s.pool.leases, q, s.requests[q]);
    }
  }

  lemma GateReleaseInv(s: System, limits: Limits, a: Action)
    requires G.Positive(limits.gate) && Inv(s, limits) && Enabled(s, a) && a.GateRelease?
    ensures Inv(Apply(s, limits, a), limits)
  {
    G.ReleaseAccounts(s.gate, limits.gate, s.held, a.r);
  }

  lemma BeginResetInv(s: System, limits: Limits, a: Action)
    requires G.Positive(limits.gate) && Inv(s, limits) && Enabled(s, a) && a.BeginReset?
    ensures Inv(Apply(s, limits, a), limits)
  {
    var sid := s.overs[a.o].sid;
    G.ResetAccounts(s.gate, limits.gate, s.held, sid);
    var (gate, marked) := G.BeginResetStep(s.gate, sid);
    var s' := Apply(s, limits, a);
    if marked {
      assert gate.resetting == s.gate.resetting + {sid};
      MarkPlaced(s, a.o);
    }
  }

  lemma MarkPlaced(s: System, o: StartOverId)
    requires OverAt(s, o, Resolved) && s.overs[o].sid !in s.gate.resetting
    requires OversInv(s.overs, s.issued, s.gate.resetting, s.markers, s.pool.pool.children)
    requires MarksInv(s.gate.resetting, s.markers, s.overs)
    ensures var sid := s.overs[o].sid;
      && OversInv(ToOver(s, o, Marked), s.issued, s.gate.resetting + {sid}, s.markers[sid := o], s.pool.pool.children)
      && MarksInv(s.gate.resetting + {sid}, s.markers[sid := o], ToOver(s, o, Marked))
  {
  }

  lemma EndResetInv(s: System, limits: Limits, a: Action)
    requires G.Positive(limits.gate) && Inv(s, limits) && Enabled(s, a) && a.EndReset?
    ensures Inv(Apply(s, limits, a), limits)
  {
    G.ResetAccounts(s.gate, limits.gate, s.held, s.overs[a.o].sid);
  }

  // ---- Steps of the registry ------------------------------------------------------------

  lemma CreateInv(s: System, limits: Limits, a: Action)
    requires G.Positive(limits.gate) && Inv(s, limits) && Enabled(s, a) && a.Create?
    ensures Inv(Apply(s, limits, a), limits)
  {
  }

  lemma RenewedRows(rows: seq<T.Row>, token: Token, now: int, issued: map<Token, SessionId>, known: set<SessionId>)
    requires TablesInv(rows, issued, known)
    ensures TablesInv(T.Renewed(rows, token, now), issued, known)
  {
    T.UpdatesKeepKeys(rows, token, 0, now, 0);
    T.SameKeysMembers(rows, T.Renewed(rows, token, now));
  }

  lemma BindInv(s: System, limits: Limits, a: Action)
    requires G.Positive(limits.gate) && Inv(s, limits) && Enabled(s, a) && (a.Bind? || a.Resolve?)
    ensures Inv(Apply(s, limits, a), limits)
  {
    RenewedRows(s.reg.rows, a.token, a.now, s.issued, s.known);
    T.RowForMember(s.reg.rows, a.token);
  }

  lemma FailingInv(s: System, limits: Limits, o: StartOverId)
    requires Inv(s, limits) && o in s.overs && HoldsMark(s.overs[o].stage)
    ensures Inv(s.(overs := ToOver(s, o, Failing)), limits)
  {
  }

  /** The row read again by the rotation is the one that was resolved: a cookie names one session for
      ever. */
  lemma RotateInv(s: System, limits: Limits, a: Action)
    requires G.Positive(limits.gate) && Inv(s, limits) && Enabled(s, a) && a.Rotate?
    ensures Inv(Apply(s, limits, a), limits)
  {
    var v := s.overs[a.o];
    assert OverOk(s.issued, s.gate.resetting, s.markers, s.pool.pool.children, a.o, v);
    var current := T.RowFor(s.reg.rows, v.token);
    T.RowForMember(s.reg.rows, v.token);
    if current.Some? {
      assert current.value.sid == v.sid;
      var (reg, verdict) := R.RotateTxn(s.reg, limits.registry, v.token, v.sid, a.token, a.sid, a.client, a.now, a.size);
      if verdict.Admitted? {
        assert IsSwap(s, a, reg, T.Row(a.token, a.sid, a.now, a.now + T.SESSION_TTL, a.size));
        SwappedInv(s, limits, a, reg);
        return;
      }
    }
    FailingInv(s, limits, a.o);
  }

  // `row` is the new copy's, committed in place of the old one's.
  predicate IsSwap(s: System, a: Action, reg: R.Registry, row: T.Row)
    requires a.Rotate? && a.o in s.overs
  {
    row.token == a.token && row.sid == a.sid && reg.rows == T.DropToken(s.reg.rows + [row], s.overs[a.o].token)
  }

  lemma SwappedInv(s: System, limits: Limits, a: Action, reg: R.Registry)
    requires Inv(s, limits) && a.Rotate? && OverAt(s, a.o, Stopped) && a.token !in s.issued && a.sid !in s.known
    requires exists row: T.Row :: IsSwap(s, a, reg, row)
    ensures Inv(s.(reg := reg.(trees := s.reg.trees[a.sid := R.Complete]), issued := s.issued[a.token := a.sid],
                   known := s.known + {a.sid},
                   overs := s.overs[a.o := StartOver(Swapped, s.overs[a.o].token, s.overs[a.o].sid)]), limits)
  {
    var row: T.Row :| IsSwap(s, a, reg, row);
    T.DropsOnlyDrop(s.reg.rows + [row], s.overs[a.o].token, 0, {});
    assert forall r :: r in s.reg.rows + [row] <==> r in s.reg.rows || r == row;
  }

  lemma RemoveOldInv(s: System, limits: Limits, a: Action)
    requires G.Positive(limits.gate) && Inv(s, limits) && Enabled(s, a) && a.RemoveOld?
    ensures Inv(Apply(s, limits, a), limits)
  {
    assert OverOk(s.issued, s.gate.resetting, s.markers, s.pool.pool.children, a.o, s.overs[a.o]);
    MarkedIsQuiet(s, limits, s.overs[a.o].sid);
  }

  lemma ExpireInv(s: System, limits: Limits, a: Action)
    requires G.Positive(limits.gate) && Inv(s, limits) && Enabled(s, a) && (a.Expire? || a.Discard?)
    ensures Inv(Apply(s, limits, a), limits)
  {
    if a.Expire? {
      T.DropsOnlyDrop(s.reg.rows, 0, a.now, a.protected);
    } else {
      T.DropsOnlyDrop(s.reg.rows, a.token, 0, {});
    }
  }

  // ---- Steps of the pool ----------------------------------------------------------------

  // A pool that only lost children, and lost no session it had not lost before.
  lemma FewerChildren(s: System, after: P.Pool)
    requires P.From(s.pool.pool.children, after.children)
    ensures forall sid :: NoChild(s.pool.pool.children, sid) ==> NoChild(after.children, sid)
    ensures HomesInv(s.pool.pool.children, s.homes, s.pool.pool.next) && after.next == s.pool.pool.next ==>
      HomesInv(after.children, s.homes, after.next)
  {
  }

  lemma PoolInv(s: System, limits: Limits, pool: P.System)
    requires Inv(s, limits) && P.Owned(pool, limits.pool)
    requires P.From(s.pool.pool.children, pool.pool.children) && pool.pool.next == s.pool.pool.next
    requires pool.leases == s.pool.leases
    ensures Inv(s.(pool := pool), limits)
  {
    FewerChildren(s, pool.pool);
  }

  lemma StopChildInv(s: System, limits: Limits, a: Action)
    requires G.Positive(limits.gate) && Inv(s, limits) && Enabled(s, a) && a.StopChild?
    ensures Inv(Apply(s, limits, a), limits)
  {
    var sid, cs := s.overs[a.o].sid, s.pool.pool.children;
    var (pool, result) := P.StopStep(s.pool.pool, sid, a.quiet);
    P.StepOwned(s.pool, limits.pool, P.Stop(sid, a.quiet));
    P.FindMember(cs, sid);
    P.WithoutMembers(cs, sid);
    P.FromSubset(cs, pool.children);
    var s' := s.(pool := s.pool.(pool := pool));
    PoolInv(s, limits, s'.pool);
    if result.Busy? {
      FailingInv(s', limits, a.o);
    } else {
      assert NoChild(pool.children, sid);
      StoppedInv(s', limits, a.o);
    }
  }

  lemma StoppedInv(s: System, limits: Limits, o: StartOverId)
    requires Inv(s, limits) && OverAt(s, o, Marked) && NoChild(s.pool.pool.children, s.overs[o].sid)
    ensures Inv(s.(overs := ToOver(s, o, Stopped)), limits)
  {
  }

  // The one child an acquire may add belongs to a session that is not starting over.
  lemma OneMoreChild(s: System, kept: seq<P.ManagedChild>, c: P.ManagedChild)
    requires P.From(s.pool.pool.children, kept) && c.sid !in s.gate.resetting && c.sid !in s.rotated
    requires OversInv(s.overs, s.issued, s.gate.resetting, s.markers, s.pool.pool.children)
    requires HomesInv(s.pool.pool.children, s.homes, s.pool.pool.next) && c.process == s.pool.pool.next
    ensures OversInv(s.overs, s.issued, s.gate.resetting, s.markers, kept + [c])
    ensures HomesInv(kept + [c], s.homes[c.process := c.sid], c.process + 1)
    ensures forall sid :: NoChild(s.pool.pool.children, sid) && sid != c.sid ==> NoChild(kept + [c], sid)
  {
    assert forall d :: d in kept + [c] <==> d in kept || d == c;
  }

  // A request with a gate lease gets a child lease, or goes on to give its gate lease back.
  lemma ChildRequests(s: System, leases: map<P.LeaseId, P.Lease>, r: RequestId)
    requires RequestsInv(s.requests, s.held, s.pool.leases) && RequestAt(s, r, Gated)
    requires leases == s.pool.leases ||
      (r in leases && leases == s.pool.leases[r := leases[r]] && leases[r].sid == s.requests[r].sid)
    ensures RequestsInv(ToRequest(s, r, if r in leases then Serving else Draining), s.held, leases)
  {
    assert RequestOk(s.held, s.pool.leases, r, s.requests[r]);
    var requests := ToRequest(s, r, if r in leases then Serving else Draining);
    forall q | q in requests ensures RequestOk(s.held, leases, q, requests[q]) {
      assert RequestOk(s.held, s.pool.leases, q, s.requests[q]);
    }
  }

  // A session that a start-over removed has no complete copy, and one that is starting over has no lease.
  lemma AcquirerIsNotMarked(s: System, limits: Limits, a: Action)
    requires Inv(s, limits) && Enabled(s, a) && a.ChildAcquire?
    ensures s.requests[a.r].sid !in s.gate.resetting
    ensures s.requests[a.r].sid in s.rotated ==> a.launch.NotLaunched?
  {
    assert RequestOk(s.held, s.pool.leases, a.r, s.requests[a.r]);
    if s.requests[a.r].sid in s.gate.resetting { MarkedIsQuiet(s, limits, s.requests[a.r].sid); }
  }

  // The pool after an acquire for request `r`: a subset of the children, perhaps one more, perhaps a lease.
  ghost predicate Acquired(s: System, r: RequestId, pool: P.System, kept: seq<P.ManagedChild>, now: int)
    requires r in s.requests
  {
    var sid, next := s.requests[r].sid, s.pool.pool.next;
    && P.From(s.pool.pool.children, kept) && next <= pool.pool.next <= next + 1
    && (pool.pool.children == kept
        || (sid !in s.rotated && pool.pool.next == next + 1
            && pool.pool.children == kept + [P.ManagedChild(sid, next, now, 1)]))
    && (pool.leases == s.pool.leases
        || (sid !in s.rotated && r in pool.leases && pool.leases == s.pool.leases[r := pool.leases[r]]
            && pool.leases[r].sid == sid))
  }

  lemma AcquiredInv(s: System, limits: Limits, r: RequestId, pool: P.System, kept: seq<P.ManagedChild>, now: int)
    requires Inv(s, limits) && RequestAt(s, r, Gated) && s.requests[r].sid !in s.gate.resetting
    requires P.Owned(pool, limits.pool) && Acquired(s, r, pool, kept, now)
    ensures Inv(s.(pool := pool, requests := ToRequest(s, r, if r in pool.leases then Serving else Draining),
                   homes := if pool.pool.next > s.pool.pool.next then s.homes[s.pool.pool.next := s.requests[r].sid]
                            else s.homes), limits)
  {
    ChildRequests(s, pool.leases, r);
    if pool.pool.children == kept {
      FewerChildren(s, s.pool.pool.(children := kept));
    } else {
      OneMoreChild(s, kept, P.ManagedChild(s.requests[r].sid, s.pool.pool.next, now, 1));
    }
  }

  // Trees that come back incomplete change nothing.
  lemma TreesInv(s: System, limits: Limits, trees: map<SessionId, R.Tree>)
    requires Inv(s, limits) && forall sid :: Whole(trees, sid) ==> Whole(s.reg.trees, sid)
    ensures Inv(s.(reg := s.reg.(trees := trees)), limits)
  {
  }

  lemma ChildAcquireInv(s: System, limits: Limits, a: Action)
    requires G.Positive(limits.gate) && Inv(s, limits) && Enabled(s, a) && a.ChildAcquire?
    ensures Inv(Apply(s, limits, a), limits)
  {
    AcquirerIsNotMarked(s, limits, a);
    P.StepOwned(s.pool, limits.pool, PoolAcquire(s, a.r, a));
    var kept := P.AcquireFrom(s.pool.pool, limits.pool, s.requests[a.r].sid, a.now, a.quiet, a.died, a.launch);
    TreesInv(s, limits, PreparedTrees(s, limits, a));
    AcquiredInv(s.(reg := s.reg.(trees := PreparedTrees(s, limits, a))), limits, a.r,
                P.Apply(s.pool, limits.pool, PoolAcquire(s, a.r, a)), kept, a.now);
  }

  lemma ChildReleaseInv(s: System, limits: Limits, a: Action)
    requires G.Positive(limits.gate) && Inv(s, limits) && Enabled(s, a) && a.ChildRelease?
    ensures Inv(Apply(s, limits, a), limits)
  {
    var pool := P.Apply(s.pool, limits.pool, P.Release(a.r, a.now));
    P.StepOwned(s.pool, limits.pool, P.Release(a.r, a.now));
    P.TouchFrom(s.pool.pool.children, s.pool.leases[a.r].sid, -1, a.now);
    P.FromSubset(s.pool.pool.children, s.pool.pool.children);
    FewerChildren(s, pool.pool);
  }

  lemma ReapInv(s: System, limits: Limits, a: Action)
    requires G.Positive(limits.gate) && Inv(s, limits) && Enabled(s, a) && (a.Reap? || a.Exit?)
    ensures Inv(Apply(s, limits, a), limits)
  {
    var b := if a.Reap? then P.ReapIdle(a.now, a.quiet) else P.Exit(a.process);
    var pool := P.Apply(s.pool, limits.pool, b);
    P.StepOwned(s.pool, limits.pool, b);
    if a.Reap? {
      P.ReapTrims(s.pool.pool, limits.pool, a.now, a.quiet);
    }
    P.FromSubset(s.pool.pool.children, pool.pool.children);
    PoolInv(s, limits, pool);
  }

  // ---- Every run ------------------------------------------------------------------------

  lemma FailsInv(s: System, limits: Limits, a: Action)
    requires G.Positive(limits.gate) && Inv(s, limits) && Enabled(s, a) && (a.RotateFails? || a.RemoveFails?)
    ensures Inv(Apply(s, limits, a), limits)
  {
    var reg := Apply(s, limits, a).reg;
    TreesInv(s, limits, reg.trees);
    FailingInv(s.(reg := reg), limits, a.o);
  }

  lemma StepInv(s: System, limits: Limits, a: Action)
    requires G.Positive(limits.gate) && Inv(s, limits) && Enabled(s, a)
    ensures Inv(Apply(s, limits, a), limits)
  {
    hide Apply, Inv, Enabled;
    match a
    case Create(_, _, _, _, _) => CreateInv(s, limits, a);
    case Bind(_, _, _) => BindInv(s, limits, a);
    case GateAcquire(_, _) => GateAcquireInv(s, limits, a);
    case ChildAcquire(_, _, _, _, _, _) => ChildAcquireInv(s, limits, a);
    case ChildRelease(_, _) => ChildReleaseInv(s, limits, a);
    case GateRelease(_) => GateReleaseInv(s, limits, a);
    case Resolve(_, _, _) => BindInv(s, limits, a);
    case BeginReset(_) => BeginResetInv(s, limits, a);
    case StopChild(_, _) => StopChildInv(s, limits, a);
    case Rotate(_, _, _, _, _, _) => RotateInv(s, limits, a);
    case RotateFails(_) => FailsInv(s, limits, a);
    case RemoveFails(_, _) => FailsInv(s, limits, a);
    case RemoveOld(_) => RemoveOldInv(s, limits, a);
    case EndReset(_) => EndResetInv(s, limits, a);
    case Expire(_, _) => ExpireInv(s, limits, a);
    case Discard(_) => ExpireInv(s, limits, a);
    case Reap(_, _) => ReapInv(s, limits, a);
    case Exit(_) => ReapInv(s, limits, a);
  }

  const Start := System(G.Empty, map[], P.Start, R.Start.reg, map[], map[], map[], map[], {}, map[], {})

  predicate Feasible(s: System, limits: Limits, run: seq<Action>)
    requires G.Positive(limits.gate)
    decreases |run|
  {
    run == [] || (Enabled(s, run[0]) && Feasible(Apply(s, limits, run[0]), limits, run[1..]))
  }

  function After(s: System, limits: Limits, run: seq<Action>): System
    requires G.Positive(limits.gate) && Feasible(s, limits, run)
    decreases |run|
  {
    if run == [] then s else After(Apply(s, limits, run[0]), limits, run[1..])
  }

  lemma StartInv(limits: Limits)
    requires G.Positive(limits.gate) && limits.pool.maxProcesses >= 0
    ensures Inv(Start, limits)
  {
    G.NoLeases(limits.gate);
  }

  lemma {:induction false} RunInv(s: System, limits: Limits, run: seq<Action>)
    requires G.Positive(limits.gate) && Inv(s, limits) && Feasible(s, limits, run)
    ensures Inv(After(s, limits, run), limits)
    decreases |run|
  {
    if run != [] {
      StepInv(s, limits, run[0]);
      RunInv(Apply(s, limits, run[0]), limits, run[1..]);
    }
  }

  // The request starts a process and abandons it, as the pool's step does.
  predicate Abandons(s: System, limits: Limits, a: Action) {
    a.ChildAcquire? && a.r in s.requests && P.Abandons(s.pool, limits.pool, PoolAcquire(s, a.r, a))
  }

  predicate NeverAbandons(s: System, limits: Limits, run: seq<Action>)
    requires G.Positive(limits.gate) && Feasible(s, limits, run)
    decreases |run|
  {
    run == [] || (!Abandons(s, limits, run[0]) && NeverAbandons(Apply(s, limits, run[0]), limits, run[1..]))
  }

  lemma StepStrays(s: System, limits: Limits, a: Action)
    requires G.Positive(limits.gate) && P.Owned(s.pool, limits.pool) && Enabled(s, a)
    ensures Apply(s, limits, a).pool.strays
      == if Abandons(s, limits, a) then s.pool.strays + {s.pool.pool.next} else s.pool.strays
  {
    if a.ChildAcquire? {
      AcquireStrays(s, limits, a);
    } else {
      OthersLeaveStrays(s, limits, a);
    }
  }

  lemma AcquireStrays(s: System, limits: Limits, a: Action)
    requires G.Positive(limits.gate) && P.Owned(s.pool, limits.pool) && Enabled(s, a) && a.ChildAcquire?
    ensures Apply(s, limits, a).pool.strays
      == if Abandons(s, limits, a) then s.pool.strays + {s.pool.pool.next} else s.pool.strays
  {
    hide P.Abandons, P.Owned, P.Apply;
    P.StepLive(s.pool, limits.pool, PoolAcquire(s, a.r, a));
  }

  lemma OthersLeaveStrays(s: System, limits: Limits, a: Action)
    requires G.Positive(limits.gate) && Enabled(s, a) && !a.ChildAcquire?
    ensures Apply(s, limits, a).pool.strays == s.pool.strays
  {
  }

  // The processes ever abandoned grow exactly when a step abandons one.
  lemma {:induction false} RunStrays(s: System, limits: Limits, run: seq<Action>)
    requires G.Positive(limits.gate) && Inv(s, limits) && Feasible(s, limits, run)
    ensures s.pool.strays <= After(s, limits, run).pool.strays
    ensures After(s, limits, run).pool.strays == s.pool.strays <==> NeverAbandons(s, limits, run)
    decreases |run|
  {
    if run != [] {
      StepInv(s, limits, run[0]);
      StepStrays(s, limits, run[0]);
      RunStrays(Apply(s, limits, run[0]), limits, run[1..]);
    }
  }

  // Nothing of the session is in use: no gate lease, no child lease, no child.
  predicate Quiet(s: System, sid: SessionId) {
    && (forall r :: r in s.held ==> s.held[r] != sid)
    && NoLease(s.pool.leases, sid) && NoChild(s.pool.pool.children, sid)
  }

  // Process `p` runs, and was launched for the session.
  predicate RunsFor(s: System, p: P.ProcessId, sid: SessionId) {
    p in s.pool.pool.live && (p in s.homes ==> s.homes[p] == sid)
  }

  // A process without a child in the pool is one that start-up abandoned.
  lemma ChildlessIsAbandoned(s: System, limits: Limits, sid: SessionId)
    requires Inv(s, limits) && NoChild(s.pool.pool.children, sid)
    ensures forall p :: RunsFor(s, p, sid) ==> p in s.pool.strays
  {
    forall p | P.HasProcess(s.pool.pool.children, p) ensures p in s.homes && s.homes[p] != sid {
      var c :| c in s.pool.pool.children && c.process == p;
      assert HomeOk(s.homes, c);
    }
  }

  /** The start-over theorem.  From the moment the child is stopped until the mark is dropped, and so
      when the rotation commits and when it removes the old copy, nothing of the old session is in use,
      in every run.  A process can still run for it only if start-up abandoned that process, and in a run
      whose starts abandon none, no process does. */
  lemma StartOverIsSafe(limits: Limits, run: seq<Action>, o: StartOverId)
    requires G.Positive(limits.gate) && limits.pool.maxProcesses >= 0 && Feasible(Start, limits, run)
    ensures var s := After(Start, limits, run);
      o in s.overs && PastStop(s.overs[o].stage) ==>
        && Quiet(s, s.overs[o].sid)
        && (forall p :: RunsFor(s, p, s.overs[o].sid) ==> p in s.pool.strays)
        && (NeverAbandons(Start, limits, run) ==> forall p :: !RunsFor(s, p, s.overs[o].sid))
  {
    StartInv(limits);
    RunInv(Start, limits, run);
    RunStrays(Start, limits, run);
    var s := After(Start, limits, run);
    if o in s.overs && PastStop(s.overs[o].stage) {
      assert OverOk(s.issued, s.gate.resetting, s.markers, s.pool.pool.children, o, s.overs[o]);
      MarkedIsQuiet(s, limits, s.overs[o].sid);
      ChildlessIsAbandoned(s, limits, s.overs[o].sid);
    }
  }

  /** A copy that a start-over removed is never used again: for the rest of the run it is never complete
      again and has no child and no child lease, and a process still runs for it only if start-up
      abandoned that process. */
  lemma RemovedCopyStaysQuiet(limits: Limits, run: seq<Action>, sid: SessionId)
    requires G.Positive(limits.gate) && limits.pool.maxProcesses >= 0 && Feasible(Start, limits, run)
    requires sid in After(Start, limits, run).rotated
    ensures var s := After(Start, limits, run);
      && !Whole(s.reg.trees, sid) && NoChild(s.pool.pool.children, sid) && NoLease(s.pool.leases, sid)
      && (forall p :: RunsFor(s, p, sid) ==> p in s.pool.strays)
      && (NeverAbandons(Start, limits, run) ==> forall p :: !RunsFor(s, p, sid))
  {
    StartInv(limits);
    RunInv(Start, limits, run);
    RunStrays(Start, limits, run);
    ChildlessIsAbandoned(After(Start, limits, run), limits, sid);
  }

  // ---- What a removed copy can still have ------------------------------------------------

  // The copy of session 0 is made, and two requests are bound to it.
  function TwoBound(): System {
    Start.(reg := R.Registry([T.Row(0, 0, 0, T.SESSION_TTL, 1)], [T.Event(0, 0)], map[0 := R.Complete], {}),
           issued := map[0 := 0], known := {0},
           requests := map[0 := Request(Bound, 0), 1 := Request(Bound, 0)])
  }

  // The first request started process 0, which start-up abandoned, and is answered.
  function OneAbandoned(): System {
    TwoBound().(gate := G.Gate(0, map[0 := 0], map[0 := [0]], {}),
                pool := P.System(P.Pool([], {0}, 1), map[], {0}), homes := map[0 := 0],
                requests := map[0 := Request(Answered, 0), 1 := Request(Bound, 0)])
  }

  // A start-over has marked session 0 and found no child of it.
  function OneMarked(): System {
    OneAbandoned().(gate := G.Gate(0, map[0 := 0], map[0 := [0]], {0}), markers := map[0 := 0],
                    overs := map[0 := StartOver(Stopped, 0, 0)])
  }

  // It has put session 1 in its place, removed the copy, and dropped the mark.
  function StartedOver(): System {
    OneAbandoned().(reg := R.Registry([T.Row(1, 1, 0, T.SESSION_TTL, 1)], [T.Event(0, 0), T.Event(1, 0)],
                                      map[1 := R.Complete], {}),
                    issued := map[0 := 0, 1 := 1], known := {0, 1}, rotated := {0},
                    overs := map[0 := StartOver(Ended, 0, 0)])
  }

  predicate Leads(s: System, limits: Limits, run: seq<Action>, t: System)
    requires G.Positive(limits.gate)
  {
    Feasible(s, limits, run) && After(s, limits, run) == t
  }

  lemma {:induction false} LeadsOn(s: System, limits: Limits, run: seq<Action>, t: System, a: Action)
    requires G.Positive(limits.gate) && Leads(s, limits, run, t) && Enabled(t, a)
    ensures Leads(s, limits, run + [a], Apply(t, limits, a))
    decreases |run|
  {
    if run == [] {
      assert [] + [a] == [a];
    } else {
      assert (run + [a])[1..] == run[1..] + [a];
      LeadsOn(Apply(s, limits, run[0]), limits, run[1..], t, a);
    }
  }

  predicate Roomy(limits: Limits) {
    G.Positive(limits.gate) && limits.pool.maxProcesses >= 1 && R.Positive(limits.registry)
  }

  const BIND_TWO := [] + [Create(0, 0, 0, 0, 1)] + [Bind(0, 0, 0)] + [Bind(1, 0, 0)]

  lemma BindingTwo(limits: Limits)
    requires Roomy(limits)
    ensures Leads(Start, limits, BIND_TWO, TwoBound())
  {
    var s1 := Apply(Start, limits, Create(0, 0, 0, 0, 1));
    assert R.Recorded(Start.reg, limits.registry, 0, 0) == [T.Event(0, 0)];
    assert s1.reg == TwoBound().reg && s1.issued == map[0 := 0] && s1.known == {0};
    var s2 := Apply(s1, limits, Bind(0, 0, 0));
    assert T.Renewed(s1.reg.rows, 0, 0) == s1.reg.rows;
    assert Apply(s2, limits, Bind(1, 0, 0)) == TwoBound();
    LeadsOn(Start, limits, [], Start, Create(0, 0, 0, 0, 1));
    LeadsOn(Start, limits, [] + [Create(0, 0, 0, 0, 1)], s1, Bind(0, 0, 0));
    LeadsOn(Start, limits, [] + [Create(0, 0, 0, 0, 1)] + [Bind(0, 0, 0)], s2, Bind(1, 0, 0));
  }

  const ABANDON_ONE := BIND_TWO + [GateAcquire(0, 0)] + [ChildAcquire(0, 0, {}, {}, P.ReaderRaised, true)] + [GateRelease(0)]

  lemma AbandoningOne(limits: Limits)
    requires Roomy(limits)
    ensures Leads(Start, limits, ABANDON_ONE, OneAbandoned())
  {
    var gated := TwoBound().(gate := G.Gate(1, map[0 := 1], map[0 := [0]], {}), held := map[0 := 0],
                             requests := map[0 := Request(Gated, 0), 1 := Request(Bound, 0)]);
    var draining := gated.(pool := OneAbandoned().pool, homes := map[0 := 0],
                           requests := map[0 := Request(Draining, 0), 1 := Request(Bound, 0)]);
    BindingTwo(limits);
    assert [] + [0] == [0] && G.AcquireStep(G.Empty, limits.gate, 0, 0) == (gated.gate, G.Granted);
    assert Apply(TwoBound(), limits, GateAcquire(0, 0)) == gated;
    assert P.Apply(gated.pool, limits.pool, P.Acquire(0, 0, 0, {}, {}, P.ReaderRaised)) == draining.pool;
    assert Apply(gated, limits, ChildAcquire(0, 0, {}, {}, P.ReaderRaised, true)) == draining;
    assert Apply(draining, limits, GateRelease(0)) == OneAbandoned();
    LeadsOn(Start, limits, BIND_TWO, TwoBound(), GateAcquire(0, 0));
    LeadsOn(Start, limits, BIND_TWO + [GateAcquire(0, 0)], gated, ChildAcquire(0, 0, {}, {}, P.ReaderRaised, true));
    LeadsOn(Start, limits, BIND_TWO + [GateAcquire(0, 0)] + [ChildAcquire(0, 0, {}, {}, P.ReaderRaised, true)], draining, GateRelease(0));
  }

  const MARK_ONE := ABANDON_ONE + [Resolve(0, 0, 0)] + [BeginReset(0)] + [StopChild(0, {})]

  lemma MarkingOne(limits: Limits)
    requires Roomy(limits)
    ensures Leads(Start, limits, MARK_ONE, OneMarked())
  {
    var resolved := OneAbandoned().(overs := map[0 := StartOver(Resolved, 0, 0)]);
    var marked := OneMarked().(overs := map[0 := StartOver(Marked, 0, 0)]);
    AbandoningOne(limits);
    assert T.Renewed(resolved.reg.rows, 0, 0) == resolved.reg.rows;
    assert Apply(OneAbandoned(), limits, Resolve(0, 0, 0)) == resolved;
    assert Apply(resolved, limits, BeginReset(0)) == marked;
    assert Apply(marked, limits, StopChild(0, {})) == OneMarked();
    LeadsOn(Start, limits, ABANDON_ONE, OneAbandoned(), Resolve(0, 0, 0));
    LeadsOn(Start, limits, ABANDON_ONE + [Resolve(0, 0, 0)], resolved, BeginReset(0));
    LeadsOn(Start, limits, ABANDON_ONE + [Resolve(0, 0, 0)] + [BeginReset(0)], marked, StopChild(0, {}));
  }

  const START_OVER := MARK_ONE + [Rotate(0, 1, 1, 1, 0, 1)] + [RemoveOld(0)] + [EndReset(0)]

  lemma StartingOver(limits: Limits)
    requires Roomy(limits)
    ensures Leads(Start, limits, START_OVER, StartedOver())
  {
    var swapped := OneMarked().(reg := StartedOver().reg.(trees := map[0 := R.Complete, 1 := R.Complete]),
                                issued := map[0 := 0, 1 := 1], known := {0, 1},
                                overs := map[0 := StartOver(Swapped, 0, 0)]);
    var removed := swapped.(reg := StartedOver().reg, rotated := {0}, overs := map[0 := StartOver(Removed, 0, 0)]);
    MarkingOne(limits);
    RotatingOne(limits);
    assert Apply(swapped, limits, RemoveOld(0)) == removed;
    assert Apply(removed, limits, EndReset(0)) == StartedOver();
    LeadsOn(Start, limits, MARK_ONE, OneMarked(), Rotate(0, 1, 1, 1, 0, 1));
    LeadsOn(Start, limits, MARK_ONE + [Rotate(0, 1, 1, 1, 0, 1)], swapped, RemoveOld(0));
    LeadsOn(Start, limits, MARK_ONE + [Rotate(0, 1, 1, 1, 0, 1)] + [RemoveOld(0)], removed, EndReset(0));
  }

  lemma RotationAdmitted(limits: Limits)
    requires Roomy(limits)
    ensures R.RotateTxn(OneMarked().reg, limits.registry, 0, 0, 1, 1, 1, 0, 1)
      == (StartedOver().reg.(trees := map[0 := R.Complete]), R.Admitted)
  {
    var reg := OneMarked().reg;
    var former, latest := T.Row(0, 0, 0, T.SESSION_TTL, 1), T.Row(1, 1, 0, T.SESSION_TTL, 1);
    assert T.After(reg.events, -limits.registry.window) == [T.Event(0, 0)];
    assert T.TimesOf([T.Event(0, 0)], 1) == [];
    assert R.Recorded(reg, limits.registry, 1, 0) == [T.Event(0, 0), T.Event(1, 0)];
    assert T.TotalSize(reg.rows) == 1;
    assert R.Admit(reg, limits.registry, 1, 0, 1, 1) == R.Admitted;
    assert reg.rows + [latest] == [former, latest] && [former, latest][1..] == [latest];
    assert T.DropToken([latest], 0) == [latest] && T.DropToken([former, latest], 0) == [latest];
  }

  lemma RotatingOne(limits: Limits)
    requires Roomy(limits)
    ensures Apply(OneMarked(), limits, Rotate(0, 1, 1, 1, 0, 1))
      == OneMarked().(reg := StartedOver().reg.(trees := map[0 := R.Complete, 1 := R.Complete]),
                      issued := map[0 := 0, 1 := 1], known := {0, 1},
                      overs := map[0 := StartOver(Swapped, 0, 0)])
  {
    RotationAdmitted(limits);
    assert T.RowFor(OneMarked().reg.rows, 0).Some? && T.RowFor(OneMarked().reg.rows, 0).value.sid == 0;
  }

  // The second request comes late: bound before the start-over, admitted after it.
  const COME_LATE :=
    START_OVER + [GateAcquire(1, G.WINDOW)] + [ChildAcquire(1, G.WINDOW, {}, {}, P.NotLaunched, true)]

  /** Both reservations are needed.  After a start-over has removed a copy, a process that start-up
      abandoned can run on for it, and a request that was bound before can bring its directory back,
      though never whole. */
  lemma RemovedCopyLeavesTraces(limits: Limits)
    requires Roomy(limits)
    ensures Feasible(Start, limits, COME_LATE)
    ensures var s := After(Start, limits, COME_LATE);
      0 in s.rotated && RunsFor(s, 0, 0) && 0 in s.reg.trees && s.reg.trees[0].Partial?
  {
    StartingOver(limits);
    var s := StartedOver();
    var gated := s.(gate := G.Gate(1, map[0 := 1], map[0 := [G.WINDOW]], {}), held := map[1 := 0],
                    requests := map[0 := Request(Answered, 0), 1 := Request(Gated, 0)]);
    assert G.Recent(s.gate, 0) == [0] && [0][1..] == [] && W.Prune([0], 0) == [] && [] + [G.WINDOW] == [G.WINDOW];
    assert G.AcquireStep(s.gate, limits.gate, 0, G.WINDOW).1 == G.Granted;
    assert map[0 := 0][0 := 1] == map[0 := 1] && map[0 := [0]][0 := [G.WINDOW]] == map[0 := [G.WINDOW]];
    assert G.AcquireStep(s.gate, limits.gate, 0, G.WINDOW) == (gated.gate, G.Granted);
    assert Apply(s, limits, GateAcquire(1, G.WINDOW)) == gated;
    LeadsOn(Start, limits, START_OVER, s, GateAcquire(1, G.WINDOW));
    LeadsOn(Start, limits, START_OVER + [GateAcquire(1, G.WINDOW)], gated, ChildAcquire(1, G.WINDOW, {}, {}, P.NotLaunched, true));
    var late := ChildAcquire(1, G.WINDOW, {}, {}, P.NotLaunched, true);
    assert P.Starts(gated.pool.pool, limits.pool, 0, G.WINDOW, {}, {});
    assert Apply(gated, limits, late).reg.trees == map[1 := R.Complete, 0 := R.Partial];
  }

  // Start-over `o` still stands behind the mark on its session.
  predicate KeepsMark(s: System, o: StartOverId, sid: SessionId) {
    && o in s.overs && HoldsMark(s.overs[o].stage) && s.overs[o].sid == sid
    && sid in s.gate.resetting && sid in s.markers && s.markers[sid] == o
  }

  // Start-over `o` is still between its mark and its end.
  predicate Standing(overs: map<StartOverId, StartOver>, o: StartOverId, sid: SessionId) {
    o in overs && HoldsMark(overs[o].stage) && overs[o].sid == sid
  }

  predicate IsStartOverStep(a: Action) {
    || a.Resolve? || a.BeginReset? || a.StopChild? || a.Rotate? || a.RotateFails? || a.RemoveOld? || a.RemoveFails? || a.EndReset?
  }

  lemma OthersLeaveOvers(s: System, limits: Limits, a: Action)
    requires G.Positive(limits.gate) && Enabled(s, a) && !IsStartOverStep(a)
    ensures Apply(s, limits, a).overs == s.overs
  {
  }

  lemma RotateMovesOn(s: System, limits: Limits, o: StartOverId, a: Action)
    requires G.Positive(limits.gate) && Enabled(s, a) && a.Rotate? && o in s.overs && HoldsMark(s.overs[o].stage)
    requires TablesInv(s.reg.rows, s.issued, s.known)
    requires s.overs[o].token in s.issued && s.issued[s.overs[o].token] == s.overs[o].sid
    ensures Standing(Apply(s, limits, a).overs, o, s.overs[o].sid)
  {
    if a.o == o { T.RowForMember(s.reg.rows, s.overs[o].token); }
  }

  lemma StartOverMovesOn(s: System, limits: Limits, o: StartOverId, a: Action)
    requires G.Positive(limits.gate) && Enabled(s, a) && IsStartOverStep(a) && !a.Rotate? && a != EndReset(o)
    requires o in s.overs && HoldsMark(s.overs[o].stage)
    ensures Standing(Apply(s, limits, a).overs, o, s.overs[o].sid)
  {
  }

  lemma OverMovesOn(s: System, limits: Limits, o: StartOverId, a: Action)
    requires G.Positive(limits.gate) && Inv(s, limits) && Enabled(s, a)
    requires o in s.overs && HoldsMark(s.overs[o].stage) && a != EndReset(o)
    ensures Standing(Apply(s, limits, a).overs, o, s.overs[o].sid)
  {
    if a.Rotate? {
      assert OverOk(s.issued, s.gate.resetting, s.markers, s.pool.pool.children, o, s.overs[o]);
      RotateMovesOn(s, limits, o, a);
    } else if IsStartOverStep(a) {
      StartOverMovesOn(s, limits, o, a);
    } else {
      OthersLeaveOvers(s, limits, a);
    }
  }

  /** Only the start-over that placed a reset mark can drop it: whatever else happens, a refused second
      start-over of the same session included, the mark stays and its owner keeps it. */
  lemma OnlyTheOwnerDropsTheMark(s: System, limits: Limits, o: StartOverId, a: Action)
    requires G.Positive(limits.gate) && Inv(s, limits) && Enabled(s, a)
    requires o in s.overs && HoldsMark(s.overs[o].stage) && a != EndReset(o)
    ensures KeepsMark(Apply(s, limits, a), o, s.overs[o].sid)
  {
    StepInv(s, limits, a);
    OverMovesOn(s, limits, o, a);
    OwnerKeepsMark(Apply(s, limits, a), limits, o);
  }

  lemma OwnerKeepsMark(s: System, limits: Limits, o: StartOverId)
    requires Inv(s, limits) && o in s.overs && HoldsMark(s.overs[o].stage)
    ensures KeepsMark(s, o, s.overs[o].sid)
  {
    assert OverOk(s.issued, s.gate.resetting, s.markers, s.pool.pool.children, o, s.overs[o]);
  }

  lemma SecondStartOverIsRefused(s: System, limits: Limits, first: StartOverId, second: StartOverId)
    requires G.Positive(limits.gate) && Inv(s, limits) && first in s.overs && HoldsMark(s.overs[first].stage)
    requires OverAt(s, second, Resolved) && s.overs[second].sid == s.overs[first].sid
    ensures var s' := Apply(s, limits, BeginReset(second));
      s'.gate == s.gate && s'.markers == s.markers && s'.overs[second].stage == Ended
      && !Enabled(s', EndReset(second))
  {
    assert OverOk(s.issued, s.gate.resetting, s.markers, s.pool.pool.children, first, s.overs[first]);
  }
}
