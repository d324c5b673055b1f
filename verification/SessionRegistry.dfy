/** The gateway's durable sessions: a table that maps cookie hashes to private copies of the demo
    fixture, the directories of those copies, and the table of recent creations.  Every SQL
    transaction is one atomic step; copying a fixture and removing a tree take several, and the
    process may die between any two of them.  Times are whole microseconds. */
module SessionRegistry {
  import opened Options
  import opened SessionTables
  import opened SlidingWindow

  type Thread = nat

  datatype Limits = Limits(maxSessions: int, maxTotalBytes: int, maxSessionBytes: int, maxCreations: int, window: int)

  predicate Positive(limits: Limits) {
    limits.maxSessions >= 1 && limits.maxTotalBytes >= 1 && limits.maxSessionBytes >= 1
    && limits.maxCreations >= 1 && limits.window > 0
  }

  function RateOf(limits: Limits): Rate
    requires Positive(limits)
  {
    Rate(limits.maxCreations, limits.window)
  }

  datatype Tree = Complete | Partial

  /** `trees` are the directories named by a session id, `temps` the ones still being filled. */
  datatype Registry = Registry(rows: seq<Row>, events: seq<Event>, trees: map<SessionId, Tree>, temps: set<SessionId>)

  // ---- Transactions ---------------------------------------------------------------------

  datatype Verdict = Admitted | RateLimited(retryAfter: int) | AtCapacity | StorageFull | Unavailable

  function Admit(reg: Registry, limits: Limits, client: Client, now: int, newSize: nat, replacing: nat): Verdict {
    var own := TimesOf(After(reg.events, now - limits.window), client);
    if |own| >= limits.maxCreations then
      RateLimited(RetryAfter(Oldest(own) + limits.window - now, SECOND))
    else if |reg.rows| - (if replacing != 0 then 1 else 0) >= limits.maxSessions then AtCapacity
    else if TotalSize(reg.rows) - replacing + newSize > limits.maxTotalBytes then StorageFull
    else Admitted
  }

  function Recorded(reg: Registry, limits: Limits, client: Client, now: int): seq<Event> {
    After(reg.events, now - limits.window) + [Event(client, now)]
  }

  /** A refused transaction rolls back, its pruning of old creations included. */
  function CreateTxn(reg: Registry, limits: Limits, token: Token, sid: SessionId, client: Client, now: int, size: nat):
    (Registry, Verdict)
  {
    var verdict := Admit(reg, limits, client, now, size, 0);
    if verdict.Admitted? then
      (reg.(rows := reg.rows + [Row(token, sid, now, now + SESSION_TTL, size)],
            events := Recorded(reg, limits, client, now)), verdict)
    else (reg, verdict)
  }

  function RotateTxn(reg: Registry, limits: Limits, former: Token, formerSid: SessionId, token: Token, sid: SessionId,
                     client: Client, now: int, size: nat): (Registry, Verdict)
  {
    var current := RowFor(reg.rows, former);
    if current.None? || current.value.sid != formerSid then (reg, Unavailable)
    else
      var verdict := Admit(reg, limits, client, now, size, current.value.size);
      if verdict.Admitted? then
        (reg.(rows := DropToken(reg.rows + [Row(token, sid, now, now + SESSION_TTL, size)], former),
              events := Recorded(reg, limits, client, now)), verdict)
      else (reg, verdict)
  }

  function DiscardTxn(reg: Registry, token: Token, sid: SessionId): (Registry, bool) {
    var current := RowFor(reg.rows, token);
    if current.None? || current.value.sid != sid then (reg, false)
    else (reg.(rows := DropToken(reg.rows, token)), true)
  }

  function ExpireTxn(reg: Registry, now: int, protected: set<SessionId>): (Registry, set<SessionId>) {
    (reg.(rows := DropExpired(reg.rows, now, protected)), ExpiredSessions(reg.rows, now, protected))
  }

  // ---- Caps -----------------------------------------------------------------------------

  /** A committed create leaves the row count within the cap and the recorded bytes within theirs. */
  lemma CreateCaps(reg: Registry, limits: Limits, token: Token, sid: SessionId, client: Client, now: int, size: nat)
    requires Keyed(reg.rows) && forall r :: r in reg.rows ==> r.token != token && r.sid != sid
    requires CreateTxn(reg, limits, token, sid, client, now, size).1.Admitted?
    ensures var rows := CreateTxn(reg, limits, token, sid, client, now, size).0.rows;
      |rows| == |reg.rows| + 1 <= limits.maxSessions && TotalSize(rows) <= limits.maxTotalBytes
  {
    AddRow(reg.rows, Row(token, sid, now, now + SESSION_TTL, size));
  }

  /** A committed rotation replaces one row by one: the count stays, and the recorded bytes, with the
      old copy no longer counted, are within the cap. */
  lemma RotateCaps(reg: Registry, limits: Limits, former: Token, formerSid: SessionId, token: Token, sid: SessionId,
                   client: Client, now: int, size: nat)
    requires Keyed(reg.rows) && forall r :: r in reg.rows ==> r.token != token && r.sid != sid
    requires RotateTxn(reg, limits, former, formerSid, token, sid, client, now, size).1.Admitted?
    ensures var rows := RotateTxn(reg, limits, former, formerSid, token, sid, client, now, size).0.rows;
      && |rows| == |reg.rows| && TotalSize(rows) <= limits.maxTotalBytes && Keyed(rows)
      && forall r :: r in rows <==>
           (r in reg.rows && r.token != former) || r == Row(token, sid, now, now + SESSION_TTL, size)
  {
    hide RowFor, DropToken, TotalSize, Keyed;
    var row := Row(token, sid, now, now + SESSION_TTL, size);
    RowForMember(reg.rows, former);
    AddRow(reg.rows, row);
    assert former != token && RowFor(reg.rows + [row], former) == RowFor(reg.rows, former);
    DropTokenRows(reg.rows + [row], former);
  }

  // ---- Concurrent operations, and crashes -----------------------------------------------

  datatype Job = Fresh | Replace(former: Token, formerSid: SessionId)

  datatype Stage = Copying | Copied | Removing

  // `sid` is the copy being made; `doomed` are the trees still to be removed.
  datatype Pc = Pc(stage: Stage, job: Job, token: Token, sid: SessionId, size: nat, client: Client, now: int,
                   doomed: set<SessionId>)

  /** `used` and `minted` are the session ids and cookies ever generated; they are never generated
      again.  `holder` names the thread that is making or removing a tree. */
  datatype System = System(reg: Registry, threads: map<Thread, Pc>, used: set<SessionId>, minted: set<Token>,
                           holder: map<SessionId, Thread>)

  datatype Action =
    | BeginCopy(t: Thread, job: Job, token: Token, sid: SessionId, client: Client, now: int)
    | CopyFails(t: Thread)
    | Publish(t: Thread, size: nat)
    | Commit(t: Thread)
    | Discard(t: Thread, token: Token, sid: SessionId)
    | Expire(t: Thread, now: int, protected: set<SessionId>)
    | BreakTree(t: Thread, sid: SessionId)
    | RemoveTree(t: Thread, sid: SessionId)
    | Finish(t: Thread)
    | Renew(token: Token, now: int)
    | Measure(sid: SessionId, size: nat)
    | Crash

  predicate At(s: System, t: Thread, stage: Stage) { t in s.threads && s.threads[t].stage == stage }

  predicate Enabled(s: System, a: Action) {
    match a
    case BeginCopy(t, job, token, sid, _, _) =>
      t !in s.threads && sid !in s.used && token !in s.minted && sid !in s.reg.temps && sid !in s.reg.trees
      && (job.Replace? ==> RowFor(s.reg.rows, job.former).Some? && RowFor(s.reg.rows, job.former).value.sid == job.formerSid)
    case CopyFails(t) => At(s, t, Copying)
    case Publish(t, _) => At(s, t, Copying)
    case Commit(t) => At(s, t, Copied)
    case Discard(t, token, sid) => t !in s.threads && DiscardTxn(s.reg, token, sid).1
    case Expire(t, _, _) => t !in s.threads
    case BreakTree(t, sid) => At(s, t, Removing) && sid in s.threads[t].doomed && sid in s.reg.trees
    case RemoveTree(t, sid) => At(s, t, Removing) && sid in s.threads[t].doomed
    case Finish(t) => At(s, t, Removing) && s.threads[t].doomed == {}
    case _ => true
  }

  // The transaction that ends a copy.
  function CommitTxn(reg: Registry, limits: Limits, pc: Pc): (Registry, Verdict) {
    match pc.job
    case Fresh => CreateTxn(reg, limits, pc.token, pc.sid, pc.client, pc.now, pc.size)
    case Replace(former, formerSid) => RotateTxn(reg, limits, former, formerSid, pc.token, pc.sid, pc.client, pc.now, pc.size)
  }

  function Apply(s: System, limits: Limits, a: Action): System
    requires Enabled(s, a)
  {
    var reg := s.reg;
    match a
    case BeginCopy(t, job, token, sid, client, now) =>
      System(reg.(temps := reg.temps + {sid}), s.threads[t := Pc(Copying, job, token, sid, 0, client, now, {})],
             s.used + {sid}, s.minted + {token}, s.holder[sid := t])
    case CopyFails(t) =>
      s.(reg := reg.(temps := reg.temps - {s.threads[t].sid}), threads := s.threads - {t})
    case Publish(t, size) =>
      var pc := s.threads[t];
      s.(reg := reg.(temps := reg.temps - {pc.sid}, trees := reg.trees[pc.sid := Complete]),
         threads := s.threads[t := pc.(stage := Copied, size := size)])
    case Commit(t) =>
      var pc := s.threads[t];
      var (reg', verdict) := CommitTxn(reg, limits, pc);
      if verdict.Admitted? then
        if pc.job.Fresh? then s.(reg := reg', threads := s.threads - {t})
        else s.(reg := reg', threads := s.threads[t := pc.(stage := Removing, doomed := {pc.job.formerSid})],
                holder := s.holder[pc.job.formerSid := t])
      else s.(threads := s.threads[t := pc.(stage := Removing, doomed := {pc.sid})])
    case Discard(t, token, sid) =>
      s.(reg := DiscardTxn(reg, token, sid).0,
         threads := s.threads[t := Pc(Removing, Fresh, token, sid, 0, 0, 0, {sid})], holder := s.holder[sid := t])
    case Expire(t, now, protected) =>
      var (reg', doomed) := ExpireTxn(reg, now, protected);
      s.(reg := reg', threads := s.threads[t := Pc(Removing, Fresh, 0, 0, 0, 0, now, doomed)],
         holder := map sid | sid in s.holder.Keys + doomed :: if sid in doomed then t else s.holder[sid])
    case BreakTree(t, sid) => s.(reg := reg.(trees := reg.trees[sid := Partial]))
    case RemoveTree(t, sid) =>
      s.(reg := reg.(trees := reg.trees - {sid}),
         threads := s.threads[t := s.threads[t].(doomed := s.threads[t].doomed - {sid})])
    case Finish(t) => s.(threads := s.threads - {t})
    case Renew(token, now) => s.(reg := reg.(rows := Renewed(reg.rows, token, now)))
    case Measure(sid, size) => s.(reg := reg.(rows := Measured(reg.rows, sid, size)))
    case Crash => s.(threads := map[])
  }

  // ---- The invariant --------------------------------------------------------------------

  function Holds(pc: Pc): set<SessionId> { if pc.stage.Removing? then pc.doomed else {pc.sid} }

  predicate HasRow(rows: seq<Row>, sid: SessionId) { exists r :: r in rows && r.sid == sid }

  predicate ThreadOk(s: System, t: Thread, pc: Pc) {
    && (forall sid :: sid in Holds(pc) ==>
          sid in s.used && !HasRow(s.reg.rows, sid) && sid in s.holder && s.holder[sid] == t)
    && (pc.stage.Copied? ==> pc.sid in s.reg.trees && s.reg.trees[pc.sid] == Complete)
    && (!pc.stage.Removing? ==> pc.token in s.minted && forall r :: r in s.reg.rows ==> r.token != pc.token)
  }

  predicate RowOk(s: System, r: Row) {
    && r.sid in s.reg.trees && s.reg.trees[r.sid] == Complete
    && r.sid in s.used && r.token in s.minted
  }

  ghost predicate Inv(s: System, limits: Limits) {
    match s
    case System(reg, threads, _, _, _) =>
      && Keyed(reg.rows) && |reg.rows| <= limits.maxSessions
      && (forall r :: r in reg.rows ==> RowOk(s, r))
      && (forall t :: t in threads ==> ThreadOk(s, t, threads[t]))
      && (forall t, u :: t in threads && u in threads && SameToken(threads[t], threads[u]) ==> t == u)
  }

  predicate SameToken(a: Pc, b: Pc) { !a.stage.Removing? && !b.stage.Removing? && a.token == b.token }

  lemma StartInv(limits: Limits)
    requires limits.maxSessions >= 0
    ensures Inv(System(Registry([], [], map[], {}), map[], {}, {}, map[]), limits)
  {
  }

  lemma BeginCopyInv(s: System, limits: Limits, a: Action)
    requires Inv(s, limits) && Enabled(s, a) && a.BeginCopy?
    ensures Inv(Apply(s, limits, a), limits)
  {
  }

  lemma PublishInv(s: System, limits: Limits, a: Action)
    requires Inv(s, limits) && Enabled(s, a) && (a.Publish? || a.CopyFails? || a.Finish? || a.Crash?)
    ensures Inv(Apply(s, limits, a), limits)
  {
  }

  lemma BreakInv(s: System, limits: Limits, a: Action)
    requires Inv(s, limits) && Enabled(s, a) && (a.BreakTree? || a.RemoveTree?)
    ensures Inv(Apply(s, limits, a), limits)
  {
    var s' := Apply(s, limits, a);
    assert ThreadOk(s, a.t, s.threads[a.t]);
    assert s'.reg.rows == s.reg.rows;
    forall r | r in s'.reg.rows ensures RowOk(s', r) {
      assert RowOk(s, r) && HasRow(s.reg.rows, r.sid);
    }
    forall u | u in s'.threads ensures ThreadOk(s', u, s'.threads[u]) {
      assert ThreadOk(s, u, s.threads[u]);
      assert s.threads[u].stage.Copied? ==> s.threads[u].sid in Holds(s.threads[u]);
    }
  }

  // Changing rows without changing their keys.
  lemma UpdateInv(s: System, limits: Limits, rows: seq<Row>)
    requires Inv(s, limits) && SameKeys(s.reg.rows, rows)
    ensures Inv(s.(reg := s.reg.(rows := rows)), limits)
  {
    SameKeysKeyed(s.reg.rows, rows);
    SameKeysMembers(s.reg.rows, rows);
    var s' := s.(reg := s.reg.(rows := rows));
    forall r | r in rows ensures RowOk(s', r) {
      var q :| q in s.reg.rows && q.token == r.token && q.sid == r.sid;
      assert RowOk(s, q);
    }
    forall u | u in s'.threads ensures ThreadOk(s', u, s'.threads[u]) {
      assert ThreadOk(s, u, s.threads[u]);
    }
  }

  lemma ExpireInv(s: System, limits: Limits, a: Action)
    requires Inv(s, limits) && Enabled(s, a) && a.Expire?
    ensures Inv(Apply(s, limits, a), limits)
  {
    ExpiryIsExact(s.reg.rows, a.now, a.protected);
    var s', doomed := Apply(s, limits, a), ExpiredSessions(s.reg.rows, a.now, a.protected);
    assert forall sid :: sid in doomed ==> HasRow(s.reg.rows, sid);
    forall r | r in s'.reg.rows ensures RowOk(s', r) {
      assert RowOk(s, r);
    }
    forall u | u in s'.threads ensures ThreadOk(s', u, s'.threads[u]) {
      if u == a.t {
        DoomedAreKnown(s, limits, a.now, a.protected);
      } else {
        assert ThreadOk(s, u, s.threads[u]);
      }
    }
  }

  lemma DoomedAreKnown(s: System, limits: Limits, now: int, protected: set<SessionId>)
    requires Inv(s, limits)
    ensures forall sid :: sid in ExpiredSessions(s.reg.rows, now, protected) ==> sid in s.used
  {
    forall r | r in s.reg.rows ensures r.sid in s.used {
      assert RowOk(s, r);
    }
  }

  lemma DiscardInv(s: System, limits: Limits, a: Action)
    requires Inv(s, limits) && Enabled(s, a) && a.Discard?
    ensures Inv(Apply(s, limits, a), limits)
  {
    RowForMember(s.reg.rows, a.token);
    DropTokenRows(s.reg.rows, a.token);
    KeyedSame(s.reg.rows);
    var s' := Apply(s, limits, a);
    var row := RowFor(s.reg.rows, a.token).value;
    assert RowOk(s, row);
    assert HasRow(s.reg.rows, a.sid);
    forall u | u in s'.threads ensures ThreadOk(s', u, s'.threads[u]) {
      assert u != a.t ==> ThreadOk(s, u, s.threads[u]);
    }
  }

  // A refused transaction: the new copy is to be removed.
  lemma RefusedInv(s: System, limits: Limits, t: Thread)
    requires Inv(s, limits) && At(s, t, Copied)
    ensures var pc := s.threads[t];
      Inv(s.(threads := s.threads[t := pc.(stage := Removing, doomed := {pc.sid})]), limits)
  {
    assert ThreadOk(s, t, s.threads[t]);
  }

  lemma CreatedInv(s: System, limits: Limits, t: Thread)
    requires Inv(s, limits) && At(s, t, Copied) && s.threads[t].job.Fresh?
    requires CommitTxn(s.reg, limits, s.threads[t]).1.Admitted?
    ensures Inv(Apply(s, limits, Commit(t)), limits)
  {
    var pc, s' := s.threads[t], Apply(s, limits, Commit(t));
    assert ThreadOk(s, t, pc);
    forall r | r in s.reg.rows ensures r.token != pc.token && r.sid != pc.sid {
      assert HasRow(s.reg.rows, r.sid);
    }
    CreateCaps(s.reg, limits, pc.token, pc.sid, pc.client, pc.now, pc.size);
    AddRow(s.reg.rows, Row(pc.token, pc.sid, pc.now, pc.now + SESSION_TTL, pc.size));
    assert s'.reg.rows == s.reg.rows + [Row(pc.token, pc.sid, pc.now, pc.now + SESSION_TTL, pc.size)];
    forall r | r in s'.reg.rows ensures RowOk(s', r) {
      assert r in s.reg.rows ==> RowOk(s, r);
    }
    forall u | u in s'.threads ensures ThreadOk(s', u, s'.threads[u]) {
      assert ThreadOk(s, u, s.threads[u]);
      assert !SameToken(s.threads[u], pc);
    }
  }

  lemma RotatedInv(s: System, limits: Limits, t: Thread)
    requires Inv(s, limits) && At(s, t, Copied) && s.threads[t].job.Replace?
    requires CommitTxn(s.reg, limits, s.threads[t]).1.Admitted?
    ensures Inv(Apply(s, limits, Commit(t)), limits)
  {
    var pc, s' := s.threads[t], Apply(s, limits, Commit(t));
    var formerSid := pc.job.formerSid;
    assert ThreadOk(s, t, pc);
    forall r | r in s.reg.rows ensures r.token != pc.token && r.sid != pc.sid {
      assert HasRow(s.reg.rows, r.sid);
    }
    RotateCaps(s.reg, limits, pc.job.former, formerSid, pc.token, pc.sid, pc.client, pc.now, pc.size);
    RowForMember(s.reg.rows, pc.job.former);
    KeyedSame(s.reg.rows);
    var row := RowFor(s.reg.rows, pc.job.former).value;
    assert RowOk(s, row) && HasRow(s.reg.rows, formerSid);
    forall r | r in s'.reg.rows ensures RowOk(s', r) {
      assert r in s.reg.rows ==> RowOk(s, r);
    }
    forall u | u in s'.threads ensures ThreadOk(s', u, s'.threads[u]) {
      assert ThreadOk(s, u, s.threads[u]);
      assert u != t ==> !SameToken(s.threads[u], pc);
    }
  }

  lemma StepInv(s: System, limits: Limits, a: Action)
    requires Inv(s, limits) && Enabled(s, a)
    ensures Inv(Apply(s, limits, a), limits)
  {
    match a
    case BeginCopy(_, _, _, _, _, _) => BeginCopyInv(s, limits, a);
    case Commit(t) =>
      if CommitTxn(s.reg, limits, s.threads[t]).1 != Admitted {
        RefusedInv(s, limits, t);
      } else if s.threads[t].job.Fresh? {
        CreatedInv(s, limits, t);
      } else {
        RotatedInv(s, limits, t);
      }
    case Discard(_, _, _) => DiscardInv(s, limits, a);
    case Expire(_, _, _) => ExpireInv(s, limits, a);
    case BreakTree(_, _) => BreakInv(s, limits, a);
    case RemoveTree(_, _) => BreakInv(s, limits, a);
    case Renew(token, now) =>
      UpdatesKeepKeys(s.reg.rows, token, 0, now, 0);
      UpdateInv(s, limits, Renewed(s.reg.rows, token, now));
    case Measure(sid, size) =>
      UpdatesKeepKeys(s.reg.rows, 0, sid, 0, size);
      UpdateInv(s, limits, Measured(s.reg.rows, sid, size));
    case _ => PublishInv(s, limits, a);
  }

  const Start := System(Registry([], [], map[], {}), map[], {}, {}, map[])

  predicate Feasible(s: System, limits: Limits, run: seq<Action>)
    decreases |run|
  {
    run == [] || (Enabled(s, run[0]) && Feasible(Apply(s, limits, run[0]), limits, run[1..]))
  }

  function AfterRun(s: System, limits: Limits, run: seq<Action>): System
    requires Feasible(s, limits, run)
    decreases |run|
  {
    if run == [] then s else AfterRun(Apply(s, limits, run[0]), limits, run[1..])
  }

  lemma {:induction false} RunInv(s: System, limits: Limits, run: seq<Action>)
    requires Inv(s, limits) && Feasible(s, limits, run)
    ensures Inv(AfterRun(s, limits, run), limits)
    decreases |run|
  {
    if run != [] {
      StepInv(s, limits, run[0]);
      RunInv(Apply(s, limits, run[0]), limits, run[1..]);
    }
  }

  /** After any steps of any operations, interleaved and cut short by crashes wherever they fall,
      every committed row names a complete directory of its own, and the row count is within its cap. */
  lemma CrashSafety(limits: Limits, run: seq<Action>)
    requires Positive(limits) && Feasible(Start, limits, run)
    ensures var reg := AfterRun(Start, limits, run).reg;
      && |reg.rows| <= limits.maxSessions
      && (forall r :: r in reg.rows ==> r.sid in reg.trees && reg.trees[r.sid] == Complete)
      && (forall i, j :: 0 <= i < j < |reg.rows| ==>
            reg.rows[i].sid != reg.rows[j].sid && reg.rows[i].token != reg.rows[j].token)
  {
    StartInv(limits);
    RunInv(Start, limits, run);
    var s := AfterRun(Start, limits, run);
    forall r | r in s.reg.rows ensures r.sid in s.reg.trees && s.reg.trees[r.sid] == Complete {
      assert RowOk(s, r);
    }
    KeyedApart(s.reg.rows);
  }

  // ---- The creation limit over whole runs -----------------------------------------------

  /** One creation asked for: by which client, and the time its transaction carries. */
  datatype Try = Try(client: Client, now: int)

  predicate RateAllows(events: seq<Event>, limits: Limits, client: Client, now: int) {
    |TimesOf(After(events, now - limits.window), client)| < limits.maxCreations
  }

  // The rate check of the transactions is this one.
  lemma RateCheck(reg: Registry, limits: Limits, client: Client, now: int, size: nat, replacing: nat)
    ensures Admit(reg, limits, client, now, size, replacing).RateLimited? <==> !RateAllows(reg.events, limits, client, now)
  {
  }

  predicate Granted(events: seq<Event>, limits: Limits, t: Try) { RateAllows(events, limits, t.client, t.now) }

  // The stored events after one more try, and the time it adds to those granted to `client`.
  function EventsStep(events: seq<Event>, limits: Limits, t: Try): seq<Event> {
    if Granted(events, limits, t) then After(events, t.now - limits.window) + [Event(t.client, t.now)] else events
  }

  function GrantStep(events: seq<Event>, limits: Limits, t: Try, client: Client): seq<int> {
    if t.client == client && Granted(events, limits, t) then [t.now] else []
  }

  function EventsAfter(limits: Limits, tries: seq<Try>): seq<Event> {
    if tries == [] then [] else EventsStep(EventsAfter(limits, tries[..|tries| - 1]), limits, tries[|tries| - 1])
  }

  // When `client` was granted a copy, in all.
  function CreationTimes(limits: Limits, tries: seq<Try>, client: Client): seq<int> {
    if tries == [] then []
    else
      var before := tries[..|tries| - 1];
      CreationTimes(limits, before, client) + GrantStep(EventsAfter(limits, before), limits, tries[|tries| - 1], client)
  }

  function Clock(tries: seq<Try>): int {
    if tries == [] then 0 else tries[|tries| - 1].now
  }

  /** The times that reach the transactions go back by at most `lag`.  The clock is read before the
      fixture is copied, so a slow copy brings an old time to its transaction. */
  predicate Lagging(tries: seq<Try>, lag: int) {
    forall i, j :: 0 <= i < j < |tries| ==> tries[i].now - lag <= tries[j].now
  }

  predicate Monotone(tries: seq<Try>) { Lagging(tries, 0) }

  predicate Until(tries: seq<Try>, now: int) { tries != [] ==> Clock(tries) <= now }

  function Later(times: seq<int>, cutoff: int): seq<int> {
    if times == [] then [] else (if times[0] > cutoff then [times[0]] else []) + Later(times[1..], cutoff)
  }

  lemma {:induction false} FilterCommutes(events: seq<Event>, client: Client, cutoff: int)
    ensures TimesOf(After(events, cutoff), client) == Later(TimesOf(events, client), cutoff)
  {
    if events != [] {
      FilterCommutes(events[1..], client, cutoff);
      var e, kept, times := events[0], After(events[1..], cutoff), TimesOf(events[1..], client);
      assert ([e] + kept)[1..] == kept && [] + kept == kept;
      assert ([e.at] + times)[1..] == times && [] + times == times;
    }
  }

  // Never going back, step by step.
  predicate InOrder(times: seq<int>) {
    |times| <= 1 || (times[0] <= times[1] && InOrder(times[1..]))
  }

  lemma {:induction false} LaterIsPrune(times: seq<int>, cutoff: int)
    requires InOrder(times)
    ensures Later(times, cutoff) == Prune(times, cutoff)
  {
    if times != [] {
      LaterIsPrune(times[1..], cutoff);
      if times[0] > cutoff { AllLater(times, cutoff); }
    }
  }

  lemma {:induction false} AllLater(times: seq<int>, cutoff: int)
    requires InOrder(times) && (times != [] ==> times[0] > cutoff)
    ensures Later(times, cutoff) == times
  {
    if times != [] { AllLater(times[1..], cutoff); }
  }

  lemma {:induction false} AscendingInOrder(times: seq<int>)
    requires Ascending(times)
    ensures InOrder(times)
  {
    if |times| > 1 {
      assert forall i, j :: 0 <= i < j < |times[1..]| ==> times[1..][i] == times[i + 1] && times[1..][j] == times[j + 1];
      AscendingInOrder(times[1..]);
    }
  }

  // What is tracked is in order, being the tail of a history in order.
  lemma TrackedInOrder(recent: seq<int>, granted: seq<int>, clock: int, limit: nat, window: int)
    requires Tracks(recent, granted, clock, Rate(limit, window))
    ensures InOrder(recent)
  {
    var cut := |granted| - |recent|;
    forall i, j | 0 <= i < j < |recent| ensures recent[i] <= recent[j] {
      assert recent[i] == granted[cut + i] && recent[j] == granted[cut + j];
    }
    AscendingInOrder(recent);
  }

  lemma PrunedIsPrune(events: seq<Event>, granted: seq<int>, clock: int, now: int, limits: Limits, client: Client)
    requires Positive(limits)
    requires Tracks(TimesOf(events, client), granted, clock, RateOf(limits))
    ensures TimesOf(After(events, now - limits.window), client) == Prune(TimesOf(events, client), now - limits.window)
  {
    hide Tracks;
    TrackedInOrder(TimesOf(events, client), granted, clock, limits.maxCreations, limits.window);
    PruneInOrder(events, now - limits.window, client);
  }

  lemma PruneInOrder(events: seq<Event>, cutoff: int, client: Client)
    requires InOrder(TimesOf(events, client))
    ensures TimesOf(After(events, cutoff), client) == Prune(TimesOf(events, client), cutoff)
  {
    FilterCommutes(events, client, cutoff);
    LaterIsPrune(TimesOf(events, client), cutoff);
  }

  // The stored times of one client, pruned as the transaction prunes them.
  lemma PrunedTimes(events: seq<Event>, granted: seq<int>, clock: int, now: int, limits: Limits, client: Client)
    requires Positive(limits) && clock <= now
    requires Tracks(TimesOf(events, client), granted, clock, RateOf(limits))
    ensures Tracks(TimesOf(After(events, now - limits.window), client), granted, now, RateOf(limits))
    ensures Tracks(TimesOf(events, client), granted, now, RateOf(limits))
  {
    PrunedIsPrune(events, granted, clock, now, limits, client);
    PruneTracks(TimesOf(events, client), granted, clock, now, limits.maxCreations, limits.window);
  }

  lemma {:induction false} TriesTrack(limits: Limits, tries: seq<Try>, client: Client)
    requires Positive(limits) && Monotone(tries)
    ensures Tracks(TimesOf(EventsAfter(limits, tries), client), CreationTimes(limits, tries, client), Clock(tries),
                   RateOf(limits))
  {
    if tries != [] {
      var before, last := tries[..|tries| - 1], tries[|tries| - 1];
      assert forall i :: 0 <= i < |before| ==> before[i] == tries[i];
      TriesTrack(limits, before, client);
      var clock := if before == [] then last.now else Clock(before);
      TryTracks(limits, EventsAfter(limits, before), CreationTimes(limits, before, client), clock, last, client);
    }
  }

  lemma TracksUntil(limits: Limits, tries: seq<Try>, client: Client, now: int)
    requires Positive(limits) && Monotone(tries) && Until(tries, now)
    ensures Tracks(TimesOf(EventsAfter(limits, tries), client), CreationTimes(limits, tries, client), now, RateOf(limits))
  {
    TriesTrack(limits, tries, client);
    var own, granted := TimesOf(EventsAfter(limits, tries), client), CreationTimes(limits, tries, client);
    if tries != [] { TracksLater(own, granted, Clock(tries), now, limits.maxCreations, limits.window); }
  }

  lemma TracksLater(recent: seq<int>, granted: seq<int>, clock: int, now: int, limit: nat, window: int)
    requires Tracks(recent, granted, clock, Rate(limit, window)) && clock <= now
    ensures Tracks(recent, granted, now, Rate(limit, window))
  {
  }

  lemma GrantedTryTracks(limits: Limits, events: seq<Event>, granted: seq<int>, last: Try, client: Client)
    requires Positive(limits) && Granted(events, limits, last)
    requires Tracks(TimesOf(After(events, last.now - limits.window), client), granted, last.now, RateOf(limits))
    ensures Tracks(TimesOf(EventsStep(events, limits, last), client), granted + GrantStep(events, limits, last, client),
                   last.now, RateOf(limits))
  {
    var kept := After(events, last.now - limits.window);
    TimesAppend(kept, Event(last.client, last.now), client);
    if last.client == client {
      GrantTracks(TimesOf(kept, client), granted, last.now, limits.maxCreations, limits.window);
    } else {
      assert granted + [] == granted;
      assert TimesOf(kept, client) + [] == TimesOf(kept, client);
    }
  }

  lemma TryTracks(limits: Limits, events: seq<Event>, granted: seq<int>, clock: int, last: Try, client: Client)
    requires Positive(limits) && clock <= last.now
    requires Tracks(TimesOf(events, client), granted, clock, RateOf(limits))
    ensures Tracks(TimesOf(EventsStep(events, limits, last), client), granted + GrantStep(events, limits, last, client),
                   last.now, RateOf(limits))
  {
    PrunedTimes(events, granted, clock, last.now, limits, client);
    if Granted(events, limits, last) {
      GrantedTryTracks(limits, events, granted, last, client);
    } else {
      assert granted + [] == granted;
    }
  }

  // ---- The creations of a run -----------------------------------------------------------

  // The creation a step commits.
  function TryOf(s: System, limits: Limits, a: Action): seq<Try>
    requires Enabled(s, a)
  {
    if a.Commit? && CommitTxn(s.reg, limits, s.threads[a.t]).1.Admitted? then
      [Try(s.threads[a.t].client, s.threads[a.t].now)]
    else []
  }

  // All creations committed in a run, in the order of their transactions.
  function TriesOf(s: System, limits: Limits, run: seq<Action>): seq<Try>
    requires Feasible(s, limits, run)
    decreases |run|
  {
    if run == [] then [] else TryOf(s, limits, run[0]) + TriesOf(Apply(s, limits, run[0]), limits, run[1..])
  }

  function CreatedAt(tries: seq<Try>, client: Client): seq<int> {
    if tries == [] then []
    else
      var last := tries[|tries| - 1];
      CreatedAt(tries[..|tries| - 1], client) + if last.client == client then [last.now] else []
  }

  // The rate check lets every one of them pass.
  predicate AllAllowed(limits: Limits, tries: seq<Try>) {
    tries == []
    || (AllAllowed(limits, tries[..|tries| - 1])
        && Granted(EventsAfter(limits, tries[..|tries| - 1]), limits, tries[|tries| - 1]))
  }

  lemma {:induction false} AllowedAreCreated(limits: Limits, tries: seq<Try>, client: Client)
    requires AllAllowed(limits, tries)
    ensures CreationTimes(limits, tries, client) == CreatedAt(tries, client)
  {
    if tries != [] { AllowedAreCreated(limits, tries[..|tries| - 1], client); }
  }

  // A transaction of the registry that commits a creation is a try that is granted; nothing else touches the events.
  lemma StepIsTry(s: System, limits: Limits, a: Action)
    requires Enabled(s, a)
    ensures TryOf(s, limits, a) == [] ==> Apply(s, limits, a).reg.events == s.reg.events
    ensures TryOf(s, limits, a) != [] ==>
      && Granted(s.reg.events, limits, TryOf(s, limits, a)[0])
      && Apply(s, limits, a).reg.events == EventsStep(s.reg.events, limits, TryOf(s, limits, a)[0])
  {
    if a.Commit? {
      var pc := s.threads[a.t];
      var size := if pc.job.Replace? && RowFor(s.reg.rows, pc.job.former).Some? then RowFor(s.reg.rows, pc.job.former).value.size else 0;
      RateCheck(s.reg, limits, pc.client, pc.now, pc.size, size);
    }
  }

  lemma StepGrowsTries(s: System, limits: Limits, a: Action, before: seq<Try>)
    requires Enabled(s, a) && s.reg.events == EventsAfter(limits, before) && AllAllowed(limits, before)
    ensures Apply(s, limits, a).reg.events == EventsAfter(limits, before + TryOf(s, limits, a))
    ensures AllAllowed(limits, before + TryOf(s, limits, a))
  {
    StepIsTry(s, limits, a);
    if TryOf(s, limits, a) == [] {
      assert before + [] == before;
    } else {
      OneMoreTry(limits, before, TryOf(s, limits, a)[0], 0);
    }
  }

  /** The events stored after any run of the registry, crashes included, are those of its committed
      creations, each granted at its turn. */
  lemma {:induction false} RunIsTries(s: System, limits: Limits, run: seq<Action>, before: seq<Try>)
    requires Feasible(s, limits, run) && s.reg.events == EventsAfter(limits, before) && AllAllowed(limits, before)
    ensures AfterRun(s, limits, run).reg.events == EventsAfter(limits, before + TriesOf(s, limits, run))
    ensures AllAllowed(limits, before + TriesOf(s, limits, run))
    decreases |run|
  {
    hide EventsAfter, AllAllowed, Apply, Enabled, TryOf;
    if run == [] {
      assert before + [] == before;
    } else {
      var made, rest := TryOf(s, limits, run[0]), TriesOf(Apply(s, limits, run[0]), limits, run[1..]);
      StepGrowsTries(s, limits, run[0], before);
      RunIsTries(Apply(s, limits, run[0]), limits, run[1..], before + made);
      assert (before + made) + rest == before + (made + rest);
    }
  }

  lemma RegistryTracks(limits: Limits, run: seq<Action>, client: Client, now: int)
    requires Positive(limits) && Feasible(Start, limits, run)
    requires Monotone(TriesOf(Start, limits, run)) && Until(TriesOf(Start, limits, run), now)
    ensures Tracks(TimesOf(AfterRun(Start, limits, run).reg.events, client), CreatedAt(TriesOf(Start, limits, run), client),
                   now, RateOf(limits))
  {
    var tries := TriesOf(Start, limits, run);
    RunIsTries(Start, limits, run, []);
    assert [] + tries == tries;
    AllowedAreCreated(limits, tries, client);
    TracksUntil(limits, tries, client, now);
  }

  // No window of the creation period holds more than the allowed number of the client's creations.
  predicate WithinLimit(limits: Limits, tries: seq<Try>, client: Client, t: int) {
    |InWindow(CreatedAt(tries, client), t, limits.window)| <= limits.maxCreations
  }

  /** In every run of the registry in which the times of the committing transactions do not go back, no
      window of the creation period, ending at whatever time, ever holds more creations of one client than
      the limit. */
  lemma CreationLimit(limits: Limits, run: seq<Action>, client: Client, t: int)
    requires Positive(limits) && Feasible(Start, limits, run) && Monotone(TriesOf(Start, limits, run))
    ensures WithinLimit(limits, TriesOf(Start, limits, run), client, t)
  {
    var tries := TriesOf(Start, limits, run);
    RegistryTracks(limits, run, client, Clock(tries));
    NoWindowExceedsLimit(CreatedAt(tries, client), limits.maxCreations, limits.window, t);
  }

  // ---- Every list of allowed creations is some run's --------------------------------------

  lemma {:induction false} RunOn(s: System, limits: Limits, run: seq<Action>, more: seq<Action>)
    requires Feasible(s, limits, run) && Feasible(AfterRun(s, limits, run), limits, more)
    ensures Feasible(s, limits, run + more)
    ensures AfterRun(s, limits, run + more) == AfterRun(AfterRun(s, limits, run), limits, more)
    ensures TriesOf(s, limits, run + more) == TriesOf(s, limits, run) + TriesOf(AfterRun(s, limits, run), limits, more)
    decreases |run|
  {
    hide Apply, Enabled, TryOf;
    if run == [] {
      assert run + more == more;
    } else {
      assert (run + more)[0] == run[0] && (run + more)[1..] == run[1..] + more;
      RunOn(Apply(s, limits, run[0]), limits, run[1..], more);
    }
  }

  // No rows, and from `n` on every identity is new.
  predicate Idle(s: System, n: nat) {
    && s.reg.rows == []
    && (forall k :: k in s.threads ==> k < n) && (forall k :: k in s.used ==> k < n)
    && (forall k :: k in s.minted ==> k < n) && (forall k :: k in s.reg.temps ==> k < n)
    && (forall k :: k in s.reg.trees ==> k < n)
  }

  // A creation from its copy to its discarding, with thread, cookie and session numbered alike.
  function Cycle(k: nat, t: Try): seq<Action> {
    [BeginCopy(k, Fresh, k, k, t.client, t.now)] + ([Publish(k, 0)] + ([Commit(k)] + ([Discard(k, k, k)] + [])))
  }

  lemma OneStep(s: System, limits: Limits, a: Action, rest: seq<Action>)
    requires Enabled(s, a) && Feasible(Apply(s, limits, a), limits, rest)
    ensures Feasible(s, limits, [a] + rest)
    ensures AfterRun(s, limits, [a] + rest) == AfterRun(Apply(s, limits, a), limits, rest)
    ensures TriesOf(s, limits, [a] + rest) == TryOf(s, limits, a) + TriesOf(Apply(s, limits, a), limits, rest)
  {
    assert ([a] + rest)[1..] == rest;
  }

  // The copy is in place and its transaction is next.
  function ReadyToCommit(s: System, n: nat, t: Try): System {
    System(s.reg.(temps := s.reg.temps + {n} - {n}, trees := s.reg.trees[n := Complete]),
           s.threads[n := Pc(Copied, Fresh, n, n, 0, t.client, t.now, {})],
           s.used + {n}, s.minted + {n}, s.holder[n := n])
  }

  lemma CycleBegins(s: System, limits: Limits, n: nat, t: Try)
    requires Idle(s, n)
    ensures var a := BeginCopy(n, Fresh, n, n, t.client, t.now);
      && Enabled(s, a) && Enabled(Apply(s, limits, a), Publish(n, 0))
      && Apply(Apply(s, limits, a), limits, Publish(n, 0)) == ReadyToCommit(s, n, t)
  {
    var s1 := Apply(s, limits, BeginCopy(n, Fresh, n, n, t.client, t.now));
    var s2 := Apply(s1, limits, Publish(n, 0));
    assert s2.threads == ReadyToCommit(s, n, t).threads && s2.reg == ReadyToCommit(s, n, t).reg;
  }

  lemma CycleCommits(s: System, limits: Limits, n: nat, t: Try)
    requires Positive(limits) && Idle(s, n) && Granted(s.reg.events, limits, t)
    ensures var s2 := ReadyToCommit(s, n, t);
      && Enabled(s2, Commit(n)) && TryOf(s2, limits, Commit(n)) == [t]
      && var s3 := Apply(s2, limits, Commit(n));
         s3.reg.rows == [Row(n, n, t.now, t.now + SESSION_TTL, 0)] && s3.reg.events == EventsStep(s.reg.events, limits, t)
         && s3 == s2.(reg := s3.reg, threads := s2.threads - {n})
         && s3.reg.temps == s2.reg.temps && s3.reg.trees == s2.reg.trees
  {
    var s2 := ReadyToCommit(s, n, t);
    assert Admit(s2.reg, limits, t.client, t.now, 0, 0) == Admitted;
  }

  lemma CycleEnds(s: System, limits: Limits, n: nat, row: Row)
    requires n !in s.threads && s.reg.rows == [row] && row.token == row.sid == n && Idle(s.(reg := s.reg.(rows := [])), n + 1)
    ensures Enabled(s, Discard(n, n, n)) && Idle(Apply(s, limits, Discard(n, n, n)), n + 1)
    ensures Apply(s, limits, Discard(n, n, n)).reg.events == s.reg.events
  {
    assert RowFor([row], n) == Some(row) && [row][1..] == [] && DropToken([row], n) == [];
  }

  lemma CycleRuns(s: System, limits: Limits, n: nat, t: Try)
    requires Positive(limits) && Idle(s, n) && Granted(s.reg.events, limits, t)
    ensures Feasible(s, limits, Cycle(n, t)) && TriesOf(s, limits, Cycle(n, t)) == [t]
    ensures var s' := AfterRun(s, limits, Cycle(n, t));
      Idle(s', n + 1) && s'.reg.events == EventsStep(s.reg.events, limits, t)
  {
    var a := BeginCopy(n, Fresh, n, n, t.client, t.now);
    CycleBegins(s, limits, n, t);
    CycleCommits(s, limits, n, t);
    var s1 := Apply(s, limits, a);
    var s3 := Apply(ReadyToCommit(s, n, t), limits, Commit(n));
    CycleEnds(s3, limits, n, s3.reg.rows[0]);
    OneStep(s3, limits, Discard(n, n, n), []);
    OneStep(ReadyToCommit(s, n, t), limits, Commit(n), [Discard(n, n, n)] + []);
    OneStep(s1, limits, Publish(n, 0), [Commit(n)] + ([Discard(n, n, n)] + []));
    OneStep(s, limits, a, [Publish(n, 0)] + ([Commit(n)] + ([Discard(n, n, n)] + [])));
  }

  function RunFor(tries: seq<Try>): seq<Action> {
    if tries == [] then [] else RunFor(tries[..|tries| - 1]) + Cycle(|tries| - 1, tries[|tries| - 1])
  }

  // The run has committed exactly these creations and left nothing behind.
  predicate Reaches(limits: Limits, run: seq<Action>, tries: seq<Try>) {
    && Feasible(Start, limits, run) && TriesOf(Start, limits, run) == tries
    && Idle(AfterRun(Start, limits, run), |tries|)
    && AfterRun(Start, limits, run).reg.events == EventsAfter(limits, tries)
  }

  lemma OneMoreCycle(limits: Limits, run: seq<Action>, tries: seq<Try>, t: Try)
    requires Positive(limits) && Reaches(limits, run, tries) && Granted(EventsAfter(limits, tries), limits, t)
    ensures Reaches(limits, run + Cycle(|tries|, t), tries + [t])
  {
    hide Feasible, AfterRun, TriesOf, Cycle, Granted, Idle, AllAllowed;
    CycleRuns(AfterRun(Start, limits, run), limits, |tries|, t);
    RunOn(Start, limits, run, Cycle(|tries|, t));
    OneMoreTry(limits, tries, t, 0);
  }

  lemma {:induction false} EveryAllowedListIsReached(limits: Limits, tries: seq<Try>)
    requires Positive(limits) && AllAllowed(limits, tries)
    ensures Reaches(limits, RunFor(tries), tries)
  {
    if tries != [] {
      hide Reaches, Granted, Cycle;
      var front, last := tries[..|tries| - 1], tries[|tries| - 1];
      EveryAllowedListIsReached(limits, front);
      OneMoreCycle(limits, RunFor(front), front, last);
      assert tries == front + [last];
    }
  }

  function Repeated<T>(x: T, n: nat): seq<T> { seq(n, _ => x) }

  lemma {:induction false} AllRecent(n: nat, client: Client, cutoff: int)
    requires cutoff < 0
    ensures After(Repeated(Event(client, 0), n), cutoff) == Repeated(Event(client, 0), n)
    ensures TimesOf(Repeated(Event(client, 0), n), client) == Repeated(0, n)
  {
    if n > 0 {
      AllRecent(n - 1, client, cutoff);
      var events := Repeated(Event(client, 0), n);
      assert events[1..] == Repeated(Event(client, 0), n - 1);
      assert events == [Event(client, 0)] + Repeated(Event(client, 0), n - 1);
      assert Repeated(0, n) == [0] + Repeated(0, n - 1);
    }
  }

  lemma {:induction false} AllGone(n: nat, client: Client)
    ensures After(Repeated(Event(client, 0), n), 0) == []
  {
    if n > 0 {
      AllGone(n - 1, client);
      assert Repeated(Event(client, 0), n)[1..] == Repeated(Event(client, 0), n - 1);
    }
  }

  lemma OneMoreTry(limits: Limits, tries: seq<Try>, t: Try, client: Client)
    ensures EventsAfter(limits, tries + [t]) == EventsStep(EventsAfter(limits, tries), limits, t)
    ensures CreatedAt(tries + [t], client) == CreatedAt(tries, client) + if t.client == client then [t.now] else []
    ensures AllAllowed(limits, tries + [t]) <==> AllAllowed(limits, tries) && Granted(EventsAfter(limits, tries), limits, t)
  {
    assert (tries + [t])[..|tries|] == tries;
  }

  lemma OneMoreGrant(limits: Limits, client: Client, n: nat)
    requires Positive(limits) && n < limits.maxCreations
    ensures var events, t := Repeated(Event(client, 0), n), Try(client, 0);
      EventsStep(events, limits, t) == events + [Event(client, 0)] && Granted(events, limits, t)
  {
    AllRecent(n, client, 0 - limits.window);
  }

  lemma OneMore<T>(x: T, n: nat)
    ensures Repeated(x, n + 1) == Repeated(x, n) + [x]
  {
  }

  // A client uses its whole allowance at time 0.
  lemma {:induction false} AllowanceUsed(limits: Limits, client: Client, n: nat)
    requires Positive(limits) && n <= limits.maxCreations
    ensures var tries := Repeated(Try(client, 0), n);
      && EventsAfter(limits, tries) == Repeated(Event(client, 0), n)
      && CreatedAt(tries, client) == Repeated(0, n) && AllAllowed(limits, tries)
  {
    if n > 0 {
      var before, t := Repeated(Try(client, 0), n - 1), Try(client, 0);
      AllowanceUsed(limits, client, n - 1);
      OneMoreTry(limits, before, t, client);
      OneMoreGrant(limits, client, n - 1);
      OneMore(t, n - 1);
      OneMore(Event(client, 0), n - 1);
      OneMore(0, n - 1);
      assert (before + [t])[..n - 1] == before;
    }
  }

  // Another client's creation one window later, and then one of the first client that lags by one tick.
  function LaggingTries(limits: Limits, client: Client, other: Client): seq<Try>
    requires Positive(limits)
  {
    Repeated(Try(client, 0), limits.maxCreations) + [Try(other, limits.window)]
    + [Try(client, limits.window - 1)]
  }

  lemma OthersPrune(limits: Limits, client: Client, other: Client)
    requires Positive(limits) && other != client
    ensures var tries := Repeated(Try(client, 0), limits.maxCreations) + [Try(other, limits.window)];
      && EventsAfter(limits, tries) == [Event(other, limits.window)]
      && CreatedAt(tries, client) == Repeated(0, limits.maxCreations) && AllAllowed(limits, tries)
  {
    var first := Repeated(Try(client, 0), limits.maxCreations);
    AllowanceUsed(limits, client, limits.maxCreations);
    OneMoreTry(limits, first, Try(other, limits.window), client);
    AllGone(limits.maxCreations, client);
    assert [] + [Event(other, limits.window)] == [Event(other, limits.window)];
    assert Repeated(0, limits.maxCreations) + [] == Repeated(0, limits.maxCreations);
  }

  lemma AfterOthers(limits: Limits, client: Client, other: Client)
    requires Positive(limits) && other != client
    ensures Granted([Event(other, limits.window)], limits, Try(client, limits.window - 1))
  {
    assert After([Event(other, limits.window)], -1) == [Event(other, limits.window)];
    assert TimesOf([Event(other, limits.window)], client) == [];
  }

  lemma LaggingAllowed(limits: Limits, client: Client, other: Client)
    requires Positive(limits) && other != client
    ensures AllAllowed(limits, LaggingTries(limits, client, other))
    ensures CreatedAt(LaggingTries(limits, client, other), client) == Repeated(0, limits.maxCreations) + [limits.window - 1]
  {
    OthersPrune(limits, client, other);
    AfterOthers(limits, client, other);
    OneMoreTry(limits, Repeated(Try(client, 0), limits.maxCreations) + [Try(other, limits.window)],
               Try(client, limits.window - 1), client);
  }

  /** The transaction deletes every client's creations that left the window ending at its own time.  One
      that carries a later time so deletes creations that the window of a lagging one still contains:
      under any limits a run in which one transaction lags by a single tick puts one creation too many
      into a window. */
  lemma LagExceedsTheLimit(limits: Limits, client: Client, other: Client)
    requires Positive(limits) && other != client
    ensures var run := RunFor(LaggingTries(limits, client, other));
      && Feasible(Start, limits, run) && Lagging(TriesOf(Start, limits, run), 1)
      && |InWindow(CreatedAt(TriesOf(Start, limits, run), client), limits.window - 1, limits.window)| == limits.maxCreations + 1
  {
    hide AllAllowed, CreatedAt, Feasible, TriesOf;
    LaggingAllowed(limits, client, other);
    EveryAllowedListIsReached(limits, LaggingTries(limits, client, other));
    OneTooMany(limits.maxCreations, limits.window);
  }

  lemma OneTooMany(n: nat, window: int)
    requires window > 0
    ensures |InWindow(Repeated(0, n) + [window - 1], window - 1, window)| == n + 1
  {
    CountBelow(InWindow(Repeated(0, n) + [window - 1], window - 1, window), n + 1);
  }

  lemma {:induction false} CountBelow(s: set<nat>, n: nat)
    requires forall i: nat :: i in s <==> i < n
    ensures |s| == n
  {
    if n == 0 {
      assert s == {};
    } else {
      CountBelow(s - {n - 1}, n - 1);
    }
  }

  /** How much lag the creation limit tolerates: none.  Under any limits, it holds in all runs of the
      registry whose committing times go back by at most `lag` if and only if they do not go back at all. */
  lemma ToleratedLag(limits: Limits, lag: int)
    requires Positive(limits)
    ensures (forall run, client, t :: Feasible(Start, limits, run) && Lagging(TriesOf(Start, limits, run), lag) ==>
              WithinLimit(limits, TriesOf(Start, limits, run), client, t)) <==> lag <= 0
  {
    if lag <= 0 {
      forall run, client, t | Feasible(Start, limits, run) && Lagging(TriesOf(Start, limits, run), lag)
        ensures WithinLimit(limits, TriesOf(Start, limits, run), client, t)
      {
        CreationLimit(limits, run, client, t);
      }
    } else {
      LagExceedsTheLimit(limits, 0, 1);
      var run := RunFor(LaggingTries(limits, 0, 1));
      assert Lagging(TriesOf(Start, limits, run), lag);
      assert !WithinLimit(limits, TriesOf(Start, limits, run), 0, limits.window - 1);
    }
  }

  /** A rate-limited client that waits the advertised delay, with no creation of its own committed in
      between, is not rate-limited again, whatever else the registry did meanwhile. */
  lemma AdvertisedDelaySuffices(limits: Limits, run: seq<Action>, more: seq<Action>, client: Client, now: int, later: int,
                                size: nat, replacing: nat, size': nat, replacing': nat)
    requires Positive(limits) && Feasible(Start, limits, run) && Feasible(AfterRun(Start, limits, run), limits, more)
    requires Monotone(TriesOf(Start, limits, run)) && Until(TriesOf(Start, limits, run), now)
    requires var all := TriesOf(Start, limits, run) + TriesOf(AfterRun(Start, limits, run), limits, more);
      && Monotone(all) && Until(all, later)
      && CreatedAt(all, client) == CreatedAt(TriesOf(Start, limits, run), client)
    requires Admit(AfterRun(Start, limits, run).reg, limits, client, now, size, replacing).RateLimited?
    requires later >= now + Admit(AfterRun(Start, limits, run).reg, limits, client, now, size, replacing).retryAfter * SECOND
    ensures !Admit(AfterRun(AfterRun(Start, limits, run), limits, more).reg, limits, client, later, size', replacing').RateLimited?
  {
    var s := AfterRun(Start, limits, run);
    var granted, delay := CreatedAt(TriesOf(Start, limits, run), client), Admit(s.reg, limits, client, now, size, replacing).retryAfter;
    RunOn(Start, limits, run, more);
    RegistryTracks(limits, run, client, now);
    RegistryTracks(limits, run + more, client, later);
    DelayAdvertised(s.reg, limits, client, now, size, replacing);
    DelaySuffices(limits, s.reg.events, granted, AfterRun(s, limits, more).reg.events, client, now, later, delay);
    RateCheck(AfterRun(s, limits, more).reg, limits, client, later, size', replacing');
  }

  predicate Advertised(events: seq<Event>, limits: Limits, client: Client, now: int, delay: int) {
    var own := TimesOf(After(events, now - limits.window), client);
    |own| >= limits.maxCreations && delay == RetryAfter(Oldest(own) + limits.window - now, SECOND)
  }

  lemma DelayAdvertised(reg: Registry, limits: Limits, client: Client, now: int, size: nat, replacing: nat)
    requires Admit(reg, limits, client, now, size, replacing).RateLimited?
    ensures Advertised(reg.events, limits, client, now, Admit(reg, limits, client, now, size, replacing).retryAfter)
  {
  }

  lemma DelaySuffices(limits: Limits, before: seq<Event>, granted: seq<int>, events: seq<Event>, client: Client,
                      now: int, later: int, delay: int)
    requires Positive(limits)
    requires Tracks(TimesOf(before, client), granted, now, RateOf(limits))
    requires Tracks(TimesOf(events, client), granted, later, RateOf(limits))
    requires Advertised(before, limits, client, now, delay) && later >= now + delay * SECOND
    ensures RateAllows(events, limits, client, later)
  {
    FullWindowEmpties(limits, before, granted, now, client, now, later);
    assert |InWindow(granted, later, limits.window)| < limits.maxCreations;
    RateExactAt(limits, events, granted, later, client, later);
  }

  /** After any such run, an attempt passes the rate check exactly when the window that ends now is not
      full. */
  lemma RateIsExact(limits: Limits, run: seq<Action>, client: Client, now: int, size: nat, replacing: nat)
    requires Positive(limits) && Feasible(Start, limits, run)
    requires Monotone(TriesOf(Start, limits, run)) && Until(TriesOf(Start, limits, run), now)
    ensures Admit(AfterRun(Start, limits, run).reg, limits, client, now, size, replacing).RateLimited?
       <==> |InWindow(CreatedAt(TriesOf(Start, limits, run), client), now, limits.window)| >= limits.maxCreations
  {
    var events := AfterRun(Start, limits, run).reg.events;
    RegistryTracks(limits, run, client, now);
    RateExactAt(limits, events, CreatedAt(TriesOf(Start, limits, run), client), now, client, now);
    RateCheck(AfterRun(Start, limits, run).reg, limits, client, now, size, replacing);
  }

  lemma RateExactAt(limits: Limits, events: seq<Event>, granted: seq<int>, clock: int, client: Client, now: int)
    requires Positive(limits) && clock <= now
    requires Tracks(TimesOf(events, client), granted, clock, RateOf(limits))
    ensures RateAllows(events, limits, client, now) <==> |InWindow(granted, now, limits.window)| < limits.maxCreations
  {
    CountIsExact(limits, events, granted, clock, client, now);
  }

  lemma CountIsExact(limits: Limits, events: seq<Event>, granted: seq<int>, clock: int, client: Client, now: int)
    requires Positive(limits) && clock <= now
    requires Tracks(TimesOf(events, client), granted, clock, RateOf(limits))
    ensures |TimesOf(After(events, now - limits.window), client)| == |InWindow(granted, now, limits.window)|
  {
    PrunedIsPrune(events, granted, clock, now, limits, client);
    QueueIsTheWindow(TimesOf(events, client), granted, clock, now, limits.maxCreations, limits.window);
  }

  lemma FullWindowEmpties(limits: Limits, events: seq<Event>, granted: seq<int>, clock: int, client: Client, now: int, later: int)
    requires Positive(limits) && clock <= now
    requires Tracks(TimesOf(events, client), granted, clock, RateOf(limits))
    requires var own := TimesOf(After(events, now - limits.window), client);
      |own| >= limits.maxCreations && later >= now + RetryAfter(Oldest(own) + limits.window - now, SECOND) * SECOND
    ensures |InWindow(granted, later, limits.window)| < limits.maxCreations
  {
    var own := TimesOf(After(events, now - limits.window), client);
    PrunedTimes(events, granted, clock, now, limits, client);
    OldestIsFirst(own);
    FullQueueEmpties(own, granted, now, later, limits.maxCreations, limits.window, SECOND);
  }

  lemma {:induction false} OldestIsFirst(times: seq<int>)
    requires Ascending(times) && times != []
    ensures Oldest(times) == times[0]
  {
    if |times| > 1 {
      assert forall i, j :: 0 <= i < j < |times[1..]| ==> times[1..][i] == times[i + 1] && times[1..][j] == times[j + 1];
      OldestIsFirst(times[1..]);
    }
  }

  // ---- The registry's operations, run one at a time -------------------------------------

  class DemoSessionRegistry {
    const limits: Limits
    var rows: seq<Row>
    var events: seq<Event>
    var trees: map<SessionId, Tree>
    var temps: set<SessionId>

    function View(): Registry
      reads this
    {
      Registry(rows, events, trees, temps)
    }

    constructor (limits: Limits)
      ensures this.limits == limits && View() == Start.reg
    {
      this.limits := limits;
      rows, events, trees, temps := [], [], map[], {};
    }

    /** False is any of the source's errors; nothing is left behind.  `copies` says whether copying
        the fixture succeeds, `size` what the copy measures. */
    method CloneFixture(sid: SessionId, size: nat, copies: bool) returns (ok: bool)
      modifies this`trees, this`temps
      ensures ok <==> sid !in old(temps) && sid !in old(trees) && copies && size <= limits.maxSessionBytes
      ensures trees == if ok then old(trees)[sid := Complete] else old(trees)
      ensures temps == old(temps)
    {
      if sid in temps || sid in trees {
        return false;
      }
      temps := temps + {sid};
      ok := copies && size <= limits.maxSessionBytes;
      temps := temps - {sid};
      if ok {
        trees := trees[sid := Complete];
      }
    }

    /** A create either commits its row beside the new tree, or changes nothing. */
    method Create(token: Token, sid: SessionId, client: Client, now: int, size: nat, copies: bool)
      returns (verdict: Verdict)
      modifies this
      ensures verdict.Admitted? ==> sid !in old(trees) && copies && size <= limits.maxSessionBytes
      ensures verdict.Admitted? ==>
        View() == CreateTxn(old(View()).(trees := old(trees)[sid := Complete]), limits, token, sid, client, now, size).0
      ensures !verdict.Admitted? ==> View() == old(View())
      ensures copies && size <= limits.maxSessionBytes && sid !in old(trees) && sid !in old(temps) ==>
        verdict == Admit(old(View()), limits, client, now, size, 0)
    {
      var cloned := CloneFixture(sid, size, copies);
      if !cloned {
        return Unavailable;
      }
      verdict := Admit(View(), limits, client, now, size, 0);
      if verdict.Admitted? {
        rows := rows + [Row(token, sid, now, now + SESSION_TTL, size)];
        events := After(events, now - limits.window) + [Event(client, now)];
      } else {
        trees := trees - {sid};
      }
    }

    /** A rotation either commits the new row in place of the old one and removes the old tree, or
        changes nothing. */
    method Rotate(former: Token, token: Token, sid: SessionId, client: Client, now: int, size: nat, copies: bool)
      returns (verdict: Verdict)
      modifies this
      ensures verdict.Admitted? ==> RowFor(old(rows), former).Some? && sid !in old(trees)
      ensures verdict.Admitted? ==>
        var formerSid := RowFor(old(rows), former).value.sid;
        && formerSid in old(trees) && old(trees)[formerSid].Complete?
        && View() == RotateTxn(old(View()).(trees := old(trees)[sid := Complete] - {formerSid}), limits,
                               former, formerSid, token, sid, client, now, size).0
      ensures !verdict.Admitted? ==> View() == old(View())
    {
      var current := RowFor(rows, former);
      if current.None? || current.value.sid !in trees || trees[current.value.sid].Partial? {
        return Unavailable;
      }
      var formerSid := current.value.sid;
      var cloned := CloneFixture(sid, size, copies);
      if !cloned {
        return Unavailable;
      }
      verdict := Admit(View(), limits, client, now, size, current.value.size);
      if verdict.Admitted? {
        rows := DropToken(rows + [Row(token, sid, now, now + SESSION_TTL, size)], former);
        events := After(events, now - limits.window) + [Event(client, now)];
        trees := trees - {formerSid};
      } else {
        trees := trees - {sid};
      }
    }

    method DiscardFresh(token: Token, sid: SessionId) returns (ok: bool)
      modifies this`rows, this`trees
      ensures (rows, ok) == (DiscardTxn(old(View()), token, sid).0.rows, DiscardTxn(old(View()), token, sid).1)
      ensures trees == if ok then old(trees) - {sid} else old(trees)
    {
      var current := RowFor(rows, token);
      ok := !(current.None? || current.value.sid != sid);
      if ok {
        rows := DropToken(rows, token);
        trees := trees - {sid};
      }
    }

    method DeleteExpired(now: int, protected: set<SessionId>) returns (deleted: set<SessionId>)
      modifies this`rows, this`trees
      ensures rows == ExpireTxn(old(View()), now, protected).0.rows
      ensures deleted == ExpiredSessions(old(rows), now, protected)
      ensures trees == old(trees) - deleted
    {
      deleted := ExpiredSessions(rows, now, protected);
      rows := DropExpired(rows, now, protected);
      var todo := deleted;
      while todo != {}
        invariant todo <= deleted && rows == DropExpired(old(rows), now, protected)
        invariant trees == old(trees) - (deleted - todo)
        decreases |todo|
      {
        var sid :| sid in todo;
        trees := trees - {sid};
        todo := todo - {sid};
      }
    }

    // Looks a cookie up and renews it, unless its copy is missing or incomplete.
    method Resume(token: Token, now: int) returns (found: Option<Row>, ok: bool)
      modifies this`rows
      ensures found == RowFor(old(rows), token)
      ensures ok <==> (found.Some? ==> found.value.sid in trees && trees[found.value.sid].Complete?)
      ensures rows == if found.Some? && ok then Renewed(old(rows), token, now) else old(rows)
    {
      found := RowFor(rows, token);
      ok := found.Some? ==> found.value.sid in trees && trees[found.value.sid].Complete?;
      if found.Some? && ok {
        rows := Renewed(rows, token, now);
      }
    }

    /** What has expired and is not protected goes first, so a cookie is answered by a session that has
        not expired or is protected, and finds none only if it has no other. */
    method Resolve(token: Token, now: int, protected: set<SessionId>) returns (found: Option<Row>, ok: bool)
      requires Keyed(rows)
      modifies this`rows, this`trees
      ensures found.Some? ==> found.value in old(rows) && found.value.token == token && !Expired(found.value, now, protected)
      ensures found.None? ==> forall r :: r in old(rows) && r.token == token ==> Expired(r, now, protected)
      ensures trees == old(trees) - ExpiredSessions(old(rows), now, protected)
      ensures ok <==> (found.Some? ==> found.value.sid in trees && trees[found.value.sid].Complete?)
      ensures var kept := DropExpired(old(rows), now, protected);
        rows == if found.Some? && ok then Renewed(kept, token, now) else kept
    {
      ExpiryIsExact(rows, now, protected);
      RowForMember(DropExpired(rows, now, protected), token);
      var _ := DeleteExpired(now, protected);
      found, ok := Resume(token, now);
    }
  }
}
