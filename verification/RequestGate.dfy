/** The gateway's request gate: caps on requests in progress, a per-session rate limit over the last
    minute, and the marks of sessions that are starting over.  Times are microseconds of a monotone
    clock; a missing key of the source's default dictionaries reads as zero or as an empty queue. */
module RequestGate {
  import opened SlidingWindow

  type SessionId = nat   // an opaque identity: only equality is used
  type LeaseId = nat

  const SECOND := 1_000_000
  const WINDOW := 60 * SECOND

  datatype Limits = Limits(maxTotal: int, maxPerSession: int, maxPerMinute: int)

  predicate Positive(limits: Limits) {
    limits.maxTotal >= 1 && limits.maxPerSession >= 1 && limits.maxPerMinute >= 1
  }

  datatype Gate = Gate(
    total: int,
    bySession: map<SessionId, int>,
    recent: map<SessionId, seq<int>>,
    resetting: set<SessionId>)

  const Empty := Gate(0, map[], map[], {})

  function Held(g: Gate, sid: SessionId): int { if sid in g.bySession then g.bySession[sid] else 0 }
  function Recent(g: Gate, sid: SessionId): seq<int> { if sid in g.recent then g.recent[sid] else [] }

  datatype Verdict = Granted | StartingOver | Overloaded | TooManyInProgress | TooManyRequests(retryAfter: int)

  function AcquireStep(g: Gate, limits: Limits, sid: SessionId, now: int): (Gate, Verdict)
    requires Positive(limits)
  {
    if sid in g.resetting then (g, StartingOver)
    else if g.total >= limits.maxTotal then (g, Overloaded)
    else if Held(g, sid) >= limits.maxPerSession then (g, TooManyInProgress)
    else
      var recent := Prune(Recent(g, sid), now - WINDOW);
      if |recent| >= limits.maxPerMinute then
        (g.(recent := g.recent[sid := recent]), TooManyRequests(RetryAfter(WINDOW - (now - recent[0]), SECOND)))
      else
        (g.(total := g.total + 1,
            bySession := g.bySession[sid := Held(g, sid) + 1],
            recent := g.recent[sid := recent + [now]]), Granted)
  }

  /** False is the source's error: the lease was released more than once. */
  function ReleaseStep(g: Gate, sid: SessionId): (Gate, bool) {
    if g.total < 1 || Held(g, sid) < 1 then (g, false)
    else (g.(total := g.total - 1, bySession := g.bySession[sid := Held(g, sid) - 1]), true)
  }

  /** False is the source's error: requests of the session are in progress, or it is already
      starting over. */
  function BeginResetStep(g: Gate, sid: SessionId): (Gate, bool) {
    if sid in g.resetting || Held(g, sid) != 0 then (g, false)
    else (g.(resetting := g.resetting + {sid}), true)
  }

  function EndResetStep(g: Gate, sid: SessionId): Gate {
    g.(resetting := g.resetting - {sid})
  }

  // ---- Leases ---------------------------------------------------------------------------

  function LeasesOf(leases: map<LeaseId, SessionId>, sid: SessionId): set<LeaseId> {
    set l | l in leases && leases[l] == sid
  }

  /** The counters say how many leases are outstanding, in all and of each session; the caps hold;
      a session that is starting over has no lease. */
  ghost predicate Accounts(g: Gate, limits: Limits, leases: map<LeaseId, SessionId>) {
    && g.total == |leases| <= limits.maxTotal
    && (forall sid :: Held(g, sid) == |LeasesOf(leases, sid)| <= limits.maxPerSession)
    && (forall sid :: sid in g.resetting ==> Held(g, sid) == 0)
  }

  lemma NoLeases(limits: Limits)
    requires Positive(limits)
    ensures Accounts(Empty, limits, map[])
  {
    forall sid: SessionId ensures LeasesOf(map[], sid) == {} {}
  }

  lemma GrantAccounts(g: Gate, g': Gate, limits: Limits, leases: map<LeaseId, SessionId>, sid: SessionId, lease: LeaseId)
    requires Accounts(g, limits, leases) && lease !in leases && sid !in g.resetting
    requires g.total < limits.maxTotal && Held(g, sid) < limits.maxPerSession
    requires g'.total == g.total + 1 && g'.resetting == g.resetting
    requires g'.bySession == g.bySession[sid := Held(g, sid) + 1]
    ensures Accounts(g', limits, leases[lease := sid])
  {
    var after := leases[lease := sid];
    assert |after| == |leases| + 1;
    forall other ensures Held(g', other) == |LeasesOf(after, other)| <= limits.maxPerSession {
      assert Held(g, other) == |LeasesOf(leases, other)|;
      assert lease !in LeasesOf(leases, other);
      if other == sid {
        assert LeasesOf(after, other) == LeasesOf(leases, other) + {lease};
      } else {
        assert LeasesOf(after, other) == LeasesOf(leases, other);
      }
    }
  }

  lemma AcquireAccounts(g: Gate, limits: Limits, leases: map<LeaseId, SessionId>, sid: SessionId, now: int, lease: LeaseId)
    requires Positive(limits) && Accounts(g, limits, leases) && lease !in leases
    ensures var (g', verdict) := AcquireStep(g, limits, sid, now);
      Accounts(g', limits, if verdict.Granted? then leases[lease := sid] else leases)
  {
    var (g', verdict) := AcquireStep(g, limits, sid, now);
    if verdict.Granted? {
      GrantAccounts(g, g', limits, leases, sid, lease);
    } else {
      assert g'.bySession == g.bySession && g'.total == g.total && g'.resetting == g.resetting;
      assert forall other :: Held(g', other) == Held(g, other);
    }
  }

  /** Releasing an outstanding lease never raises, and takes exactly that lease off the counts. */
  lemma ReleaseAccounts(g: Gate, limits: Limits, leases: map<LeaseId, SessionId>, lease: LeaseId)
    requires Accounts(g, limits, leases) && lease in leases
    ensures var (g', ok) := ReleaseStep(g, leases[lease]);
      ok && Accounts(g', limits, leases - {lease})
  {
    var sid := leases[lease];
    var g' := ReleaseStep(g, sid).0;
    var after := leases - {lease};
    assert lease in LeasesOf(leases, sid);
    assert after.Keys == leases.Keys - {lease};
    forall other ensures Held(g', other) == |LeasesOf(after, other)| <= limits.maxPerSession {
      assert LeasesOf(after, other) == LeasesOf(leases, other) - {lease};
      assert Held(g, other) == |LeasesOf(leases, other)|;
    }
  }

  lemma ResetAccounts(g: Gate, limits: Limits, leases: map<LeaseId, SessionId>, sid: SessionId)
    requires Accounts(g, limits, leases)
    ensures Accounts(BeginResetStep(g, sid).0, limits, leases)
    ensures Accounts(EndResetStep(g, sid), limits, leases)
    ensures BeginResetStep(g, sid).1 <==> sid !in g.resetting && LeasesOf(leases, sid) == {}
    ensures sid in BeginResetStep(g, sid).0.resetting ==> LeasesOf(leases, sid) == {}
  {
    assert Held(g, sid) == |LeasesOf(leases, sid)|;
    assert forall other :: Held(BeginResetStep(g, sid).0, other) == Held(g, other) == Held(EndResetStep(g, sid), other);
  }

  // ---- The rate limit over whole runs ---------------------------------------------------

  datatype Call = AcquireCall(sid: SessionId, now: int) | ReleaseCall(sid: SessionId)
                | BeginResetCall(sid: SessionId) | EndResetCall(sid: SessionId)

  function Step(g: Gate, limits: Limits, call: Call): Gate
    requires Positive(limits)
  {
    match call
    case AcquireCall(sid, now) => AcquireStep(g, limits, sid, now).0
    case ReleaseCall(sid) => ReleaseStep(g, sid).0
    case BeginResetCall(sid) => BeginResetStep(g, sid).0
    case EndResetCall(sid) => EndResetStep(g, sid)
  }

  function Run(limits: Limits, calls: seq<Call>): Gate
    requires Positive(limits)
  {
    if calls == [] then Empty
    else Step(Run(limits, calls[..|calls| - 1]), limits, calls[|calls| - 1])
  }

  // When session `sid` was granted a request in that run.
  function GrantTimes(limits: Limits, calls: seq<Call>, sid: SessionId): seq<int>
    requires Positive(limits)
  {
    if calls == [] then []
    else
      var before, call := calls[..|calls| - 1], calls[|calls| - 1];
      GrantTimes(limits, before, sid) + NewGrant(Run(limits, before), limits, call, sid)
  }

  function NewGrant(g: Gate, limits: Limits, call: Call, sid: SessionId): seq<int>
    requires Positive(limits)
  {
    if call.AcquireCall? && call.sid == sid && AcquireStep(g, limits, sid, call.now).1.Granted?
    then [call.now] else []
  }

  function Clock(calls: seq<Call>): int {
    if calls == [] then 0
    else if calls[|calls| - 1].AcquireCall? then calls[|calls| - 1].now
    else Clock(calls[..|calls| - 1])
  }

  // The clock the gate reads under its lock never goes back.
  predicate Monotone(calls: seq<Call>) {
    calls == [] ||
    (Monotone(calls[..|calls| - 1]) && Clock(calls[..|calls| - 1]) <= Clock(calls))
  }

  // What one acquire does to one session's queue.
  lemma AcquireQueue(g: Gate, limits: Limits, sid: SessionId, now: int, other: SessionId)
    requires Positive(limits)
    ensures var (g', verdict) := AcquireStep(g, limits, sid, now);
      var kept := Prune(Recent(g, sid), now - WINDOW);
      && (other != sid ==> Recent(g', other) == Recent(g, other))
      && (verdict.Granted? ==> |kept| < limits.maxPerMinute && Recent(g', sid) == kept + [now])
      && (!verdict.Granted? ==> Recent(g', sid) == Recent(g, sid) || Recent(g', sid) == kept)
  {
  }

  lemma LaterTracks(recent: seq<int>, granted: seq<int>, clock: int, now: int, limit: nat)
    requires Tracks(recent, granted, clock, Rate(limit, WINDOW)) && clock <= now
    ensures Tracks(recent, granted, now, Rate(limit, WINDOW))
  {
  }

  lemma {:induction false} RunTracks(limits: Limits, calls: seq<Call>, sid: SessionId)
    requires Positive(limits) && Monotone(calls)
    ensures Tracks(Recent(Run(limits, calls), sid), GrantTimes(limits, calls, sid), Clock(calls),
                   Rate(limits.maxPerMinute, WINDOW))
  {
    if calls != [] {
      var before, call := calls[..|calls| - 1], calls[|calls| - 1];
      RunTracks(limits, before, sid);
      StepTracks(limits, Run(limits, before), GrantTimes(limits, before, sid), Clock(before), call, sid);
    }
  }

  lemma AcquireTracks(limits: Limits, g: Gate, times: seq<int>, clock: int, to: SessionId, now: int, sid: SessionId)
    requires Positive(limits) && Tracks(Recent(g, sid), times, clock, Rate(limits.maxPerMinute, WINDOW)) && clock <= now
    ensures var (g', verdict) := AcquireStep(g, limits, to, now);
      Tracks(Recent(g', sid), times + (if to == sid && verdict.Granted? then [now] else []), now,
             Rate(limits.maxPerMinute, WINDOW))
  {
    AcquireQueue(g, limits, to, now, sid);
    LaterTracks(Recent(g, sid), times, clock, now, limits.maxPerMinute);
    assert times + [] == times;
    if to == sid {
      PruneTracks(Recent(g, sid), times, clock, now, limits.maxPerMinute, WINDOW);
      if AcquireStep(g, limits, to, now).1.Granted? {
        GrantTracks(Prune(Recent(g, sid), now - WINDOW), times, now, limits.maxPerMinute, WINDOW);
      }
    }
  }

  lemma StepTracks(limits: Limits, g: Gate, times: seq<int>, clock: int, call: Call, sid: SessionId)
    requires Positive(limits) && Tracks(Recent(g, sid), times, clock, Rate(limits.maxPerMinute, WINDOW))
    requires call.AcquireCall? ==> clock <= call.now
    ensures Tracks(Recent(Step(g, limits, call), sid), times + NewGrant(g, limits, call, sid),
                   if call.AcquireCall? then call.now else clock, Rate(limits.maxPerMinute, WINDOW))
  {
    if call.AcquireCall? {
      AcquireTracks(limits, g, times, clock, call.sid, call.now, sid);
    } else {
      assert times + [] == times;
    }
  }

  /** For every run and every instant, the grants to one session in the minute that ends there never
      exceed the limit. */
  lemma MinuteLimit(limits: Limits, calls: seq<Call>, sid: SessionId, t: int)
    requires Positive(limits) && Monotone(calls)
    ensures |InWindow(GrantTimes(limits, calls, sid), t, WINDOW)| <= limits.maxPerMinute
  {
    RunTracks(limits, calls, sid);
    NoWindowExceedsLimit(GrantTimes(limits, calls, sid), limits.maxPerMinute, WINDOW, t);
  }

  // Past the caps, the verdict is the rate check's.
  lemma RateVerdict(g: Gate, limits: Limits, sid: SessionId, now: int)
    requires Positive(limits)
    ensures var verdict := AcquireStep(g, limits, sid, now).1;
      var kept := Prune(Recent(g, sid), now - WINDOW);
      && (verdict.TooManyRequests? ==>
            |kept| >= limits.maxPerMinute && verdict.retryAfter == RetryAfter(WINDOW - (now - kept[0]), SECOND))
      && (verdict.Granted? ==> |kept| < limits.maxPerMinute)
  {
  }

  lemma VerdictIsExact(g: Gate, limits: Limits, sid: SessionId, times: seq<int>, clock: int, now: int)
    requires Positive(limits) && clock <= now
    requires Tracks(Recent(g, sid), times, clock, Rate(limits.maxPerMinute, WINDOW))
    ensures var verdict := AcquireStep(g, limits, sid, now).1;
      && (verdict.TooManyRequests? ==> |InWindow(times, now, WINDOW)| == limits.maxPerMinute)
      && (verdict.Granted? ==> |InWindow(times, now, WINDOW)| < limits.maxPerMinute)
  {
    RateVerdict(g, limits, sid, now);
    QueueIsTheWindow(Recent(g, sid), times, clock, now, limits.maxPerMinute, WINDOW);
    NoWindowExceedsLimit(times, limits.maxPerMinute, WINDOW, now);
  }

  /** The rate check refuses exactly when the minute that ends now is full. */
  lemma RefusedIffMinuteFull(limits: Limits, calls: seq<Call>, sid: SessionId, now: int)
    requires Positive(limits) && Monotone(calls) && Clock(calls) <= now
    ensures var verdict := AcquireStep(Run(limits, calls), limits, sid, now).1;
      var used := |InWindow(GrantTimes(limits, calls, sid), now, WINDOW)|;
      && (verdict.TooManyRequests? ==> used == limits.maxPerMinute)
      && (verdict.Granted? ==> used < limits.maxPerMinute)
  {
    RunTracks(limits, calls, sid);
    VerdictIsExact(Run(limits, calls), limits, sid, GrantTimes(limits, calls, sid), Clock(calls), now);
  }

  /** After a refusal at `now`, whatever else the gate does short of granting this session another
      request, an attempt made the advertised delay later is not refused by the rate check. */
  lemma AdvertisedDelaySuffices(limits: Limits, calls: seq<Call>, sid: SessionId, now: int, all: seq<Call>, later: int)
    requires Positive(limits) && Monotone(calls) && Clock(calls) <= now
    requires calls + [AcquireCall(sid, now)] <= all && Monotone(all) && Clock(all) <= later
    requires AcquireStep(Run(limits, calls), limits, sid, now).1.TooManyRequests?
    requires GrantTimes(limits, all, sid) == GrantTimes(limits, calls, sid)
    requires later >= now + AcquireStep(Run(limits, calls), limits, sid, now).1.retryAfter * SECOND
    ensures !AcquireStep(Run(limits, all), limits, sid, later).1.TooManyRequests?
  {
    var times := GrantTimes(limits, calls, sid);
    RunTracks(limits, calls, sid);
    RefusalPasses(Run(limits, calls), limits, sid, times, Clock(calls), now, later);
    RunTracks(limits, all, sid);
    VerdictIsExact(Run(limits, all), limits, sid, times, Clock(all), later);
  }

  lemma RefusalPasses(g: Gate, limits: Limits, sid: SessionId, times: seq<int>, clock: int, now: int, later: int)
    requires Positive(limits) && clock <= now
    requires Tracks(Recent(g, sid), times, clock, Rate(limits.maxPerMinute, WINDOW))
    requires var verdict := AcquireStep(g, limits, sid, now).1;
      verdict.TooManyRequests? && later >= now + verdict.retryAfter * SECOND
    ensures |InWindow(times, later, WINDOW)| < limits.maxPerMinute
  {
    RateVerdict(g, limits, sid, now);
    FullMinutePasses(Recent(g, sid), times, clock, now, later, limits.maxPerMinute);
  }

  lemma FullMinutePasses(recent: seq<int>, times: seq<int>, clock: int, now: int, later: int, limit: nat)
    requires Tracks(recent, times, clock, Rate(limit, WINDOW)) && clock <= now && limit > 0
    requires var kept := Prune(recent, now - WINDOW);
      |kept| >= limit && later >= now + RetryAfter(WINDOW - (now - kept[0]), SECOND) * SECOND
    ensures |InWindow(times, later, WINDOW)| < limit
  {
    var kept := Prune(recent, now - WINDOW);
    PruneTracks(recent, times, clock, now, limit, WINDOW);
    assert WINDOW - (now - kept[0]) == kept[0] + WINDOW - now;
    FullQueueEmpties(kept, times, now, later, limit, WINDOW, SECOND);
  }

  // ---- The gate and its leases as objects -----------------------------------------------

  class Requests {
    const limits: Limits
    var total: int
    var bySession: map<SessionId, int>
    var recent: map<SessionId, seq<int>>
    var resetting: set<SessionId>

    function View(): Gate
      reads this
    {
      Gate(total, bySession, recent, resetting)
    }

    constructor (limits: Limits)
      ensures this.limits == limits && View() == Empty
    {
      this.limits := limits;
      total, bySession, recent, resetting := 0, map[], map[], {};
    }

    method Acquire(sid: SessionId, now: int) returns (verdict: Verdict)
      requires Positive(limits)
      modifies this`total, this`bySession, this`recent
      ensures (View(), verdict) == AcquireStep(old(View()), limits, sid, now)
    {
      if sid in resetting {
        return StartingOver;
      }
      if total >= limits.maxTotal {
        return Overloaded;
      }
      var held := if sid in bySession then bySession[sid] else 0;
      if held >= limits.maxPerSession {
        return TooManyInProgress;
      }
      var queue := if sid in recent then recent[sid] else [];
      ghost var start := queue;
      while queue != [] && queue[0] <= now - WINDOW
        invariant Prune(queue, now - WINDOW) == Prune(start, now - WINDOW)
        decreases |queue|
      {
        queue := queue[1..];
      }
      if |queue| >= limits.maxPerMinute {
        recent := recent[sid := queue];
        return TooManyRequests(RetryAfter(WINDOW - (now - queue[0]), SECOND));
      }
      recent := recent[sid := queue + [now]];
      total := total + 1;
      bySession := bySession[sid := held + 1];
      verdict := Granted;
    }

    method Release(sid: SessionId) returns (ok: bool)
      modifies this`total, this`bySession
      ensures (View(), ok) == ReleaseStep(old(View()), sid)
    {
      var held := if sid in bySession then bySession[sid] else 0;
      ok := !(total < 1 || held < 1);
      if ok {
        total := total - 1;
        bySession := bySession[sid := held - 1];
      }
    }

    method BeginReset(sid: SessionId) returns (ok: bool)
      modifies this`resetting
      ensures (View(), ok) == BeginResetStep(old(View()), sid)
    {
      ok := !(sid in resetting || (if sid in bySession then bySession[sid] else 0) != 0);
      if ok {
        resetting := resetting + {sid};
      }
    }

    method EndReset(sid: SessionId)
      modifies this`resetting
      ensures View() == EndResetStep(old(View()), sid)
    {
      resetting := resetting - {sid};
    }
  }

  class RequestLease {
    const gate: Requests
    const sid: SessionId
    var released: bool

    constructor (gate: Requests, sid: SessionId)
      ensures this.gate == gate && this.sid == sid && !released
    {
      this.gate, this.sid, released := gate, sid, false;
    }

    // Releasing again changes nothing and raises nothing.
    method Release() returns (ok: bool)
      modifies this`released, gate`total, gate`bySession
      ensures released
      ensures old(released) ==> ok && gate.View() == old(gate.View())
      ensures !old(released) ==> (gate.View(), ok) == ReleaseStep(old(gate.View()), sid)
    {
      if released {
        return true;
      }
      released := true;
      ok := gate.Release(sid);
    }
  }
}
