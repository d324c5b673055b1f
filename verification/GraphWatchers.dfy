/** Graph watchers (src/rcp/watchers.py, src/rcp/runs/transition_event_reconciliation.py and the two
    transactions of src/rcp/storage/watchers.py they use).

    A watcher waits for a condition on a project graph.  The graph's history is a growing log of
    accepted boundaries per target; a reconciliation pass replays the log, drops the boundaries before
    the durable consumed head (so it reads the head's own boundary again), and consumes the rest one
    transaction at a time.  However the log is cut into passes, and wherever a pass is interrupted, each
    watcher ends with the outcome of the first boundary after its arm revision that decides it. */
module GraphWatchers {
  import opened Options

  type NodeId = nat
  type Status = nat
  type EventId = nat
  type TransitionId = nat
  type WatcherId = nat
  type Target = nat

  datatype Node = Plain | WithStatus(status: Status, allowed: set<Status>)
  datatype Condition = NodeStatus(node: NodeId, statusIn: seq<Status>) | ProposalResolved(node: NodeId)
  datatype Proposal = Proposal(pending: bool, resolvedRev: Option<nat>, related: set<NodeId>)
  datatype Graph = Graph(complete: bool, revision: nat, nodes: map<NodeId, Node>, proposals: seq<Proposal>)

  datatype Event = Event(id: EventId, statusChange: bool, node: NodeId, statusField: bool, after: Option<Status>)
  datatype Boundary = Boundary(target: Target, revision: nat, transition: Option<TransitionId>, state: Graph,
                               events: seq<Event>)

  datatype Verdict = Active | Completed | Removed | Stopped
  datatype Watcher = Watcher(target: Target, condition: Condition, armed: Option<nat>, verdict: Verdict)
  datatype Head = Head(revision: nat, transition: Option<TransitionId>)
  datatype Store = Store(watchers: map<WatcherId, Watcher>, heads: map<Target, Head>)

  // ---- Deciding one boundary ------------------------------------------------------------

  predicate Matches(c: Condition, e: Event) {
    c.NodeStatus? && e.statusChange && e.node == c.node && e.statusField && e.after.Some? && e.after.value in c.statusIn
  }

  // A status event of the boundary meets the condition, for a watcher armed before it.
  predicate EventHit(c: Condition, events: seq<Event>, armed: nat, revision: nat) {
    armed < revision && exists i :: 0 <= i < |events| && Matches(c, events[i])
  }

  predicate ResolvedSince(p: Proposal, node: NodeId, armed: nat) {
    !p.pending && p.resolvedRev.Some? && p.resolvedRev.value > armed && node in p.related
  }

  function ConditionResult(c: Condition, state: Graph, armed: nat): Verdict {
    if !state.complete then Active
    else if c.node !in state.nodes then Removed
    else if c.NodeStatus? then
      if state.nodes[c.node].WithStatus? && state.nodes[c.node].status in c.statusIn then Completed else Active
    else if exists i :: 0 <= i < |state.proposals| && ResolvedSince(state.proposals[i], c.node, armed) then Completed
    else Active
  }

  // The stored condition still makes sense for its node: every status it names is one the node can have.
  predicate Sensible(c: Condition, state: Graph) {
    && state.complete && c.node in state.nodes
    && (c.NodeStatus? ==>
      state.nodes[c.node].WithStatus? && forall i :: 0 <= i < |c.statusIn| ==> c.statusIn[i] in state.nodes[c.node].allowed)
  }

  function BoundaryResult(c: Condition, armed: nat, state: Graph, events: seq<Event>): Verdict {
    if EventHit(c, events, armed, state.revision) then Completed
    else
      var result := ConditionResult(c, state, armed);
      if result.Removed? || Sensible(c, state) then result else Active
  }

  // What a boundary says to a watcher armed at `armed`; boundaries up to that revision say nothing.
  function Decide(c: Condition, armed: nat, b: Boundary): Verdict {
    if b.revision <= armed then Active else BoundaryResult(c, armed, b.state, b.events)
  }

  method TransitionEventResult(c: Condition, events: seq<Event>, armed: nat, revision: nat) returns (r: Verdict)
    ensures r == if EventHit(c, events, armed, revision) then Completed else Active
  {
    if armed >= revision { return Active; }
    if !c.NodeStatus? { return Active; }
    for i := 0 to |events|
      invariant forall j :: 0 <= j < i ==> !Matches(c, events[j])
    {
      if Matches(c, events[i]) { return Completed; }
    }
    return Active;
  }

  // A complete state at the boundary's own revision; events only with a transition.
  predicate Accepted(b: Boundary) {
    && b.state.complete && b.state.revision == b.revision
    && (b.events != [] ==> b.transition.Some?)
    && (forall i, j :: 0 <= i < j < |b.events| ==> b.events[i].id != b.events[j].id)
  }

  /** A node-status event in a transition completes the watcher even when the same transition goes on to
      remove the node, and even when the stored condition names statuses the node cannot have. */
  lemma EventBeatsRemoval(c: Condition, armed: nat, b: Boundary, i: nat)
    requires Accepted(b) && armed < b.revision && i < |b.events| && Matches(c, b.events[i])
    ensures Decide(c, armed, b) == Completed
  {
    assert EventHit(c, b.events, armed, b.state.revision);
  }

  // The node's final state, for a watcher no event decides.
  ghost predicate MetByState(c: Condition, armed: nat, state: Graph) {
    && Sensible(c, state)
    && (c.NodeStatus? ==> state.nodes[c.node].status in c.statusIn)
    && (c.ProposalResolved? ==> exists p :: p in state.proposals && ResolvedSince(p, c.node, armed))
  }

  /** Exactly when a boundary completes a watcher, and exactly when it reports its node removed. */
  lemma DecideExactly(c: Condition, armed: nat, b: Boundary)
    requires Accepted(b) && armed < b.revision
    ensures Decide(c, armed, b) == Completed
      <==> (exists e :: e in b.events && Matches(c, e)) || MetByState(c, armed, b.state)
    ensures Decide(c, armed, b) == Removed
      <==> c.node !in b.state.nodes && !(exists e :: e in b.events && Matches(c, e))
    ensures Decide(c, armed, b) != Stopped
  {
    assert (exists e :: e in b.events && Matches(c, e)) <==> EventHit(c, b.events, armed, b.revision) by {
      if e :| e in b.events && Matches(c, e) {
        var i :| 0 <= i < |b.events| && b.events[i] == e;
        assert Matches(c, b.events[i]);
      }
      if EventHit(c, b.events, armed, b.revision) {
        var i :| 0 <= i < |b.events| && Matches(c, b.events[i]);
        assert b.events[i] in b.events;
      }
    }
    if c.ProposalResolved? {
      if p :| p in b.state.proposals && ResolvedSince(p, c.node, armed) {
        var i :| 0 <= i < |b.state.proposals| && b.state.proposals[i] == p;
        assert ResolvedSince(b.state.proposals[i], c.node, armed);
      }
      if i :| 0 <= i < |b.state.proposals| && ResolvedSince(b.state.proposals[i], c.node, armed) {
        assert b.state.proposals[i] in b.state.proposals;
      }
    }
  }

  // ---- The outcome over a log ----------------------------------------------------------

  function Outcome(c: Condition, armed: nat, log: seq<Boundary>): Verdict {
    if log == [] then Active
    else
      var before := Outcome(c, armed, log[..|log| - 1]);
      if before.Active? then Decide(c, armed, log[|log| - 1]) else before
  }

  ghost predicate DecidedAt(c: Condition, armed: nat, log: seq<Boundary>, i: nat) {
    && i < |log| && !Decide(c, armed, log[i]).Active?
    && forall j :: 0 <= j < i ==> Decide(c, armed, log[j]).Active?
  }

  /** The outcome of a log is that of the first boundary that decides the watcher, and the watcher
      stays active exactly when none does. */
  lemma {:induction false} FirstDecisionWins(c: Condition, armed: nat, log: seq<Boundary>)
    ensures Outcome(c, armed, log).Active? <==> forall i :: 0 <= i < |log| ==> Decide(c, armed, log[i]).Active?
    ensures forall i: nat :: DecidedAt(c, armed, log, i) ==> Outcome(c, armed, log) == Decide(c, armed, log[i])
  {
    if log != [] {
      var front, last := log[..|log| - 1], log[|log| - 1];
      assert forall i :: 0 <= i < |front| ==> front[i] == log[i];
      FirstDecisionWins(c, armed, front);
      forall i: nat | DecidedAt(c, armed, log, i)
        ensures Outcome(c, armed, log) == Decide(c, armed, log[i])
      {
        if i < |front| { assert DecidedAt(c, armed, front, i); } else { assert Outcome(c, armed, front).Active?; }
      }
    }
  }

  lemma {:induction false} EarlierBoundariesAreSilent(c: Condition, armed: nat, log: seq<Boundary>)
    requires forall i :: 0 <= i < |log| ==> log[i].revision <= armed
    ensures Outcome(c, armed, log) == Active
  {
    FirstDecisionWins(c, armed, log);
  }

  // ---- One transaction: consume a boundary ---------------------------------------------

  predicate Listens(w: Watcher, b: Boundary) {
    w.verdict.Active? && w.target == b.target && w.armed.Some? && w.armed.value < b.revision
  }

  function Told(w: Watcher, b: Boundary): Watcher {
    if Listens(w, b) then w.(verdict := BoundaryResult(w.condition, w.armed.value, b.state, b.events)) else w
  }

  function HeadOf(b: Boundary): Head { Head(b.revision, b.transition) }

  datatype Receipt = Advanced | AlreadyConsumed | IdentityChanged

  function Consume(store: Store, b: Boundary): (Store, Receipt) {
    if b.target in store.heads && store.heads[b.target].revision > b.revision then (store, AlreadyConsumed)
    else if b.target in store.heads && store.heads[b.target].revision == b.revision then
      (store, if store.heads[b.target].transition != b.transition then IdentityChanged else AlreadyConsumed)
    else
      (Store(map id | id in store.watchers :: Told(store.watchers[id], b), store.heads[b.target := HeadOf(b)]), Advanced)
  }

  // A pass stops at the first boundary whose identity changed; what it consumed before stays consumed.
  function ConsumeAll(store: Store, bs: seq<Boundary>): (Store, bool)
    decreases |bs|
  {
    if bs == [] then (store, true)
    else
      var (next, receipt) := Consume(store, bs[0]);
      if receipt.IdentityChanged? then (next, false) else ConsumeAll(next, bs[1..])
  }

  // Every watcher of the target that has no arm revision yet is armed at the current one.
  function Baselined(w: Watcher, target: Target, current: nat): Watcher {
    if w.target == target && w.armed.None? && w.verdict.Active? then w.(armed := Some(current)) else w
  }

  function Baseline(store: Store, target: Target, current: nat): Store {
    store.(watchers := map id | id in store.watchers :: Baselined(store.watchers[id], target, current))
  }

  predicate Stale(b: Boundary, head: Option<Head>) { head.Some? && b.revision < head.value.revision }

  // The boundaries a pass hands over: those not strictly before the consumed head.
  function Pending(log: seq<Boundary>, head: Option<Head>): seq<Boundary> {
    if log == [] then []
    else
      var rest := Pending(log[..|log| - 1], head);
      if Stale(log[|log| - 1], head) then rest else rest + [log[|log| - 1]]
  }

  function HeadAt(store: Store, target: Target): Option<Head> {
    if target in store.heads then Some(store.heads[target]) else None
  }

  predicate InOrder(bs: seq<Boundary>) {
    forall i, j :: 0 <= i < j < |bs| && bs[i].target == bs[j].target ==> bs[i].revision < bs[j].revision
  }

  function EventIds(events: seq<Event>): set<EventId> { set e | e in events :: e.id }

  predicate EventsOnce(bs: seq<Boundary>) {
    forall i, j :: 0 <= i < j < |bs| ==> EventIds(bs[i].events) !! EventIds(bs[j].events)
  }

  predicate WellFormed(bs: seq<Boundary>) {
    InOrder(bs) && EventsOnce(bs) && forall i :: 0 <= i < |bs| ==> Accepted(bs[i])
  }

  predicate FitsHead(store: Store, bs: seq<Boundary>, target: Target, current: nat) {
    && (forall i :: 0 <= i < |bs| ==> bs[i].target == target)
    && (bs != [] ==> bs[|bs| - 1].revision <= current)
    && (target in store.heads ==> store.heads[target].revision <= current)
  }

  // A whole reconciliation call.
  function Reconcile(store: Store, bs: seq<Boundary>, target: Target, current: nat): (Store, bool) {
    if WellFormed(bs) && FitsHead(store, bs, target, current) then ConsumeAll(Baseline(store, target, current), bs)
    else (store, false)
  }

  // ---- Batches -------------------------------------------------------------------------

  // A target's history: accepted boundaries of that target, revisions strictly increasing.
  predicate History(target: Target, log: seq<Boundary>) {
    && (forall i :: 0 <= i < |log| ==> log[i].target == target && Accepted(log[i]))
    && (forall i, j :: 0 <= i < j < |log| ==> log[i].revision < log[j].revision)
  }

  // The store has consumed exactly the first `k` boundaries of the log.
  predicate InSync(store: Store, target: Target, log: seq<Boundary>, k: nat) {
    && k <= |log|
    && (k == 0 <==> target !in store.heads)
    && (k > 0 ==> store.heads[target] == HeadOf(log[k - 1]))
  }

  lemma {:induction false} PendingIsSuffix(log: seq<Boundary>, head: Option<Head>, m: nat)
    requires m <= |log|
    requires forall i :: 0 <= i < |log| ==> (Stale(log[i], head) <==> i < m)
    ensures Pending(log, head) == log[m..]
  {
    if log != [] {
      var front, last := log[..|log| - 1], log[|log| - 1];
      PendingIsSuffix(front, head, if m < |log| then m else m - 1);
      assert Stale(last, head) <==> |log| - 1 < m;
      if m < |log| { assert log[m..] == front[m..] + [last]; }
    }
  }

  // Filtering at the consumed head keeps the head's own boundary and everything after it.
  lemma PendingRereadsTheHead(store: Store, target: Target, log: seq<Boundary>, k: nat, cut: nat)
    requires History(target, log) && InSync(store, target, log, k) && cut <= |log|
    ensures Pending(log[..cut], HeadAt(store, target))
      == if cut < k then [] else if k == 0 then log[..cut] else [log[k - 1]] + log[k..cut]
  {
    PendingIsSuffix(log[..cut], HeadAt(store, target), if cut < k then cut else if k == 0 then 0 else k - 1);
  }

  // Consuming the next boundary of the log advances the store by one.
  lemma ConsumeNext(store: Store, target: Target, log: seq<Boundary>, k: nat)
    requires History(target, log) && InSync(store, target, log, k) && k < |log|
    ensures Consume(store, log[k]).1 == Advanced && InSync(Consume(store, log[k]).0, target, log, k + 1)
  {
    if k > 0 { assert log[k - 1].revision < log[k].revision; }
  }

  lemma RereadIsIdle(store: Store, target: Target, log: seq<Boundary>, k: nat, i: nat)
    requires History(target, log) && InSync(store, target, log, k) && i < k
    ensures Consume(store, log[i]) == (store, AlreadyConsumed)
  {
    if i < k - 1 { assert log[i].revision < log[k - 1].revision; }
  }

  lemma {:induction false} ConsumeRange(store: Store, target: Target, log: seq<Boundary>, k: nat, n: nat)
    requires History(target, log) && InSync(store, target, log, k) && k <= n <= |log|
    ensures ConsumeAll(store, log[k..n]).1 && InSync(ConsumeAll(store, log[k..n]).0, target, log, n)
    decreases n - k
  {
    if k < n {
      ConsumeNext(store, target, log, k);
      assert log[k..n][0] == log[k] && log[k..n][1..] == log[k + 1..n];
      ConsumeRange(Consume(store, log[k]).0, target, log, k + 1, n);
    }
  }

  lemma {:induction false} ConsumeInTwo(store: Store, target: Target, log: seq<Boundary>, k: nat, m: nat, n: nat)
    requires History(target, log) && InSync(store, target, log, k) && k <= m <= n <= |log|
    ensures ConsumeAll(store, log[k..n]) == ConsumeAll(ConsumeAll(store, log[k..m]).0, log[m..n])
    decreases m - k
  {
    if k < m {
      ConsumeNext(store, target, log, k);
      assert log[k..n][0] == log[k] && log[k..n][1..] == log[k + 1..n];
      assert log[k..m][0] == log[k] && log[k..m][1..] == log[k + 1..m];
      ConsumeInTwo(Consume(store, log[k]).0, target, log, k + 1, m, n);
    }
  }

  // One pass over the log's first `cut` boundaries.
  function Pass(store: Store, target: Target, log: seq<Boundary>, cut: nat): Store
    requires cut <= |log|
  {
    ConsumeAll(store, Pending(log[..cut], HeadAt(store, target))).0
  }

  function Further(k: nat, cut: nat): nat { if cut > k then cut else k }

  lemma PassAdvances(store: Store, target: Target, log: seq<Boundary>, k: nat, cut: nat)
    requires History(target, log) && InSync(store, target, log, k) && cut <= |log|
    ensures Pass(store, target, log, cut) == ConsumeAll(store, log[k..Further(k, cut)]).0
    ensures InSync(Pass(store, target, log, cut), target, log, Further(k, cut))
  {
    PendingRereadsTheHead(store, target, log, k, cut);
    ConsumeRange(store, target, log, k, Further(k, cut));
    if 0 < k <= cut {
      RereadIsIdle(store, target, log, k, k - 1);
      assert ([log[k - 1]] + log[k..cut])[1..] == log[k..cut];
    } else if k == 0 {
      assert log[..cut] == log[0..cut];
    }
  }

  function Passes(store: Store, target: Target, log: seq<Boundary>, cuts: seq<nat>): Store
    requires forall i :: 0 <= i < |cuts| ==> cuts[i] <= |log|
    decreases |cuts|
  {
    if cuts == [] then store else Passes(Pass(store, target, log, cuts[0]), target, log, cuts[1..])
  }

  function Furthest(k: nat, cuts: seq<nat>): nat
    decreases |cuts|
  {
    if cuts == [] then k else Furthest(Further(k, cuts[0]), cuts[1..])
  }

  lemma {:induction false} FurthestBounds(k: nat, cuts: seq<nat>, n: nat)
    requires k <= n && forall i :: 0 <= i < |cuts| ==> cuts[i] <= n
    ensures k <= Furthest(k, cuts) <= n
    ensures n in cuts ==> Furthest(k, cuts) == n
    decreases |cuts|
  {
    if cuts != [] {
      FurthestBounds(Further(k, cuts[0]), cuts[1..], n);
      if n == cuts[0] { FurthestBounds(n, cuts[1..], n); }
    }
  }

  lemma {:induction false} PassesReach(store: Store, target: Target, log: seq<Boundary>, k: nat, cuts: seq<nat>)
    requires History(target, log) && InSync(store, target, log, k)
    requires forall i :: 0 <= i < |cuts| ==> cuts[i] <= |log|
    ensures k <= Furthest(k, cuts) <= |log|
    ensures Passes(store, target, log, cuts) == ConsumeAll(store, log[k..Furthest(k, cuts)]).0
    decreases |cuts|
  {
    FurthestBounds(k, cuts, |log|);
    if cuts != [] {
      var m := Further(k, cuts[0]);
      FurthestBounds(m, cuts[1..], |log|);
      PassAdvances(store, target, log, k, cuts[0]);
      PassesReach(Pass(store, target, log, cuts[0]), target, log, m, cuts[1..]);
      ConsumeInTwo(store, target, log, k, m, Furthest(k, cuts));
    }
  }

  /** However a log is cut into passes, late and stale passes included, the store ends exactly as one
      pass over the whole log leaves it, as soon as one of the passes saw the whole log. */
  lemma BatchesDoNotMatter(store: Store, target: Target, log: seq<Boundary>, k: nat, cuts: seq<nat>)
    requires History(target, log) && InSync(store, target, log, k)
    requires (forall i :: 0 <= i < |cuts| ==> cuts[i] <= |log|) && |log| in cuts
    ensures Passes(store, target, log, cuts) == Pass(store, target, log, |log|)
  {
    FurthestBounds(k, cuts, |log|);
    PassesReach(store, target, log, k, cuts);
    PassAdvances(store, target, log, k, |log|);
  }

  predicate AllArmed(store: Store, target: Target) {
    forall id :: id in store.watchers ==> Baselined(store.watchers[id], target, 0) == store.watchers[id]
  }

  /** What a pass does is one reconciliation call, when every active watcher of the target is armed and
      the replay is not behind the consumed head. */
  lemma PassIsReconcile(store: Store, target: Target, log: seq<Boundary>, cut: nat, current: nat)
    requires cut <= |log| && AllArmed(store, target)
    requires var bs := Pending(log[..cut], HeadAt(store, target));
      WellFormed(bs) && FitsHead(store, bs, target, current)
    ensures Reconcile(store, Pending(log[..cut], HeadAt(store, target)), target, current).0 == Pass(store, target, log, cut)
  {
    forall id | id in store.watchers ensures Baselined(store.watchers[id], target, current) == store.watchers[id] {
      assert Baselined(store.watchers[id], target, 0) == store.watchers[id];
    }
    assert Baseline(store, target, current) == store;
  }

  // ---- Every run -----------------------------------------------------------------------

  // A pass in progress reads the log's boundaries `next..upto`.
  datatype PassState = PassState(target: Target, next: nat, upto: nat)

  /** `logs` is the canonical history; `done` counts, per target, the boundaries the store consumed.
      A project's lock admits one pass at a time. */
  datatype System = System(logs: map<Target, seq<Boundary>>, store: Store, done: map<Target, nat>,
                           pass: Option<PassState>)

  datatype Action =
    | Grow(b: Boundary)
    | Arm(id: WatcherId, w: Watcher)
    | Stop(id: WatcherId)
    | Begin(target: Target, upto: nat, current: nat)
    | Next
    | Leave

  function Log(s: System, target: Target): seq<Boundary> { if target in s.logs then s.logs[target] else [] }
  function Done(s: System, target: Target): nat { if target in s.done then s.done[target] else 0 }

  // A watcher may not arm behind the consumed head.
  predicate ArmAllowed(store: Store, w: Watcher) {
    w.armed.Some? && w.target in store.heads ==> store.heads[w.target].revision <= w.armed.value
  }

  predicate Enabled(s: System, a: Action) {
    match a
    case Grow(b) => History(b.target, Log(s, b.target) + [b])
    case Arm(id, w) => id !in s.store.watchers && w.verdict.Active? && ArmAllowed(s.store, w)
    case Stop(id) => id in s.store.watchers && s.store.watchers[id].verdict.Active?
    case Begin(target, upto, current) =>
      && s.pass.None? && upto <= |Log(s, target)|
      && var bs := Pending(Log(s, target)[..upto], HeadAt(s.store, target));
         WellFormed(bs) && FitsHead(s.store, bs, target, current)
    case Next => s.pass.Some? && s.pass.value.next < s.pass.value.upto <= |Log(s, s.pass.value.target)|
    case Leave => true       // the pass ends, its lease is revoked, or the process dies
  }

  function Apply(s: System, a: Action): System
    requires Enabled(s, a)
  {
    match a
    case Grow(b) => s.(logs := s.logs[b.target := Log(s, b.target) + [b]])
    case Arm(id, w) => s.(store := s.store.(watchers := s.store.watchers[id := w]))
    case Stop(id) =>
      s.(store := s.store.(watchers := s.store.watchers[id := s.store.watchers[id].(verdict := Stopped)]))
    case Begin(target, upto, current) =>
      var bs := Pending(Log(s, target)[..upto], HeadAt(s.store, target));
      s.(store := Baseline(s.store, target, current),
         pass := Some(PassState(target, if |bs| <= upto then upto - |bs| else 0, upto)))
    case Next =>
      var p := s.pass.value;
      var (store, receipt) := Consume(s.store, Log(s, p.target)[p.next]);
      s.(store := store, pass := Some(p.(next := p.next + 1)),
         done := if receipt.Advanced? then s.done[p.target := Done(s, p.target) + 1] else s.done)
    case Leave => s.(pass := None)
  }

  // A watcher nobody stopped has the outcome of the consumed boundaries.
  predicate WatcherOk(w: Watcher, consumed: seq<Boundary>) {
    || w.verdict.Stopped?
    || (w.armed.None? && w.verdict.Active?)
    || (w.armed.Some? && w.verdict == Outcome(w.condition, w.armed.value, consumed))
  }

  predicate TargetOk(s: System, target: Target) {
    History(target, Log(s, target)) && InSync(s.store, target, Log(s, target), Done(s, target))
  }

  predicate PassOk(s: System, p: PassState) {
    p.next <= Done(s, p.target) && p.next <= p.upto <= |Log(s, p.target)|
  }

  ghost predicate Inv(s: System) {
    match s
    case System(_, store, _, pass) =>
      && (forall t: Target :: TargetOk(s, t))
      && (forall id :: id in store.watchers ==> WatcherInv(s, store.watchers[id]))
      && (pass.Some? ==> PassOk(s, pass.value))
  }

  predicate WatcherInv(s: System, w: Watcher) {
    Done(s, w.target) <= |Log(s, w.target)| && WatcherOk(w, Log(s, w.target)[..Done(s, w.target)])
  }

  // A watcher armed at or after the consumed head has heard nothing yet.
  lemma FreshlyArmed(s: System, w: Watcher)
    requires TargetOk(s, w.target) && w.armed.Some? && w.verdict.Active? && ArmAllowed(s.store, w)
    ensures WatcherInv(s, w)
  {
    var log, k := Log(s, w.target), Done(s, w.target);
    forall i | 0 <= i < k ensures log[..k][i].revision <= w.armed.value {
      if i < k - 1 { assert log[i].revision < log[k - 1].revision; }
    }
    EarlierBoundariesAreSilent(w.condition, w.armed.value, log[..k]);
  }

  lemma GrowInv(s: System, b: Boundary)
    requires Inv(s) && Enabled(s, Grow(b))
    ensures Inv(Apply(s, Grow(b)))
  {
    var s' := Apply(s, Grow(b));
    forall t: Target ensures TargetOk(s', t) { assert TargetOk(s, t); }
    forall id | id in s'.store.watchers ensures WatcherInv(s', s'.store.watchers[id]) {
      var w := s.store.watchers[id];
      assert WatcherInv(s, w);
      assert Log(s', w.target)[..Done(s, w.target)] == Log(s, w.target)[..Done(s, w.target)];
    }
  }

  lemma ArmOrStopInv(s: System, a: Action)
    requires Inv(s) && Enabled(s, a) && (a.Arm? || a.Stop?)
    ensures Inv(Apply(s, a))
  {
    var s' := Apply(s, a);
    forall t: Target ensures TargetOk(s', t) { assert TargetOk(s, t); }
    forall id | id in s'.store.watchers ensures WatcherInv(s', s'.store.watchers[id]) {
      if id in s.store.watchers { assert WatcherInv(s, s.store.watchers[id]); }
      if a.Arm? && id == a.id {
        assert TargetOk(s, a.w.target);
        if a.w.armed.Some? { FreshlyArmed(s, a.w); }
      }
    }
  }

  lemma BeginInv(s: System, a: Action)
    requires Inv(s) && Enabled(s, a) && a.Begin?
    ensures Inv(Apply(s, a))
  {
    var s' := Apply(s, a);
    forall t: Target ensures TargetOk(s', t) { assert TargetOk(s, t); }
    forall id | id in s'.store.watchers ensures WatcherInv(s', s'.store.watchers[id]) {
      var w := s.store.watchers[id];
      assert WatcherInv(s, w) && TargetOk(s, w.target);
      if Baselined(w, a.target, a.current) != w { FreshlyArmed(s, Baselined(w, a.target, a.current)); }
    }
    assert TargetOk(s, a.target);
    PendingRereadsTheHead(s.store, a.target, Log(s, a.target), Done(s, a.target), a.upto);
  }

  // A watcher's verdict follows the log by one boundary.
  lemma ToldFollows(w: Watcher, b: Boundary, before: seq<Boundary>)
    requires WatcherOk(w, before) && w.target == b.target && Accepted(b)
    ensures WatcherOk(Told(w, b), before + [b])
  {
    assert (before + [b])[..|before|] == before;
  }

  lemma NextInv(s: System)
    requires Inv(s) && Enabled(s, Next)
    ensures Inv(Apply(s, Next))
  {
    var s', p := Apply(s, Next), s.pass.value;
    var log, k := Log(s, p.target), Done(s, p.target);
    assert TargetOk(s, p.target);
    if p.next < k { RereadIsIdle(s.store, p.target, log, k, p.next); } else { ConsumeNext(s.store, p.target, log, k); }
    forall t: Target ensures TargetOk(s', t) { assert TargetOk(s, t); }
    forall id | id in s'.store.watchers ensures WatcherInv(s', s'.store.watchers[id]) {
      var w := s.store.watchers[id];
      assert WatcherInv(s, w);
      if p.next == k && w.target == p.target {
        ToldFollows(w, log[k], log[..k]);
        assert log[..k + 1] == log[..k] + [log[k]];
      }
    }
  }

  lemma StepInv(s: System, a: Action)
    requires Inv(s) && Enabled(s, a)
    ensures Inv(Apply(s, a))
  {
    match a
    case Grow(b) => GrowInv(s, b);
    case Arm(_, _) => ArmOrStopInv(s, a);
    case Stop(_) => ArmOrStopInv(s, a);
    case Begin(_, _, _) => BeginInv(s, a);
    case Next => NextInv(s);
    case Leave =>
      forall t: Target ensures TargetOk(Apply(s, a), t) { assert TargetOk(s, t); }
      forall id | id in s.store.watchers ensures WatcherInv(Apply(s, a), s.store.watchers[id]) {
        assert WatcherInv(s, s.store.watchers[id]);
      }
  }

  const START := System(map[], Store(map[], map[]), map[], None)

  predicate Feasible(s: System, run: seq<Action>)
    decreases |run|
  {
    run != [] ==> Enabled(s, run[0]) && Feasible(Apply(s, run[0]), run[1..])
  }

  function After(s: System, run: seq<Action>): System
    requires Feasible(s, run)
    decreases |run|
  {
    if run == [] then s else After(Apply(s, run[0]), run[1..])
  }

  lemma {:induction false} RunInv(s: System, run: seq<Action>)
    requires Inv(s) && Feasible(s, run)
    ensures Inv(After(s, run))
    decreases |run|
  {
    if run != [] {
      StepInv(s, run[0]);
      RunInv(Apply(s, run[0]), run[1..]);
    }
  }

  /** In every run, with passes of any length begun and broken off anywhere while history grows and
      watchers arm, each watcher nobody stopped has the verdict of one reading of the consumed
      boundaries; a target's passes never touch another target's watchers. */
  lemma EveryRunAgreesWithOneReading(run: seq<Action>, id: WatcherId)
    requires Feasible(START, run) && id in After(START, run).store.watchers
    ensures var s := After(START, run); var w := s.store.watchers[id];
      && Done(s, w.target) <= |Log(s, w.target)|
      && (w.armed.Some? && !w.verdict.Stopped? ==>
        w.verdict == Outcome(w.condition, w.armed.value, Log(s, w.target)[..Done(s, w.target)]))
  {
    RunInv(START, run);
    assert WatcherInv(After(START, run), After(START, run).store.watchers[id]);
  }

  // A step keeps a watcher's target, condition and arm revision, and whatever verdict it reached.
  predicate Keeps(before: Watcher, after: Watcher) {
    && after.target == before.target && after.condition == before.condition
    && (before.armed.Some? ==> after.armed == before.armed)
    && (!before.verdict.Active? ==> after == before)
  }

  lemma VerdictsAreFinal(s: System, a: Action, id: WatcherId)
    requires Enabled(s, a) && id in s.store.watchers
    ensures id in Apply(s, a).store.watchers && Keeps(s.store.watchers[id], Apply(s, a).store.watchers[id])
  {
  }

  // ---- The store -----------------------------------------------------------------------

  class WatcherStore {
    var watchers: map<WatcherId, Watcher>
    var heads: map<Target, Head>

    function Value(): Store
      reads this
    {
      Store(watchers, heads)
    }

    method Insert(id: WatcherId, w: Watcher) returns (ok: bool)
      requires id !in watchers && w.verdict.Active?
      modifies this
      ensures ok == ArmAllowed(old(Value()), w)
      ensures Value() == if ok then Store(old(watchers)[id := w], old(heads)) else old(Value())
    {
      if w.armed.Some? && w.target in heads && w.armed.value < heads[w.target].revision { return false; }
      watchers := watchers[id := w];
      return true;
    }

    method InitializeBaselines(target: Target, current: nat)
      modifies this
      ensures Value() == Baseline(old(Value()), target, current)
    {
      ghost var before := watchers;
      var todo := watchers.Keys;
      while todo != {}
        invariant todo <= watchers.Keys == before.Keys && heads == old(heads)
        invariant forall id :: id in before ==>
          watchers[id] == if id in todo then before[id] else Baselined(before[id], target, current)
        decreases |todo|
      {
        var id :| id in todo;
        todo := todo - {id};
        var w := watchers[id];
        if w.target == target && w.armed.None? && w.verdict.Active? {
          watchers := watchers[id := w.(armed := Some(current))];
        }
      }
    }

    method ConsumeBoundary(b: Boundary) returns (receipt: Receipt)
      modifies this
      ensures (Value(), receipt) == Consume(old(Value()), b)
    {
      if b.target in heads {
        if heads[b.target].revision > b.revision { return AlreadyConsumed; }
        if heads[b.target].revision == b.revision {
          return if heads[b.target].transition != b.transition then IdentityChanged else AlreadyConsumed;
        }
      }
      ghost var before := watchers;
      var todo := watchers.Keys;
      while todo != {}
        invariant todo <= watchers.Keys == before.Keys && heads == old(heads)
        invariant forall id :: id in before ==>
          watchers[id] == if id in todo then before[id] else Told(before[id], b)
        decreases |todo|
      {
        var id :| id in todo;
        todo := todo - {id};
        var w := watchers[id];
        if Listens(w, b) {
          var result := BoundaryResult(w.condition, w.armed.value, b.state, b.events);
          watchers := watchers[id := w.(verdict := result)];
        }
      }
      heads := heads[b.target := HeadOf(b)];
      assert watchers == Consume(old(Value()), b).0.watchers;
      return Advanced;
    }

    method ReconcileBoundaries(bs: seq<Boundary>, target: Target, current: nat) returns (ok: bool)
      modifies this
      ensures (Value(), ok) == Reconcile(old(Value()), bs, target, current)
    {
      var formed := CheckBoundaries(bs);
      if !formed || !FitsHead(Value(), bs, target, current) { return false; }
      InitializeBaselines(target, current);
      ghost var start := Value();
      for i := 0 to |bs|
        invariant ConsumeAll(start, bs) == ConsumeAll(Value(), bs[i..])
      {
        var receipt := ConsumeBoundary(bs[i]);
        assert bs[i..][1..] == bs[i + 1..];
        if receipt.IdentityChanged? { return false; }
      }
      return true;
    }
  }

  // `last` is the latest revision of each target among the first boundaries, `ids` their event ids.
  predicate Seen(bs: seq<Boundary>, last: map<Target, nat>, ids: set<EventId>) {
    && (forall j :: 0 <= j < |bs| ==> bs[j].target in last && bs[j].revision <= last[bs[j].target])
    && (forall t :: t in last ==> exists j :: 0 <= j < |bs| && bs[j].target == t && bs[j].revision == last[t])
    && (forall j :: 0 <= j < |bs| ==> EventIds(bs[j].events) <= ids)
    && (forall e :: e in ids ==> exists j :: 0 <= j < |bs| && e in EventIds(bs[j].events))
  }

  predicate Fits(b: Boundary, last: map<Target, nat>, ids: set<EventId>) {
    match b
    case Boundary(target, revision, _, _, events) =>
      Accepted(b) && (target in last ==> last[target] < revision) && EventIds(events) !! ids
  }

  lemma SeenGrows(bs: seq<Boundary>, b: Boundary, last: map<Target, nat>, ids: set<EventId>)
    requires Seen(bs, last, ids) && Fits(b, last, ids)
    ensures Seen(bs + [b], last[b.target := b.revision], ids + EventIds(b.events))
  {
    var all, last', ids' := bs + [b], last[b.target := b.revision], ids + EventIds(b.events);
    forall t | t in last' ensures exists j :: 0 <= j < |all| && all[j].target == t && all[j].revision == last'[t] {
      if t == b.target {
        assert all[|bs|] == b;
      } else {
        var j :| 0 <= j < |bs| && bs[j].target == t && bs[j].revision == last[t];
        assert all[j] == bs[j];
      }
    }
    forall e | e in ids' ensures exists j :: 0 <= j < |all| && e in EventIds(all[j].events) {
      if e in ids {
        var j :| 0 <= j < |bs| && e in EventIds(bs[j].events);
        assert all[j] == bs[j];
      } else {
        assert all[|bs|] == b;
      }
    }
  }

  /** A boundary keeps a well-formed batch well-formed exactly when it is accepted, later than the
      target's previous one, and repeats no event. */
  lemma FittingExtends(bs: seq<Boundary>, b: Boundary, last: map<Target, nat>, ids: set<EventId>)
    requires Seen(bs, last, ids) && WellFormed(bs) && Fits(b, last, ids)
    ensures WellFormed(bs + [b])
  {
    var all := bs + [b];
    assert all[|bs|] == b && forall j :: 0 <= j < |bs| ==> all[j] == bs[j];
  }

  lemma ExtendingFits(bs: seq<Boundary>, b: Boundary, last: map<Target, nat>, ids: set<EventId>)
    requires Seen(bs, last, ids) && WellFormed(bs + [b])
    ensures Fits(b, last, ids)
  {
    var all := bs + [b];
    assert all[|bs|] == b && forall j :: 0 <= j < |bs| ==> all[j] == bs[j];
    if b.target in last {
      var j :| 0 <= j < |bs| && bs[j].target == b.target && bs[j].revision == last[b.target];
      assert all[j].target == all[|bs|].target;
    }
    forall e | e in ids ensures e !in EventIds(b.events) {
      var j :| 0 <= j < |bs| && e in EventIds(bs[j].events);
      assert EventIds(all[j].events) !! EventIds(all[|bs|].events);
    }
  }

  lemma FitsExactly(bs: seq<Boundary>, b: Boundary, last: map<Target, nat>, ids: set<EventId>)
    requires Seen(bs, last, ids) && WellFormed(bs)
    ensures Fits(b, last, ids) <==> WellFormed(bs + [b])
  {
    hide Fits, WellFormed, Seen;
    if Fits(b, last, ids) { FittingExtends(bs, b, last, ids); }
    if WellFormed(bs + [b]) { ExtendingFits(bs, b, last, ids); }
  }

  lemma PrefixWellFormed(bs: seq<Boundary>, i: nat)
    requires i <= |bs| && WellFormed(bs)
    ensures WellFormed(bs[..i])
  {
    assert forall j :: 0 <= j < i ==> bs[..i][j] == bs[j];
  }

  method SelectBoundaries(log: seq<Boundary>, head: Option<Head>) returns (bs: seq<Boundary>)
    ensures bs == Pending(log, head)
  {
    bs := [];
    for i := 0 to |log|
      invariant bs == Pending(log[..i], head)
    {
      assert log[..i + 1][..i] == log[..i];
      if head.None? || head.value.revision <= log[i].revision { bs := bs + [log[i]]; }
    }
    assert log[..|log|] == log;
  }

  method CheckBoundaries(bs: seq<Boundary>) returns (ok: bool)
    ensures ok == WellFormed(bs)
  {
    var last: map<Target, nat> := map[];
    var ids: set<EventId> := {};
    for i := 0 to |bs|
      invariant WellFormed(bs[..i]) && Seen(bs[..i], last, ids)
    {
      var b := bs[i];
      FitsExactly(bs[..i], b, last, ids);
      assert bs[..i] + [b] == bs[..i + 1];
      if !Fits(b, last, ids) {
        if WellFormed(bs) { PrefixWellFormed(bs, i + 1); }
        return false;
      }
      SeenGrows(bs[..i], b, last, ids);
      last := last[b.target := b.revision];
      ids := ids + EventIds(b.events);
    }
    assert bs[..|bs|] == bs;
    return true;
  }
}
