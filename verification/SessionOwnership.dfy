/** Which native agent sessions RCP may resume (src/rcp/background.py, `_session_is_rcp_owned` and the
    lineage that `start`, `resume` and `retry` build; src/rcp/storage/agent_tasks.py for the checkpoint).

    A task began with a session it was given, or with none and then recorded the one its agent opened.
    A session is RCP's own when a chain of parents leads from the task to one that began with none. */
module SessionOwnership {
  import opened Options

  type Op = nat
  type Project = nat
  type Session = nat

  const EMPTY: Session := 0        // the empty string: present, but false

  datatype Kind = Seed | Refresh | NodeChat | ProjectChat | PaperCoach | OtherKind

  predicate IsChat(kind: Kind) { kind.NodeChat? || kind.ProjectChat? || kind.PaperCoach? }
  predicate IsIngest(kind: Kind) { kind.Seed? || kind.Refresh? }

  datatype Task = Task(project: Project, kind: Kind, request: Option<Session>, native: Option<Session>, parent: Option<Op>)

  type Tasks = map<Op, Task>

  predicate Holds(session: Option<Session>) { session.Some? && session.value != EMPTY }

  // The walk steps from `a` to its parent `b`.
  predicate Linked(tasks: Tasks, a: Op, b: Op) {
    && a in tasks && b in tasks && tasks[a].request.Some? && tasks[a].parent == Some(b)
    && tasks[b].project == tasks[a].project && tasks[b].kind == tasks[a].kind
    && tasks[b].native == tasks[a].request
  }

  // A task that began without a session and recorded one.
  predicate Origin(tasks: Tasks, a: Op) { a in tasks && tasks[a].request.None? && Holds(tasks[a].native) }

  /** A lineage: linked tasks ending at an origin. */
  predicate Lineage(tasks: Tasks, path: seq<Op>) {
    && path != []
    && (forall i :: 0 <= i < |path| - 1 ==> Linked(tasks, path[i], path[i + 1]))
    && Origin(tasks, path[|path| - 1])
  }

  ghost predicate HasLineage(tasks: Tasks, a: Op) { exists path :: Lineage(tasks, path) && path[0] == a }

  predicate Climbs(tasks: Tasks, a: Op) {
    a in tasks && tasks[a].parent.Some? && Linked(tasks, a, tasks[a].parent.value)
  }

  // An origin is `n` links away.
  predicate Reaches(tasks: Tasks, a: Op, n: nat)
    decreases n
  {
    if n == 0 then Origin(tasks, a)
    else Climbs(tasks, a) && Reaches(tasks, tasks[a].parent.value, n - 1)
  }

  lemma {:induction false} LineageReaches(tasks: Tasks, path: seq<Op>)
    requires Lineage(tasks, path)
    ensures Reaches(tasks, path[0], |path| - 1)
    decreases |path|
  {
    if |path| > 1 {
      assert Linked(tasks, path[0], path[1]);
      var rest := path[1..];
      forall i | 0 <= i < |rest| - 1 ensures Linked(tasks, rest[i], rest[i + 1]) {
        assert Linked(tasks, path[i + 1], path[i + 2]);
      }
      LineageReaches(tasks, rest);
    }
  }

  lemma {:induction false} ReachesLineage(tasks: Tasks, a: Op, n: nat) returns (path: seq<Op>)
    requires Reaches(tasks, a, n)
    ensures Lineage(tasks, path) && path[0] == a && |path| == n + 1
    decreases n
  {
    if n == 0 { return [a]; }
    var rest := ReachesLineage(tasks, tasks[a].parent.value, n - 1);
    path := [a] + rest;
    forall i | 0 <= i < |path| - 1 ensures Linked(tasks, path[i], path[i + 1]) {
      if i > 0 { assert Linked(tasks, rest[i - 1], rest[i]); }
    }
  }

  lemma {:induction false} DistanceIsUnique(tasks: Tasks, a: Op, m: nat, n: nat)
    requires Reaches(tasks, a, m) && Reaches(tasks, a, n)
    ensures m == n
    decreases m
  {
    if m > 0 && n > 0 { DistanceIsUnique(tasks, tasks[a].parent.value, m - 1, n - 1); }
  }

  // `b` is exactly `k` links up from `a`.
  predicate Above(tasks: Tasks, a: Op, b: Op, k: nat)
    decreases k
  {
    if k == 0 then a == b
    else Climbs(tasks, a) && Above(tasks, tasks[a].parent.value, b, k - 1)
  }

  lemma {:induction false} ReachesFromAbove(tasks: Tasks, a: Op, b: Op, k: nat, n: nat)
    requires Above(tasks, a, b, k)
    ensures Reaches(tasks, a, n) <==> n >= k && Reaches(tasks, b, n - k)
    decreases k
  {
    if k > 0 && n > 0 { ReachesFromAbove(tasks, tasks[a].parent.value, b, k - 1, n - 1); }
  }

  lemma {:induction false} AboveExtends(tasks: Tasks, a: Op, b: Op, k: nat)
    requires Above(tasks, a, b, k) && Climbs(tasks, b)
    ensures Above(tasks, a, tasks[b].parent.value, k + 1)
    decreases k
  {
    if k > 0 { AboveExtends(tasks, tasks[a].parent.value, b, k - 1); }
  }

  /** A task whose parents lead back to a task already passed has no lineage. */
  lemma CyclesAreNotOwned(tasks: Tasks, a: Op, b: Op, j: nat, k: nat)
    requires Above(tasks, a, b, j) && Above(tasks, a, b, k) && j < k
    ensures !HasLineage(tasks, a)
  {
    if HasLineage(tasks, a) {
      var path :| Lineage(tasks, path) && path[0] == a;
      LineageReaches(tasks, path);
      ReachesFromAbove(tasks, a, b, j, |path| - 1);
      ReachesFromAbove(tasks, a, b, k, |path| - 1);
      DistanceIsUnique(tasks, b, |path| - 1 - j, |path| - 1 - k);
    }
  }

  /** What the walk answers. */
  ghost predicate Owned(tasks: Tasks, a: Op)
    requires a in tasks
  {
    if IsChat(tasks[a].kind) then Holds(tasks[a].native) else HasLineage(tasks, a)
  }

  lemma OwnedAbove(tasks: Tasks, a: Op, b: Op, k: nat)
    requires Above(tasks, a, b, k)
    ensures HasLineage(tasks, a) <==> HasLineage(tasks, b)
  {
    if HasLineage(tasks, a) {
      var path :| Lineage(tasks, path) && path[0] == a;
      LineageReaches(tasks, path);
      ReachesFromAbove(tasks, a, b, k, |path| - 1);
      var rest := ReachesLineage(tasks, b, |path| - 1 - k);
    }
    if HasLineage(tasks, b) {
      var path :| Lineage(tasks, path) && path[0] == b;
      LineageReaches(tasks, path);
      ReachesFromAbove(tasks, a, b, k, |path| - 1 + k);
      var whole := ReachesLineage(tasks, a, |path| - 1 + k);
    }
  }

  lemma StuckHasNoLineage(tasks: Tasks, a: Op)
    requires a in tasks && tasks[a].request.Some? && !Climbs(tasks, a)
    ensures !HasLineage(tasks, a)
  {
    forall path | Lineage(tasks, path) ensures path[0] != a {
      LineageReaches(tasks, path);
    }
  }

  lemma BeginningIsItsOwnLineage(tasks: Tasks, a: Op)
    requires a in tasks && tasks[a].request.None?
    ensures HasLineage(tasks, a) <==> Holds(tasks[a].native)
  {
    if Holds(tasks[a].native) { assert Lineage(tasks, [a]); }
    forall path | Lineage(tasks, path) && path[0] == a ensures Holds(tasks[a].native) {
      LineageReaches(tasks, path);
    }
  }

  // The tasks passed so far, each with the number of links from `op` to it.
  predicate Trail(tasks: Tasks, op: Op, passed: map<Op, nat>, steps: nat) {
    forall a :: a in passed ==> a in tasks && passed[a] < steps && Above(tasks, op, a, passed[a])
  }

  lemma TrailExtends(tasks: Tasks, op: Op, passed: map<Op, nat>, current: Op, steps: nat)
    requires Trail(tasks, op, passed, steps) && Above(tasks, op, current, steps) && Climbs(tasks, current)
    ensures Trail(tasks, op, passed[current := steps], steps + 1)
    ensures Above(tasks, op, tasks[current].parent.value, steps + 1)
  {
    AboveExtends(tasks, op, current, steps);
  }

  lemma OffTheTrail(tasks: Tasks, op: Op, passed: map<Op, nat>, current: Op, steps: nat)
    requires Trail(tasks, op, passed, steps) && Above(tasks, op, current, steps) && current in passed
    ensures !HasLineage(tasks, op)
  {
    CyclesAreNotOwned(tasks, op, current, passed[current], steps);
  }

  // What the walk finds at a task it does not climb from.
  lemma WalkEnds(tasks: Tasks, op: Op, current: Op, steps: nat)
    requires Above(tasks, op, current, steps) && current in tasks
    requires tasks[current].request.None? || !Climbs(tasks, current)
    ensures HasLineage(tasks, op) <==> tasks[current].request.None? && Holds(tasks[current].native)
  {
    OwnedAbove(tasks, op, current, steps);
    if tasks[current].request.None? {
      BeginningIsItsOwnLineage(tasks, current);
    } else {
      StuckHasNoLineage(tasks, current);
    }
  }

  /** The ownership walk: it ends on every parent graph, cyclic ones included, and answers exactly
      whether the task has a lineage. */
  method SessionIsOwned(tasks: Tasks, op: Op) returns (owned: bool)
    requires op in tasks
    ensures owned == Owned(tasks, op)
  {
    if IsChat(tasks[op].kind) { return Holds(tasks[op].native); }
    var seen: set<Op> := {};
    var current := op;
    ghost var steps, passed: map<Op, nat> := 0, map[];
    while current !in seen
      invariant current in tasks && seen == passed.Keys
      invariant Trail(tasks, op, passed, steps) && Above(tasks, op, current, steps)
      decreases tasks.Keys - seen
    {
      seen := seen + {current};
      var task := tasks[current];
      if task.request.None? {
        WalkEnds(tasks, op, current, steps);
        return Holds(task.native);
      }
      if task.parent.None? || task.parent.value !in tasks {
        WalkEnds(tasks, op, current, steps);
        return false;
      }
      var parent := tasks[task.parent.value];
      if parent.project != task.project || parent.kind != task.kind || parent.native != task.request {
        WalkEnds(tasks, op, current, steps);
        return false;
      }
      TrailExtends(tasks, op, passed, current, steps);
      passed := passed[current := steps];
      current, steps := task.parent.value, steps + 1;
    }
    OffTheTrail(tasks, op, passed, current, steps);
    return false;
  }

  // ---- The store ------------------------------------------------------------------------

  // What decides whether a retry may take the session over.
  datatype Recovery = Recovery(failed: bool, sameProvider: bool, sameHost: bool, stageKept: bool, sessionLimit: bool,
                               contextLost: bool)

  predicate Reusable(r: Recovery) {
    r.failed && r.sameProvider && r.sameHost && r.stageKept && !r.sessionLimit && !r.contextLost
  }

  datatype Action =
    | Start(op: Op, project: Project, kind: Kind, given: Option<Session>)
    | Checkpoint(op: Op, taken: Session)
    | Resume(from: Op, op: Op)
    | Retry(from: Op, op: Op, recovery: Recovery)
    | Other(op: Op, task: Task)        // a chat turn, a wake, a merge, a report: any task that is no ingest

  function Child(tasks: Tasks, from: Op, session: Option<Session>): Task
    requires from in tasks
  {
    Task(tasks[from].project, tasks[from].kind, session, session, Some(from))
  }

  // A checkpoint fills an empty session or repeats the one recorded; it never replaces one.
  function Recorded(t: Task, session: Session): Task {
    if t.native.None? then t.(native := Some(session)) else t
  }

  ghost predicate Allowed(tasks: Tasks, a: Action) {
    match a
    case Start(op, _, kind, session) => op !in tasks && (IsIngest(kind) ==> !Holds(session))
    case Checkpoint(op, _) => op in tasks
    case Resume(from, op) => from in tasks && op !in tasks && Holds(tasks[from].native) && Owned(tasks, from)
    case Retry(from, op, _) => from in tasks && op !in tasks
    case Other(op, task) => op !in tasks && !IsIngest(task.kind)
  }

  ghost function Apply(tasks: Tasks, a: Action): Tasks
    requires Allowed(tasks, a)
  {
    match a
    case Start(op, project, kind, session) => tasks[op := Task(project, kind, session, session, None)]
    case Checkpoint(op, session) => tasks[op := Recorded(tasks[op], session)]
    case Resume(from, op) => tasks[op := Child(tasks, from, tasks[from].native)]
    case Retry(from, op, recovery) =>
      var reuse := Reusable(recovery) && Holds(tasks[from].native) && Owned(tasks, from);
      tasks[op := Child(tasks, from, if reuse then tasks[from].native else None)]
    case Other(op, task) => tasks[op := task]
  }

  // Rows are never deleted, and only an empty session is ever filled.
  predicate Extends(tasks: Tasks, later: Tasks) {
    forall a :: a in tasks ==>
      && a in later && later[a].project == tasks[a].project && later[a].kind == tasks[a].kind
      && later[a].request == tasks[a].request && later[a].parent == tasks[a].parent
      && (tasks[a].native.Some? ==> later[a].native == tasks[a].native)
  }

  lemma {:induction false} ReachesSurvives(tasks: Tasks, later: Tasks, a: Op, n: nat)
    requires Extends(tasks, later) && Reaches(tasks, a, n)
    ensures Reaches(later, a, n)
    decreases n
  {
    if n > 0 { ReachesSurvives(tasks, later, tasks[a].parent.value, n - 1); }
  }

  lemma LineageSurvives(tasks: Tasks, later: Tasks, a: Op)
    requires Extends(tasks, later) && HasLineage(tasks, a)
    ensures HasLineage(later, a)
  {
    var path :| Lineage(tasks, path) && path[0] == a;
    LineageReaches(tasks, path);
    ReachesSurvives(tasks, later, a, |path| - 1);
    var same := ReachesLineage(later, a, |path| - 1);
  }

  ghost predicate TaskOk(tasks: Tasks, a: Op)
    requires a in tasks
  {
    && (IsIngest(tasks[a].kind) && tasks[a].request.Some? ==> tasks[a].native == tasks[a].request)
    && (IsIngest(tasks[a].kind) && Holds(tasks[a].native) ==> HasLineage(tasks, a))
  }

  ghost predicate Inv(tasks: Tasks) { forall a :: a in tasks ==> TaskOk(tasks, a) }

  lemma ChildIsOwned(tasks: Tasks, from: Op, op: Op)
    requires from in tasks && op !in tasks && tasks[from].native.Some? && HasLineage(tasks, from)
    ensures HasLineage(tasks[op := Child(tasks, from, tasks[from].native)], op)
  {
    var later := tasks[op := Child(tasks, from, tasks[from].native)];
    LineageSurvives(tasks, later, from);
    assert Above(later, from, from, 0) && Linked(later, op, from);
    assert Above(later, op, from, 1) by { assert later[op].parent == Some(from); }
    OwnedAbove(later, op, from, 1);
  }

  lemma StepInv(tasks: Tasks, a: Action)
    requires Inv(tasks) && Allowed(tasks, a)
    ensures Inv(Apply(tasks, a)) && Extends(tasks, Apply(tasks, a))
  {
    var later := Apply(tasks, a);
    forall b | b in later ensures TaskOk(later, b) {
      if b in tasks {
        assert TaskOk(tasks, b);
        if HasLineage(tasks, b) { LineageSurvives(tasks, later, b); }
        if later[b].request.None? { BeginningIsItsOwnLineage(later, b); }
      } else if later[b].request.None? {
        BeginningIsItsOwnLineage(later, b);
      } else if (a.Resume? || a.Retry?) && !IsChat(tasks[a.from].kind) {
        ChildIsOwned(tasks, a.from, a.op);
      }
    }
  }

  ghost predicate Feasible(tasks: Tasks, run: seq<Action>)
    decreases |run|
  {
    run != [] ==> Allowed(tasks, run[0]) && Feasible(Apply(tasks, run[0]), run[1..])
  }

  ghost function After(tasks: Tasks, run: seq<Action>): Tasks
    requires Feasible(tasks, run)
    decreases |run|
  {
    if run == [] then tasks else After(Apply(tasks, run[0]), run[1..])
  }

  lemma {:induction false} RunInv(tasks: Tasks, run: seq<Action>)
    requires Inv(tasks) && Feasible(tasks, run)
    ensures Inv(After(tasks, run))
    decreases |run|
  {
    if run != [] {
      StepInv(tasks, run[0]);
      RunInv(Apply(tasks, run[0]), run[1..]);
    }
  }

  /** In every store that starts, checkpoints, resumptions and retries reach, each seed or refresh task
      that carries a session owns it, so its checkpoint can always be resumed. */
  lemma IngestSessionsAreOwned(run: seq<Action>, a: Op)
    requires Feasible(map[], run) && a in After(map[], run)
    requires IsIngest(After(map[], run)[a].kind) && Holds(After(map[], run)[a].native)
    ensures Owned(After(map[], run), a)
  {
    RunInv(map[], run);
    assert TaskOk(After(map[], run), a);
  }

  class BackgroundSessions {
    var tasks: Tasks

    method StartTask(op: Op, project: Project, kind: Kind, session: Option<Session>) returns (ok: bool)
      requires op !in tasks
      modifies this
      ensures ok == Allowed(old(tasks), Start(op, project, kind, session))
      ensures tasks == if ok then Apply(old(tasks), Start(op, project, kind, session)) else old(tasks)
    {
      if (kind == Seed || kind == Refresh) && session.Some? && session.value != EMPTY { return false; }
      tasks := tasks[op := Task(project, kind, session, session, None)];
      return true;
    }

    method CheckpointTask(op: Op, session: Session) returns (ok: bool)
      requires op in tasks
      modifies this
      ensures tasks == Apply(old(tasks), Checkpoint(op, session))
      ensures ok <==> tasks[op].native == Some(session)
    {
      var task := tasks[op];
      if task.native.Some? && task.native.value != session {
        assert tasks == old(tasks)[op := Recorded(task, session)];
        return false;
      }
      tasks := tasks[op := task.(native := Some(session))];
      return true;
    }

    method ResumeTask(from: Op, op: Op) returns (ok: bool)
      requires from in tasks && op !in tasks
      modifies this
      ensures ok == Allowed(old(tasks), Resume(from, op))
      ensures tasks == if ok then Apply(old(tasks), Resume(from, op)) else old(tasks)
    {
      var previous := tasks[from];
      if previous.native.None? || previous.native.value == EMPTY { return false; }
      var owned := SessionIsOwned(tasks, from);
      if !owned { return false; }
      tasks := tasks[op := Task(previous.project, previous.kind, previous.native, previous.native, Some(from))];
      return true;
    }

    method RetryTask(from: Op, op: Op, recovery: Recovery)
      requires from in tasks && op !in tasks
      modifies this
      ensures tasks == Apply(old(tasks), Retry(from, op, recovery))
    {
      var previous := tasks[from];
      var owned := false;
      if previous.native.Some? && previous.native.value != EMPTY && recovery.stageKept {
        owned := SessionIsOwned(tasks, from);
      }
      var reuse := recovery.failed && recovery.sameProvider && recovery.sameHost && owned
                   && !recovery.sessionLimit && !recovery.contextLost;
      var session: Option<Session> := if reuse then previous.native else None;
      tasks := tasks[op := Task(previous.project, previous.kind, session, session, Some(from))];
    }
  }
}
