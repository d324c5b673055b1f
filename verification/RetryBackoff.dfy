/** The retry registry of graph-watcher reconciliation (src/rcp/watchers.py,
    `GraphWatcherRetryRegistry`): failures per project, and the poll passes left before the project is
    due again.  A due project stays due until it is scheduled anew or cleared. */
module RetryBackoff {
  type Project = nat

  const POLL_INTERVAL := 5
  const MAX_PASSES := 60 / POLL_INTERVAL

  function Power(n: nat): nat { if n == 0 then 1 else 2 * Power(n - 1) }
  function Min(a: nat, b: nat): nat { if a < b then a else b }

  // Passes to wait after the given number of consecutive failures.
  function Backoff(failures: nat): nat
    requires failures > 0
  {
    Min(Power(Min(failures - 1, 6)), MAX_PASSES)
  }

  lemma {:induction false} PowerGrows(m: nat, n: nat)
    requires m <= n
    ensures 1 <= Power(m) <= Power(n)
  {
    if m < n { PowerGrows(m, n - 1); } else if m > 0 { PowerGrows(m - 1, n - 1); }
  }

  /** The wait is never zero, never more than a minute of passes, and never shrinks as failures repeat. */
  lemma BackoffBounds(failures: nat)
    requires failures > 0
    ensures 1 <= Backoff(failures) <= Backoff(failures + 1) <= MAX_PASSES
    ensures failures >= 5 ==> Backoff(failures) == MAX_PASSES
  {
    PowerGrows(Min(failures - 1, 6), Min(failures, 6));
    if failures >= 5 {
      PowerGrows(4, Min(failures - 1, 6));
      assert Power(1) == 2 && Power(2) == 4 && Power(3) == 8 && Power(4) == 16;
    }
  }

  datatype Table = Table(failures: map<Project, nat>, passes: map<Project, nat>)

  function Failures(t: Table, p: Project): nat { if p in t.failures then t.failures[p] else 0 }

  function ScheduleStep(t: Table, p: Project): Table {
    Table(t.failures[p := Failures(t, p) + 1], t.passes[p := Backoff(Failures(t, p) + 1)])
  }

  function ClearStep(t: Table, p: Project): Table { Table(t.failures - {p}, t.passes - {p}) }

  function Ticked(n: nat): nat { if n <= 1 then 0 else n - 1 }

  function DueStep(t: Table): Table { t.(passes := map p | p in t.passes :: Ticked(t.passes[p])) }
  function DueNow(t: Table): set<Project> { set p | p in t.passes && t.passes[p] <= 1 }

  datatype Action = Schedule(p: Project) | Clear(p: Project) | Due

  function Apply(t: Table, a: Action): Table {
    match a
    case Schedule(p) => ScheduleStep(t, p)
    case Clear(p) => ClearStep(t, p)
    case Due => DueStep(t)
  }

  function After(t: Table, run: seq<Action>): Table
    decreases |run|
  {
    if run == [] then t else After(Apply(t, run[0]), run[1..])
  }

  function Polls(run: seq<Action>): nat
    decreases |run|
  {
    if run == [] then 0 else (if run[0].Due? then 1 else 0) + Polls(run[1..])
  }

  predicate Spares(run: seq<Action>, p: Project) { forall a :: a in run ==> a != Schedule(p) && a != Clear(p) }

  lemma {:induction false} Countdown(t: Table, run: seq<Action>, p: Project)
    requires p in t.passes && Spares(run, p)
    ensures p in After(t, run).passes
    ensures var n, left := Polls(run), t.passes[p]; After(t, run).passes[p] == if n == 0 then left else if left < n then 0 else left - n
    decreases |run|
  {
    if run != [] {
      assert run[0] in run && forall a :: a in run[1..] ==> a in run;
      Countdown(Apply(t, run[0]), run[1..], p);
    }
  }

  /** A project that failed for the n-th time in a row is due at exactly the `Backoff(n)`-th poll pass
      and at every later one, until something clears or schedules it again, whatever is scheduled or
      cleared for other projects meanwhile. */
  lemma DueExactlyOnTime(t: Table, p: Project, run: seq<Action>)
    requires Spares(run, p)
    ensures var scheduled := ScheduleStep(t, p);
      p in DueNow(After(scheduled, run)) <==> Polls(run) + 1 >= Backoff(Failures(t, p) + 1)
  {
    Countdown(ScheduleStep(t, p), run, p);
  }

  lemma {:induction false} StaysUnlisted(t: Table, run: seq<Action>, p: Project)
    requires p !in t.passes && Schedule(p) !in run
    ensures p !in After(t, run).passes
    decreases |run|
  {
    if run != [] {
      assert Schedule(p) !in run[1..] by { assert forall a :: a in run[1..] ==> a in run; }
      StaysUnlisted(Apply(t, run[0]), run[1..], p);
    }
  }

  /** A cleared project is never due again before it is scheduled, and its count starts over. */
  lemma ClearedIsNeverDue(t: Table, p: Project, run: seq<Action>)
    requires Schedule(p) !in run
    ensures p !in DueNow(After(ClearStep(t, p), run)) && Failures(ClearStep(t, p), p) == 0
  {
    StaysUnlisted(ClearStep(t, p), run, p);
  }

  class GraphWatcherRetryRegistry {
    var failures: map<Project, nat>
    var passes: map<Project, nat>

    constructor ()
      ensures Value() == Table(map[], map[])
    {
      failures, passes := map[], map[];
    }

    function Value(): Table
      reads this
    {
      Table(failures, passes)
    }

    method Schedule(p: Project)
      modifies this
      ensures Value() == ScheduleStep(old(Value()), p)
    {
      var count := (if p in failures then failures[p] else 0) + 1;
      failures := failures[p := count];
      passes := passes[p := Backoff(count)];
    }

    method Clear(p: Project)
      modifies this
      ensures Value() == ClearStep(old(Value()), p)
    {
      failures := failures - {p};
      passes := passes - {p};
    }

    method Due() returns (due: set<Project>)
      modifies this
      ensures Value() == DueStep(old(Value())) && due == DueNow(old(Value()))
    {
      ghost var before := passes;
      due := {};
      var todo := passes.Keys;
      while todo != {}
        invariant todo <= passes.Keys == before.Keys && failures == old(failures)
        invariant forall p :: p in before ==> passes[p] == if p in todo then before[p] else Ticked(before[p])
        invariant due == set p | p in before && p !in todo && before[p] <= 1
        decreases |todo|
      {
        var p :| p in todo;
        todo := todo - {p};
        if passes[p] <= 1 {
          passes := passes[p := 0];
          due := due + {p};
        } else {
          passes := passes[p := passes[p] - 1];
        }
      }
      assert passes == DueStep(old(Value())).passes;
    }
  }
}
