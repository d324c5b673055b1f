/** The fence that holds side effects back during startup (src/rcp/background.py, `StartupEffectFence`).

    Effects ask the fence; while it is closed they are recorded and refused.  Releasing it opens it,
    unless an effect was attempted, and then runs the callbacks registered meanwhile, outside the lock,
    while effects, releases and registrations go on. */
module StartupFence {
  type Effect = nat        // a nonempty effect name
  type Callback = nat

  /** `taken` are the callbacks a release has taken off the waiting list and not yet run; `passed`,
      `registered` and `ran` record history. */
  datatype Fence = Fence(active: bool, attempts: seq<Effect>, waiting: seq<Callback>, taken: seq<Callback>,
                         passed: seq<Effect>, registered: seq<Callback>, ran: seq<Callback>)

  const CLOSED := Fence(true, [], [], [], [], [], [])

  datatype Action = Require(effect: Effect) | Release | Register(callback: Callback) | RunNext

  predicate Refuses(f: Fence, a: Action) { (a.Require? && f.active) || (a.Release? && f.attempts != []) }

  function Apply(f: Fence, a: Action): Fence {
    match a
    case Require(effect) =>
      if f.active then f.(attempts := f.attempts + [effect]) else f.(passed := f.passed + [effect])
    case Release =>
      if f.attempts != [] || !f.active then f else f.(active := false, taken := f.taken + f.waiting, waiting := [])
    case Register(callback) =>
      if f.active then f.(waiting := f.waiting + [callback], registered := f.registered + [callback])
      else f.(registered := f.registered + [callback], ran := f.ran + [callback])
    case RunNext =>
      if f.taken == [] then f else f.(taken := f.taken[1..], ran := f.ran + [f.taken[0]])
  }

  function After(f: Fence, run: seq<Action>): Fence
    decreases |run|
  {
    if run == [] then f else After(Apply(f, run[0]), run[1..])
  }

  // Closed: nothing got through and no callback moved.  Open: nothing was ever refused.
  predicate SidesOk(f: Fence) {
    match f
    case Fence(active, attempts, waiting, taken, passed, _, ran) =>
      if active then passed == [] && ran == [] && taken == [] else attempts == [] && waiting == []
  }

  ghost predicate Conserves(f: Fence) {
    multiset(f.registered) == multiset(f.waiting) + multiset(f.taken) + multiset(f.ran)
  }

  lemma StepInv(f: Fence, a: Action)
    requires SidesOk(f) && Conserves(f)
    ensures SidesOk(Apply(f, a)) && Conserves(Apply(f, a))
  {
    if a.RunNext? && f.taken != [] { assert f.taken == [f.taken[0]] + f.taken[1..]; }
  }

  lemma {:induction false} RunInv(f: Fence, run: seq<Action>)
    requires SidesOk(f) && Conserves(f)
    ensures SidesOk(After(f, run)) && Conserves(After(f, run))
    decreases |run|
  {
    if run != [] {
      StepInv(f, run[0]);
      RunInv(Apply(f, run[0]), run[1..]);
    }
  }

  /** In every run no effect passes and no callback runs before the fence opens, and a fence that opened
      had refused nothing. */
  lemma NothingPassesEarly(run: seq<Action>)
    ensures var f := After(CLOSED, run);
      if f.active then f.passed == [] && f.ran == [] else f.attempts == []
  {
    RunInv(CLOSED, run);
  }

  /** After one refused effect the fence stays closed for good. */
  lemma {:induction false} OneAttemptClosesForGood(f: Fence, run: seq<Action>)
    requires f.active && f.attempts != []
    ensures After(f, run).active && After(f, run).attempts != [] && After(f, run).passed == f.passed
    decreases |run|
  {
    if run != [] { OneAttemptClosesForGood(Apply(f, run[0]), run[1..]); }
  }

  /** Once the fence is open and the release has run what it took, every callback has run exactly as often
      as it was registered, whether before or after the opening. */
  lemma CallbacksRunOnce(run: seq<Action>)
    ensures var f := After(CLOSED, run);
      !f.active && f.taken == [] ==> multiset(f.ran) == multiset(f.registered)
  {
    RunInv(CLOSED, run);
  }

  class StartupEffectFence {
    var active: bool
    var attempts: seq<Effect>
    var waiting: seq<Callback>
    ghost var passed: seq<Effect>
    ghost var registered: seq<Callback>
    ghost var ran: seq<Callback>

    constructor ()
      ensures Value([]) == CLOSED
    {
      active, attempts, waiting, passed, registered, ran := true, [], [], [], [], [];
    }

    // The fence, with the callbacks some release still holds.
    ghost function Value(taken: seq<Callback>): Fence
      reads this
    {
      Fence(active, attempts, waiting, taken, passed, registered, ran)
    }

    method RequireOpen(effect: Effect) returns (open: bool)
      modifies this
      ensures open == !Refuses(old(Value([])), Require(effect))
      ensures Value([]) == Apply(old(Value([])), Require(effect))
    {
      if !active {
        passed := passed + [effect];
        return true;
      }
      attempts := attempts + [effect];
      return false;
    }

    // The locked half of a release; its callbacks are then run one by one.
    method BeginRelease() returns (ok: bool, taken: seq<Callback>)
      modifies this
      ensures ok == !Refuses(old(Value([])), Release)
      ensures Value(taken) == Apply(old(Value([])), Release)
    {
      if attempts != [] { return false, []; }
      if !active { return true, []; }
      active := false;
      taken := waiting;
      waiting := [];
      return true, taken;
    }

    // Registers a callback, and says whether it must be run at once.
    method OnRelease(callback: Callback) returns (now: bool)
      modifies this
      ensures now == !old(active)
      ensures Value([]) == Apply(old(Value([])), Register(callback))
    {
      registered := registered + [callback];
      if active {
        waiting := waiting + [callback];
        return false;
      }
      ran := ran + [callback];
      return true;
    }
  }
}
