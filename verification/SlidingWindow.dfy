/** The sliding-window rate limit used twice by the demo gateway: requests of one session in the
    last minute, and fresh copies of one client in the creation window.  Times are whole ticks of a
    clock.  `granted` is the complete history of grants, which the program does not keep. */
module SlidingWindow {
  // At most `limit` grants in every window.
  datatype Rate = Rate(limit: nat, window: int)

  ghost predicate Ascending(times: seq<int>) {
    forall i, j :: 0 <= i < j < |times| ==> times[i] <= times[j]
  }

  // A grant and the one `limit` places later are at least a window apart.
  ghost predicate Spaced(times: seq<int>, limit: nat, window: int) {
    forall i, j :: 0 <= i < j < |times| && j == i + limit ==> times[i] + window <= times[j]
  }

  // The grants in the half-open interval (t - window, t].
  function InWindow(times: seq<int>, t: int, window: int): (s: set<nat>) {
    set i: nat | i < |times| && t - window < times[i] <= t
  }

  lemma RangeSize(lo: nat, n: nat, s: set<nat>)
    requires forall i :: i in s ==> lo <= i < lo + n
    ensures |s| <= n
  {
    if n == 0 {
      assert s == {};
    } else {
      var top := lo + n - 1;
      RangeSize(lo, n - 1, s - {top});
      assert s <= (s - {top}) + {top};
      assert |s| <= |(s - {top}) + {top}|;
    }
  }

  lemma LeastMember(s: set<nat>) returns (least: nat)
    requires s != {}
    ensures least in s && forall i :: i in s ==> least <= i
    decreases |s|
  {
    var x :| x in s;
    if s == {x} {
      least := x;
    } else {
      assert s - {x} != {};
      var rest := LeastMember(s - {x});
      least := if x < rest then x else rest;
      assert forall i :: i in s ==> i == x || i in s - {x};
    }
  }

  /** Spacing is what the limit means: at every instant, past or present, at most `limit` grants
      lie in the window that ends there. */
  lemma NoWindowExceedsLimit(times: seq<int>, limit: nat, window: int, t: int)
    requires Ascending(times) && Spaced(times, limit, window) && limit > 0
    ensures |InWindow(times, t, window)| <= limit
  {
    var s := InWindow(times, t, window);
    if s != {} {
      var first := LeastMember(s);
      forall i | i in s
        ensures first <= i < first + limit
      {
        var next := first + limit;
        assert next < |times| ==> times[first] + window <= times[next];
      }
      RangeSize(first, limit, s);
    }
  }

  // ---- The queue the program keeps ------------------------------------------------------

  // Drops the leading times that are not after `cutoff`.
  function Prune(recent: seq<int>, cutoff: int): seq<int> {
    if recent == [] || recent[0] > cutoff then recent else Prune(recent[1..], cutoff)
  }

  lemma {:induction false} PruneDropsTheOld(recent: seq<int>, cutoff: int)
    ensures var kept := Prune(recent, cutoff);
      && |kept| <= |recent| && kept == recent[|recent| - |kept|..]
      && (forall i :: 0 <= i < |recent| - |kept| ==> recent[i] <= cutoff)
      && (kept != [] ==> kept[0] > cutoff)
  {
    if recent != [] && recent[0] <= cutoff {
      PruneDropsTheOld(recent[1..], cutoff);
      assert forall i :: 0 < i < |recent| ==> recent[i] == recent[1..][i - 1];
    }
  }

  /** The queue is the tail of the history; what was dropped from it left the window that ended
      at `clock`, the latest time seen. */
  ghost predicate Tracks(recent: seq<int>, granted: seq<int>, clock: int, rate: Rate) {
    match rate
    case Rate(limit, window) =>
      && |recent| <= |granted| && recent == granted[|granted| - |recent|..]
      && |recent| <= limit
      && Ascending(granted) && Spaced(granted, limit, window)
      && (granted != [] ==> granted[|granted| - 1] <= clock)
      && (forall i :: 0 <= i < |granted| - |recent| ==> granted[i] <= clock - window)
  }

  lemma PruneTracks(recent: seq<int>, granted: seq<int>, clock: int, now: int, limit: nat, window: int)
    requires Tracks(recent, granted, clock, Rate(limit, window)) && clock <= now
    ensures Tracks(Prune(recent, now - window), granted, now, Rate(limit, window))
  {
    var kept := Prune(recent, now - window);
    PruneDropsTheOld(recent, now - window);
    var cut := |granted| - |recent|;
    forall i | 0 <= i < |granted| - |kept|
      ensures granted[i] <= now - window
    {
      if i >= cut {
        assert granted[i] == recent[i - cut];
      }
    }
  }

  lemma GrantTracks(recent: seq<int>, granted: seq<int>, now: int, limit: nat, window: int)
    requires Tracks(recent, granted, now, Rate(limit, window)) && |recent| < limit && window > 0
    ensures Tracks(recent + [now], granted + [now], now, Rate(limit, window))
  {
    var after := granted + [now];
    forall i, j | 0 <= i < j < |after| && j == i + limit
      ensures after[i] + window <= after[j]
    {
      if j == |granted| {
        assert i < |granted| - |recent|;
      }
    }
    forall i, j | 0 <= i < j < |after|
      ensures after[i] <= after[j]
    {
      if j == |granted| {
        assert granted[i] <= granted[|granted| - 1];
      }
    }
  }

  // A grant is in the window that ends now exactly when it is in the pruned queue.
  lemma KeptIffInWindow(kept: seq<int>, granted: seq<int>, now: int, limit: nat, window: int, i: nat)
    requires Tracks(kept, granted, now, Rate(limit, window)) && (kept != [] ==> kept[0] > now - window) && i < |granted|
    ensures now - window < granted[i] <= now <==> |granted| - |kept| <= i
  {
    var cut := |granted| - |kept|;
    assert granted[i] <= granted[|granted| - 1] <= now;
    if cut <= i {
      assert kept[0] == granted[cut] && granted[cut] <= granted[i];
    }
  }

  /** The rate check is exact: after pruning, the queue holds precisely the grants of the window
      that ends now, so it refuses if and only if that window is full. */
  lemma QueueIsTheWindow(recent: seq<int>, granted: seq<int>, clock: int, now: int, limit: nat, window: int)
    requires Tracks(recent, granted, clock, Rate(limit, window)) && clock <= now && window > 0
    ensures |Prune(recent, now - window)| == |InWindow(granted, now, window)|
  {
    var kept := Prune(recent, now - window);
    PruneDropsTheOld(recent, now - window);
    PruneTracks(recent, granted, clock, now, limit, window);
    WindowIsTheQueue(kept, granted, now, limit, window);
  }

  lemma WindowIsTheQueue(kept: seq<int>, granted: seq<int>, now: int, limit: nat, window: int)
    requires Tracks(kept, granted, now, Rate(limit, window)) && (kept != [] ==> kept[0] > now - window)
    ensures |InWindow(granted, now, window)| == |kept|
  {
    var cut := |granted| - |kept|;
    forall i: nat | i < |granted|
      ensures i in InWindow(granted, now, window) <==> i in Interval(cut, |granted|)
    {
      KeptIffInWindow(kept, granted, now, limit, window, i);
    }
    assert InWindow(granted, now, window) == Interval(cut, |granted|);
  }

  function Interval(lo: nat, hi: nat): (s: set<nat>)
    requires lo <= hi
    ensures |s| == hi - lo
    ensures forall i :: i in s <==> lo <= i < hi
    decreases hi - lo
  {
    if lo == hi then {} else {lo} + Interval(lo + 1, hi)
  }

  // Whole seconds, rounded towards zero and then up by one, as the refusal advertises them.
  function RetryAfter(remaining: int, second: int): int
    requires second > 0
  {
    var seconds := (if remaining >= 0 then remaining / second else -(-remaining / second)) + 1;
    if seconds < 1 then 1 else seconds
  }

  lemma RetryAfterCovers(remaining: int, second: int)
    requires second > 0
    ensures RetryAfter(remaining, second) >= 1 && RetryAfter(remaining, second) * second >= remaining
  {
  }

  /** A refused caller that waits the advertised delay, with no grant in between, passes the check. */
  lemma RetrySuffices(recent: seq<int>, granted: seq<int>, now: int, later: int, limit: nat, window: int, second: int)
    requires Tracks(recent, granted, now, Rate(limit, window)) && |recent| == limit > 0 && second > 0
    requires later >= now + RetryAfter(recent[0] + window - now, second) * second
    ensures |Prune(recent, later - window)| < limit
  {
    hide RetryAfter, Ascending, Spaced, Prune;
    RetryAfterCovers(recent[0] + window - now, second);
    assert recent[0] <= later - window;
    PruneDropsTheOld(recent, later - window);
  }

  // ... in the history's terms: by then the window is no longer full.
  lemma FullQueueEmpties(recent: seq<int>, granted: seq<int>, now: int, later: int, limit: nat, window: int, second: int)
    requires Tracks(recent, granted, now, Rate(limit, window)) && |recent| >= limit > 0 && second > 0 && window > 0
    requires later >= now + RetryAfter(recent[0] + window - now, second) * second
    ensures |InWindow(granted, later, window)| < limit
  {
    RetryAfterCovers(recent[0] + window - now, second);
    RetrySuffices(recent, granted, now, later, limit, window, second);
    QueueIsTheWindow(recent, granted, now, later, limit, window);
  }
}
