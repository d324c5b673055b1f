/** Display-snapshot commits of a project (src/rcp/projects.py, `commit_cached_snapshot` and its
    neighbours).

    Builders reserve a generation, build a snapshot outside the lock, and offer it.  The offer is
    dropped when a newer revision, or a later-reserved view of the same revision, already won.  Each
    reserve, read and commit runs under the project's snapshot lock and is one step; any number of
    builders and freshness-only updates interleave. */
module Snapshots {
  import opened Options

  type Project = nat
  type Generation = nat
  type BuilderId = nat
  type Body = nat              // everything in a snapshot but its revision and freshness

  datatype Freshness = Fresh | Reconciling | Stale
  datatype Snapshot = Snapshot(revision: nat, freshness: Freshness, body: Body)

  /** What the catalog holds for one project: reserved and committed generation counters, the record's
      revision, and the cache file.  `builtBy` records the generation that built the cached snapshot. */
  datatype View = View(reserved: Generation, committed: Generation, record: Option<nat>, cache: Option<Snapshot>,
                       builtBy: Generation)

  const UNKNOWN := View(0, 0, None, None, 0)

  // How writing the cache and then the record's summary goes.
  datatype Write = Written | NotWritten | Torn | NoSummary

  datatype Verdict = InvalidGeneration | Superseded | Committed | Failed

  function Later(a: Option<nat>, b: Option<nat>): Option<nat> {
    if a.None? then b else if b.None? then a else if a.value < b.value then b else a
  }

  function CachedRevision(v: View): Option<nat> { if v.cache.Some? then Some(v.cache.value.revision) else None }

  function Persisted(v: View): Option<nat> { Later(v.record, CachedRevision(v)) }

  predicate Wins(v: View, revision: nat, g: Generation) {
    Persisted(v).Some? ==> Persisted(v).value < revision || (Persisted(v).value == revision && v.committed <= g)
  }

  function Max(a: nat, b: nat): nat { if a < b then b else a }

  function CommitStep(v: View, g: Generation, snap: Snapshot, write: Write): (View, Verdict) {
    if g < 1 || g > v.reserved then (v, InvalidGeneration)
    else if !Wins(v, snap.revision, g) then (v, Superseded)
    else match write
      case NotWritten => (v, Failed)
      case Torn => (v.(cache := Some(snap), builtBy := g), Failed)     // replaced, then the sync failed
      case NoSummary => (v.(cache := Some(snap), builtBy := g, committed := Max(g, v.committed)), Failed)
      case Written =>
        (v.(cache := Some(snap), builtBy := g, committed := Max(g, v.committed), record := Some(snap.revision)), Committed)
  }

  function ReserveStep(v: View): View { v.(reserved := v.reserved + 1) }

  // ---- All interleavings ----------------------------------------------------------------

  datatype Stage = Building | HasRead | Offered
  datatype Builder = Builder(gen: Generation, stage: Stage, seen: Option<Snapshot>, seenBy: Generation)

  /** `tried` are the revisions of the offers that reached the guards and whose write, if it came to
      one, replaced the cache; `kept` the generations entered as committed, in order. */
  datatype System = System(view: View, builders: map<BuilderId, Builder>, tried: seq<nat>, kept: seq<Generation>)

  datatype Action =
    | Reserve(b: BuilderId)
    | Read(b: BuilderId)                               // a freshness-only update reads the cache again
    | Offer(b: BuilderId, snap: Snapshot, write: Write)
    | Refresh(b: BuilderId, freshness: Freshness, write: Write)

  predicate At(s: System, b: BuilderId, stage: Stage) { b in s.builders && s.builders[b].stage == stage }

  predicate Enabled(s: System, a: Action) {
    match a
    case Reserve(b) => b !in s.builders
    case Read(b) => At(s, b, Building) && s.view.cache.Some?
    case Offer(b, _, _) => At(s, b, Building)
    case Refresh(b, _, _) => At(s, b, HasRead) && s.builders[b].seen.Some?
  }

  function Offering(s: System, a: Action): Snapshot
    requires Enabled(s, a) && (a.Offer? || a.Refresh?)
  {
    if a.Offer? then a.snap else s.builders[a.b].seen.value.(freshness := a.freshness)
  }

  predicate Counts(verdict: Verdict, write: Write) {
    verdict.Superseded? || verdict.Committed? || (verdict.Failed? && !write.NotWritten?)
  }

  predicate Recorded(verdict: Verdict, write: Write) { verdict.Committed? || (verdict.Failed? && write.NoSummary?) }

  function Apply(s: System, a: Action): System
    requires Enabled(s, a)
  {
    match a
    case Reserve(b) =>
      s.(view := ReserveStep(s.view), builders := s.builders[b := Builder(s.view.reserved + 1, Building, None, 0)])
    case Read(b) =>
      s.(builders := s.builders[b := s.builders[b].(stage := HasRead, seen := s.view.cache, seenBy := s.view.builtBy)])
    case _ =>
      var snap, g := Offering(s, a), s.builders[a.b].gen;
      var (view, verdict) := CommitStep(s.view, g, snap, a.write);
      s.(view := view, builders := s.builders[a.b := s.builders[a.b].(stage := Offered)],
         tried := if Counts(verdict, a.write) then s.tried + [snap.revision] else s.tried,
         kept := if Recorded(verdict, a.write) then s.kept + [g] else s.kept)
  }

  predicate Feasible(s: System, run: seq<Action>)
    decreases |run|
  {
    run != [] ==> Enabled(s, run[0]) && Feasible(Apply(s, run[0]), run[1..])
  }

  function After(s: System, run: seq<Action>): System
    requires Feasible(s, run)
    decreases |run|
  {
    if run == [] then s else After(Apply(s, run[0]), run[1..])
  }

  // A process starts with both counters at zero and whatever record and cache an earlier one left.
  predicate Starting(s: System) {
    && s.view.reserved == 0 && s.view.committed == 0 && s.view.builtBy == 0
    && s.builders == map[] && s.tried == [] && s.kept == []
  }

  // ---- Order of the stored snapshot ------------------------------------------------------

  // Lexicographic order on the cached revision and the generation that built it; no cache is least.
  predicate NotAfter(v: View, w: View) {
    v.cache.Some? ==>
      w.cache.Some? && (v.cache.value.revision < w.cache.value.revision
                        || (v.cache.value.revision == w.cache.value.revision && v.builtBy <= w.builtBy))
  }

  predicate IsOffer(a: Action) { a.Offer? || a.Refresh? }

  predicate Bounded(v: View) { v.committed <= v.reserved && v.builtBy <= v.reserved }

  /** The generation of the cached snapshot counts against later offers: it is committed, or no valid
      generation is earlier, or only a later revision can win anyway. */
  predicate Secure(v: View) {
    || v.cache.None? || v.builtBy <= Max(1, v.committed)
    || (v.record.Some? && v.cache.value.revision < v.record.value)
  }

  /** The stored pair can be taken back by some offer exactly when the cached snapshot's generation does
      not count. */
  lemma SecureExactly(v: View)
    requires Bounded(v)
    ensures (forall g, snap, write :: NotAfter(v, CommitStep(v, g, snap, write).0)) <==> Secure(v)
  {
    if !Secure(v) {
      assert !NotAfter(v, CommitStep(v, Max(1, v.committed), v.cache.value, Written).0);
    }
  }

  // A write that replaces the file and then fails, so that its generation is not entered.
  predicate Loosens(v: View, g: Generation, snap: Snapshot, write: Write) {
    write.Torn? && Max(1, v.committed) < g <= v.reserved && Wins(v, snap.revision, g)
  }

  lemma CommitOrder(v: View, g: Generation, snap: Snapshot, write: Write)
    requires Bounded(v)
    ensures var v' := CommitStep(v, g, snap, write).0;
      && Bounded(v')
      && (Secure(v) ==> NotAfter(v, v') && (Secure(v') <==> !Loosens(v, g, snap, write)))
  {
  }

  predicate LoosenedBy(s: System, a: Action)
    requires Enabled(s, a)
  {
    IsOffer(a) && Loosens(s.view, s.builders[a.b].gen, Offering(s, a), a.write)
  }

  predicate NeverLoosens(s: System, run: seq<Action>)
    requires Feasible(s, run)
    decreases |run|
  {
    run != [] ==> !LoosenedBy(s, run[0]) && NeverLoosens(Apply(s, run[0]), run[1..])
  }

  predicate SecureThroughout(s: System, run: seq<Action>)
    requires Feasible(s, run)
    decreases |run|
  {
    Secure(s.view) && (run != [] ==> SecureThroughout(Apply(s, run[0]), run[1..]))
  }

  lemma {:induction false} RunBounded(s: System, run: seq<Action>)
    requires Bounded(s.view) && Feasible(s, run)
    ensures Bounded(After(s, run).view)
    decreases |run|
  {
    if run != [] {
      var a := run[0];
      if IsOffer(a) { CommitOrder(s.view, s.builders[a.b].gen, Offering(s, a), a.write); }
      RunBounded(Apply(s, a), run[1..]);
    }
  }

  lemma {:induction false} RunSecure(s: System, run: seq<Action>)
    requires Bounded(s.view) && Secure(s.view) && Feasible(s, run)
    ensures SecureThroughout(s, run) <==> NeverLoosens(s, run)
    ensures NeverLoosens(s, run) ==> Secure(After(s, run).view) && NotAfter(s.view, After(s, run).view)
    decreases |run|
  {
    if run != [] {
      var a := run[0];
      if IsOffer(a) { CommitOrder(s.view, s.builders[a.b].gen, Offering(s, a), a.write); }
      if !LoosenedBy(s, a) { RunSecure(Apply(s, a), run[1..]); }
    }
  }

  /** At every moment of every run, torn writes included: no offer can take the stored pair of revision
      and building generation back, if and only if the view is secure. */
  lemma OrderAtEveryMoment(s: System, run: seq<Action>)
    requires Starting(s) && Feasible(s, run)
    ensures var v := After(s, run).view;
      (forall g, snap, write :: NotAfter(v, CommitStep(v, g, snap, write).0)) <==> Secure(v)
  {
    RunBounded(s, run);
    SecureExactly(After(s, run).view);
  }

  /** The view is secure throughout a run exactly when no torn write leaves a generation above the
      committed ones unentered; and then, between any two moments, the stored pair never decreases. */
  lemma StoredPairNeverDecreases(s: System, early: seq<Action>, late: seq<Action>)
    requires Starting(s) && Feasible(s, early) && Feasible(After(s, early), late)
    ensures SecureThroughout(s, early) <==> NeverLoosens(s, early)
    ensures NeverLoosens(s, early) && NeverLoosens(After(s, early), late) ==>
      NotAfter(After(s, early).view, After(After(s, early), late).view)
  {
    RunSecure(s, early);
    RunBounded(s, early);
    if NeverLoosens(s, early) { RunSecure(After(s, early), late); }
  }

  /** Such a torn write is reached in three steps, whatever the process started with, and then the builder
      that reserved first puts its older view of the same revision back. */
  lemma TornWriteBreaksTheOrder(s: System, newer: Snapshot, older: Snapshot)
    requires Starting(s) && Wins(s.view, newer.revision, 2) && older.revision == newer.revision
    ensures var run := [Reserve(0)] + ([Reserve(1)] + ([Offer(1, newer, Torn)] + []));
      && Feasible(s, run) && Enabled(After(s, run), Offer(0, older, Written))
      && !NotAfter(After(s, run).view, Apply(After(s, run), Offer(0, older, Written)).view)
  {
    var s1 := Apply(s, Reserve(0));
    var s2 := Apply(s1, Reserve(1));
    Unfold(s2, Offer(1, newer, Torn), []);
    Unfold(s1, Reserve(1), [Offer(1, newer, Torn)] + []);
    Unfold(s, Reserve(0), [Reserve(1)] + ([Offer(1, newer, Torn)] + []));
  }

  function Latest(start: Option<nat>, tried: seq<nat>): Option<nat> {
    if tried == [] then start else Later(Latest(start, tried[..|tried| - 1]), Some(tried[|tried| - 1]))
  }

  function Highest(gens: seq<Generation>): Generation {
    if gens == [] then 0 else Max(Highest(gens[..|gens| - 1]), gens[|gens| - 1])
  }

  predicate Tallies(s: System, start: Option<nat>) {
    Persisted(s.view) == Latest(start, s.tried) && s.view.committed == Highest(s.kept)
  }

  // What one offer does to the persisted revision and to the committed counter.
  lemma CommitTally(v: View, g: Generation, snap: Snapshot, write: Write)
    ensures var (v', verdict) := CommitStep(v, g, snap, write);
      && Persisted(v') == (if Counts(verdict, write) then Later(Persisted(v), Some(snap.revision)) else Persisted(v))
      && v'.committed == (if Recorded(verdict, write) then Max(v.committed, g) else v.committed)
  {
  }

  lemma Appended(start: Option<nat>, tried: seq<nat>, kept: seq<Generation>, r: nat, g: Generation)
    ensures Latest(start, tried + [r]) == Later(Latest(start, tried), Some(r))
    ensures Highest(kept + [g]) == Max(Highest(kept), g)
  {
    assert (tried + [r])[..|tried|] == tried && (kept + [g])[..|kept|] == kept;
  }

  lemma StepTallies(s: System, a: Action, start: Option<nat>)
    requires Tallies(s, start) && Enabled(s, a)
    ensures Tallies(Apply(s, a), start)
  {
    if IsOffer(a) {
      var snap, g := Offering(s, a), s.builders[a.b].gen;
      CommitTally(s.view, g, snap, a.write);
      Appended(start, s.tried, s.kept, snap.revision, g);
    }
  }

  lemma {:induction false} RunTallies(s: System, run: seq<Action>, start: Option<nat>)
    requires Tallies(s, start) && Feasible(s, run)
    ensures Tallies(After(s, run), start)
    decreases |run|
  {
    if run != [] {
      StepTallies(s, run[0], start);
      RunTallies(Apply(s, run[0]), run[1..], start);
    }
  }

  lemma {:induction false} LatestIsMaximum(start: Option<nat>, tried: seq<nat>)
    ensures forall r :: r in tried ==> Latest(start, tried).Some? && r <= Latest(start, tried).value
    ensures start.Some? ==> Latest(start, tried).Some? && start.value <= Latest(start, tried).value
    ensures Latest(start, tried) == start || (Latest(start, tried).Some? && Latest(start, tried).value in tried)
  {
    if tried != [] {
      var front, last := tried[..|tried| - 1], tried[|tried| - 1];
      LatestIsMaximum(start, front);
      assert tried == front + [last];
      assert forall r :: r in tried <==> r in front || r == last;
      assert Latest(start, tried) == Later(Latest(start, front), Some(last));
    }
  }

  /** The persisted revision of every run is the maximum of the one it started from and the ones
      offered, superseded offers included, in whatever order they arrive. */
  lemma FinalRevisionIsTheMaximum(s: System, run: seq<Action>)
    requires Starting(s) && Feasible(s, run)
    ensures var t := After(s, run);
      var start, last := Persisted(s.view), Persisted(t.view);
      && (forall r :: r in t.tried ==> last.Some? && r <= last.value)
      && (start.Some? ==> last.Some? && start.value <= last.value)
      && (last == start || (last.Some? && last.value in t.tried))
  {
    RunTallies(s, run, Persisted(s.view));
    LatestIsMaximum(Persisted(s.view), After(s, run).tried);
  }

  lemma {:induction false} HighestIsMaximum(gens: seq<Generation>)
    ensures forall g :: g in gens ==> g <= Highest(gens)
    ensures Highest(gens) == 0 || Highest(gens) in gens
  {
    if gens != [] {
      HighestIsMaximum(gens[..|gens| - 1]);
      assert gens == gens[..|gens| - 1] + [gens[|gens| - 1]];
    }
  }

  /** The committed counter is the greatest generation ever committed, not the last. */
  lemma CommittedIsTheMaximum(s: System, run: seq<Action>)
    requires Starting(s) && Feasible(s, run)
    ensures var t := After(s, run);
      && (forall g :: g in t.kept ==> g <= t.view.committed)
      && (t.view.committed == 0 || t.view.committed in t.kept)
  {
    RunTallies(s, run, Persisted(s.view));
    HighestIsMaximum(After(s, run).kept);
  }

  /** The stored pair is not the greatest pair offered: a later generation of a revision loses to a
      generation committed for an earlier revision. */
  lemma NotTheGreatestPair(v: View, first: Body, second: Body, third: Body)
    requires v.reserved >= 5 && v.committed == 0 && Persisted(v).None?
    ensures var one := CommitStep(v, 5, Snapshot(1, Fresh, first), Written).0;
      var two := CommitStep(one, 1, Snapshot(2, Fresh, second), Written).0;
      var (last, verdict) := CommitStep(two, 3, Snapshot(2, Fresh, third), Written);
      verdict == Superseded && last.cache == Some(Snapshot(2, Fresh, second)) && last.builtBy == 1 && last.committed == 5
  {
  }

  // ---- Freshness-only updates ------------------------------------------------------------

  predicate BuilderOk(v: View, x: Builder) {
    && 1 <= x.gen <= v.reserved && x.seenBy <= v.reserved
    && (!x.stage.Offered? ==> x.gen != v.builtBy)
    && (x.stage.HasRead? ==> x.seen.Some? && v.cache.Some? && x.seen.value.revision <= v.cache.value.revision)
    && (x.stage.HasRead? && x.seenBy == v.builtBy ==> x.seen == v.cache)
  }

  // Generations are reserved once, and nobody has read a snapshot of a builder that has not offered.
  predicate Distinct(builders: map<BuilderId, Builder>) {
    && (forall b, c :: b in builders && c in builders && b != c ==> builders[b].gen != builders[c].gen)
    && (forall b, c :: b in builders && c in builders && !builders[b].stage.Offered? && builders[c].stage.HasRead? ==>
         builders[b].gen != builders[c].seenBy)
  }

  predicate Inv(s: System) {
    && s.view.builtBy <= s.view.reserved && Distinct(s.builders)
    && forall b :: b in s.builders ==> BuilderOk(s.view, s.builders[b])
  }

  lemma OfferInv(s: System, a: Action)
    requires Inv(s) && Enabled(s, a) && IsOffer(a)
    ensures Inv(Apply(s, a))
  {
    var s', g := Apply(s, a), s.builders[a.b].gen;
    var snap := Offering(s, a);
    assert BuilderOk(s.view, s.builders[a.b]);
    CommitTally(s.view, g, snap, a.write);
    forall b | b in s'.builders ensures BuilderOk(s'.view, s'.builders[b]) {
      assert BuilderOk(s.view, s.builders[b]);
      if b != a.b { assert s.builders[b].gen != g; }
    }
  }

  lemma StepInv(s: System, a: Action)
    requires Inv(s) && Enabled(s, a)
    ensures Inv(Apply(s, a))
  {
    if IsOffer(a) {
      OfferInv(s, a);
    } else {
      var s' := Apply(s, a);
      forall b | b in s'.builders ensures BuilderOk(s'.view, s'.builders[b]) {
        if b in s.builders { assert BuilderOk(s.view, s.builders[b]); }
      }
      assert Distinct(s'.builders) by {
        forall b | b in s.builders ensures BuilderOk(s.view, s.builders[b]) {
        }
      }
    }
  }

  lemma {:induction false} RunInv(s: System, run: seq<Action>)
    requires Inv(s) && Feasible(s, run)
    ensures Inv(After(s, run))
    decreases |run|
  {
    if run != [] {
      StepInv(s, run[0]);
      RunInv(Apply(s, run[0]), run[1..]);
    }
  }

  /** A freshness-only update that changes the cache in any run finds the revision it read still stored
      and keeps it.  It replaces no later generation of that revision if and only if the generation that
      built the cached snapshot is not above its own; so never, unless a torn write came before.  When the
      stored pair is still the one it read, the freshness is all that changes. */
  lemma FreshnessNeverGoesBack(s: System, run: seq<Action>, b: BuilderId, freshness: Freshness, write: Write)
    requires Starting(s) && Feasible(s, run) && Enabled(After(s, run), Refresh(b, freshness, write))
    ensures var v := After(s, run).view; var x := After(s, run).builders[b];
      var v' := Apply(After(s, run), Refresh(b, freshness, write)).view;
      v' != v ==>
        && Persisted(v') == Persisted(v) == CachedRevision(v) == CachedRevision(v') == Some(x.seen.value.revision)
        && v'.builtBy == x.gen && (NotAfter(v, v') <==> v.builtBy <= x.gen)
        && (NeverLoosens(s, run) ==> v.builtBy <= x.gen)
        && (v.builtBy == x.seenBy ==> v'.cache == Some(v.cache.value.(freshness := freshness)))
  {
    RunInv(s, run);
    RunSecure(s, run);
    var t := After(s, run);
    assert BuilderOk(t.view, t.builders[b]);
    CommitTally(t.view, t.builders[b].gen, Offering(t, Refresh(b, freshness, write)), write);
  }

  /** After a torn write it can: a freshness-only update that reserved first and read before replaces the
      later generation of its revision. */
  lemma TornWriteLetsFreshnessGoBack(s: System, stored: Snapshot, body: Body)
    requires Starting(s) && s.view.cache == Some(stored) && s.view.record == Some(stored.revision)
    ensures var torn := Offer(1, stored.(body := body), Torn);
      var run := [Reserve(0)] + ([Reserve(1)] + ([Read(0)] + ([torn] + [])));
      && Feasible(s, run) && Enabled(After(s, run), Refresh(0, Stale, Written))
      && var v, v' := After(s, run).view, Apply(After(s, run), Refresh(0, Stale, Written)).view;
         (v.builtBy, v'.builtBy, CachedRevision(v')) == (2, 1, CachedRevision(v))
  {
    var torn := Offer(1, stored.(body := body), Torn);
    var s1 := Apply(s, Reserve(0));
    var s2 := Apply(s1, Reserve(1));
    var s3 := Apply(s2, Read(0));
    Unfold(s3, torn, []);
    Unfold(s2, Read(0), [torn] + []);
    Unfold(s1, Reserve(1), [Read(0)] + ([torn] + []));
    Unfold(s, Reserve(0), [Reserve(1)] + ([Read(0)] + ([torn] + [])));
    assert Apply(s3, torn).builders[0] == Builder(1, HasRead, Some(stored), 0);
  }

  lemma Unfold(s: System, a: Action, rest: seq<Action>)
    requires Enabled(s, a) && Feasible(Apply(s, a), rest)
    ensures Feasible(s, [a] + rest) && After(s, [a] + rest) == After(Apply(s, a), rest)
  {
    assert ([a] + rest)[1..] == rest;
  }

  /** When the pair did change in between, a freshness-only update can bring an old body back: it
      reserves after a full rebuild, reads before that rebuild commits, and offers last. */
  lemma LateRefreshRevivesAnOldBody(s: System, stored: Snapshot, body: Body)
    requires Starting(s) && s.view.cache == Some(stored) && s.view.record == Some(stored.revision)
    ensures var rebuild, refresh := Offer(0, stored.(body := body), Written), Refresh(1, Stale, Written);
      var run := [Reserve(0)] + ([Reserve(1)] + ([Read(1)] + ([rebuild] + ([refresh] + []))));
      && Feasible(s, run) && After(s, run).kept == [1, 2]
      && After(s, run).view.cache == Some(stored.(freshness := Stale))
  {
    var rebuild, refresh := Offer(0, stored.(body := body), Written), Refresh(1, Stale, Written);
    var s2 := Apply(Apply(s, Reserve(0)), Reserve(1));
    var s3 := Apply(s2, Read(1));
    var s4 := Apply(s3, rebuild);
    assert s4.view == View(2, 1, Some(stored.revision), Some(stored.(body := body)), 1);
    assert s4.builders[1] == Builder(2, HasRead, Some(stored), 0) && s4.kept == [1];
    Unfold(s4, refresh, []);
    Unfold(s3, rebuild, [refresh] + []);
    Unfold(s2, Read(1), [rebuild] + ([refresh] + []));
    Unfold(Apply(s, Reserve(0)), Reserve(1), [Read(1)] + ([rebuild] + ([refresh] + [])));
    Unfold(s, Reserve(0), [Reserve(1)] + ([Read(1)] + ([rebuild] + ([refresh] + []))));
  }

  // ---- The cache -----------------------------------------------------------------------

  class SnapshotCache {
    var views: map<Project, View>

    constructor ()
      ensures views == map[]
    {
      views := map[];
    }

    function ViewOf(project: Project): View
      reads this
    {
      if project in views then views[project] else UNKNOWN
    }

    method ReserveGeneration(project: Project) returns (generation: Generation)
      modifies this
      ensures views == old(views)[project := ReserveStep(old(ViewOf(project)))]
      ensures generation == ViewOf(project).reserved
    {
      var v := ViewOf(project);
      generation := v.reserved + 1;
      views := views[project := v.(reserved := generation)];
    }

    method Commit(project: Project, snap: Snapshot, generation: Generation, write: Write) returns (verdict: Verdict)
      modifies this
      ensures views == if verdict.InvalidGeneration? || verdict.Superseded? then old(views)
                       else old(views)[project := CommitStep(old(ViewOf(project)), generation, snap, write).0]
      ensures verdict == CommitStep(old(ViewOf(project)), generation, snap, write).1
    {
      var v := ViewOf(project);
      if generation < 1 || generation > v.reserved { return InvalidGeneration; }
      var persisted := Persisted(v);
      if persisted.Some? {
        if snap.revision < persisted.value { return Superseded; }
        if snap.revision == persisted.value && generation < v.committed { return Superseded; }
      }
      if !write.NotWritten? {
        v := v.(cache := Some(snap), builtBy := generation);
        if !write.Torn? {
          v := v.(committed := if v.committed < generation then generation else v.committed);
          if write.Written? { v := v.(record := Some(snap.revision)); }
        }
      }
      views := views[project := v];
      return if write.Written? then Committed else Failed;
    }
  }
}
