/** The gates of an Experiment on the project graph (src/rcp/control.py).

    An Experiment may run when its governing decisions are decided, no pending proposal would change
    them, and no blocker is open.  The same facts are projected as dependencies, decided choices are
    pinned as a bundle, and drift reports the pins that no longer hold.  Identities are compared only
    by their order, as text is. */
module ExperimentControl {
  import opened Options

  type NodeId = nat
  type Choice = nat

  const NO_CHOICE: Choice := 0         // the empty string: present, but false

  datatype DecisionStatus = Decided | NotDecided(status: nat)
  datatype BlockerStatus = Open | NotOpen(status: nat)

  datatype Node =
    | Experiment
    | Decision(id: NodeId, status: DecisionStatus, option: Option<Choice>, rev: nat)
    | Blocker(id: NodeId, block: BlockerStatus)
    | OtherNode

  datatype Relation = GovernedBy | BlockedBy | OtherRelation
  datatype Edge = Edge(source: NodeId, target: NodeId, relation: Relation)

  datatype Operation =
    | ChangeContent(nodes: seq<NodeId>)
    | ChangeStatus(nodes: seq<NodeId>)
    | Supersede(pairs: seq<(NodeId, Option<NodeId>)>)
    | Merge(merges: seq<(NodeId, NodeId)>)
    | OtherOperation

  datatype Proposal = Proposal(pending: bool, ops: seq<Operation>)
  datatype Graph = Graph(nodes: map<NodeId, Node>, edges: seq<Edge>, proposals: seq<Proposal>)

  // ---- Related targets ------------------------------------------------------------------

  predicate IsLeast(s: set<NodeId>, x: NodeId) { x in s && forall y :: y in s ==> x <= y }

  lemma {:induction false} HasLeast(s: set<NodeId>)
    requires s != {}
    ensures exists x :: x in s && IsLeast(s, x)
    decreases |s|
  {
    var some :| some in s;
    if s == {some} {
      assert IsLeast(s, some);
    } else {
      var rest := s - {some};
      assert rest != {};
      HasLeast(rest);
      var least :| least in rest && IsLeast(rest, least);
      var m := if some < least then some else least;
      forall y | y in s ensures m <= y {
        if y != some { assert y in rest; }
      }
      assert IsLeast(s, m);
    }
  }

  function Least(s: set<NodeId>): (least: NodeId)
    requires s != {}
    ensures IsLeast(s, least)
  {
    HasLeast(s);
    var least :| least in s && IsLeast(s, least);
    least
  }

  function InOrder(s: set<NodeId>): seq<NodeId>
    decreases |s|
  {
    if s == {} then [] else [Least(s)] + InOrder(s - {Least(s)})
  }

  predicate Ascending(xs: seq<NodeId>) { forall i, j :: 0 <= i < j < |xs| ==> xs[i] < xs[j] }

  lemma {:induction false} InOrderIsTheSet(s: set<NodeId>)
    ensures Ascending(InOrder(s))
    ensures forall x :: x in InOrder(s) <==> x in s
    decreases |s|
  {
    if s != {} {
      var least, rest := Least(s), s - {Least(s)};
      var tail, all := InOrder(rest), InOrder(s);
      InOrderIsTheSet(rest);
      assert all == [least] + tail;
      forall i, j | 0 <= i < j < |all| ensures all[i] < all[j] {
        assert all[j] == tail[j - 1] && tail[j - 1] in tail;
        if i > 0 { assert all[i] == tail[i - 1]; }
      }
    }
  }

  function Targets(g: Graph, source: NodeId, relation: Relation): set<NodeId> {
    set i | 0 <= i < |g.edges| && g.edges[i].source == source && g.edges[i].relation == relation :: g.edges[i].target
  }

  function RelatedTargets(g: Graph, source: NodeId, relation: Relation): seq<NodeId> {
    InOrder(Targets(g, source, relation))
  }

  /** The related targets are listed once each, in order, and are exactly the targets of some edge. */
  lemma RelatedTargetsExactly(g: Graph, source: NodeId, relation: Relation)
    ensures Ascending(RelatedTargets(g, source, relation))
    ensures forall t :: t in RelatedTargets(g, source, relation) <==> Edge(source, t, relation) in g.edges
  {
    InOrderIsTheSet(Targets(g, source, relation));
    forall t | Edge(source, t, relation) in g.edges ensures t in Targets(g, source, relation) {
      var i :| 0 <= i < |g.edges| && g.edges[i] == Edge(source, t, relation);
      assert g.edges[i].target == t;
    }
  }

  /** The order and repetition of edges do not matter. */
  lemma EdgeOrderDoesNotMatter(g: Graph, h: Graph, source: NodeId, relation: Relation)
    requires forall e :: e in g.edges <==> e in h.edges
    ensures RelatedTargets(g, source, relation) == RelatedTargets(h, source, relation)
  {
    var a, b := Targets(g, source, relation), Targets(h, source, relation);
    forall t ensures t in a <==> t in b {
      RelatedTargetsExactly(g, source, relation);
      RelatedTargetsExactly(h, source, relation);
      InOrderIsTheSet(a);
      InOrderIsTheSet(b);
    }
    assert a == b;
  }

  // ---- Pending proposals ----------------------------------------------------------------

  predicate OpChanges(op: Operation, id: NodeId) {
    match op
    case ChangeContent(nodes) => id in nodes
    case ChangeStatus(nodes) => id in nodes
    case Supersede(pairs) => exists i :: 0 <= i < |pairs| && (pairs[i].0 == id || pairs[i].1 == Some(id))
    case Merge(merges) => exists i :: 0 <= i < |merges| && (merges[i].0 == id || merges[i].1 == id)
    case OtherOperation => false
  }

  predicate Changes(p: Proposal, id: NodeId) { exists i :: 0 <= i < |p.ops| && OpChanges(p.ops[i], id) }

  predicate HasPending(g: Graph, id: NodeId) {
    exists i :: 0 <= i < |g.proposals| && g.proposals[i].pending && Changes(g.proposals[i], id)
  }

  // ---- Gate reasons ---------------------------------------------------------------------

  datatype Reason =
    | DecisionMissing(id: NodeId) | Undecided(id: NodeId) | PendingProposal(id: NodeId)
    | BlockerMissing(id: NodeId) | BlockerOpen(id: NodeId)

  predicate IsDecision(g: Graph, id: NodeId) { id in g.nodes && g.nodes[id].Decision? }
  predicate IsBlocker(g: Graph, id: NodeId) { id in g.nodes && g.nodes[id].Blocker? }
  predicate IsExperiment(g: Graph, id: NodeId) { id in g.nodes && g.nodes[id].Experiment? }

  predicate Chosen(option: Option<Choice>) { option.Some? && option.value != NO_CHOICE }

  // The facts control consumes, as the projection states them.
  datatype DecisionFact = DecisionFact(id: NodeId, status: Option<DecisionStatus>, option: Option<Choice>, pending: bool)
  datatype BlockerFact = BlockerFact(id: NodeId, status: Option<BlockerStatus>)
  datatype Dependencies = Dependencies(reasons: seq<Reason>, decisions: seq<DecisionFact>, blockers: seq<BlockerFact>)

  function FactOf(g: Graph, id: NodeId): DecisionFact {
    if IsDecision(g, id) then DecisionFact(id, Some(g.nodes[id].status), g.nodes[id].option, HasPending(g, id))
    else DecisionFact(id, None, None, HasPending(g, id))
  }

  function BlockFactOf(g: Graph, id: NodeId): BlockerFact {
    BlockerFact(id, if IsBlocker(g, id) then Some(g.nodes[id].block) else None)
  }

  function DecisionFacts(g: Graph, e: NodeId): seq<DecisionFact> {
    var ids := RelatedTargets(g, e, GovernedBy);
    seq(|ids|, i requires 0 <= i < |ids| => FactOf(g, ids[i]))
  }

  function BlockerFacts(g: Graph, e: NodeId): seq<BlockerFact> {
    var ids := RelatedTargets(g, e, BlockedBy);
    seq(|ids|, i requires 0 <= i < |ids| => BlockFactOf(g, ids[i]))
  }

  // What one projected fact says against running.
  function DecisionReasons(f: DecisionFact): seq<Reason> {
    (if f.status.None? then [DecisionMissing(f.id)]
     else if f.status != Some(Decided) || !Chosen(f.option) then [Undecided(f.id)]
     else [])
    + if f.pending then [PendingProposal(f.id)] else []
  }

  function BlockerReasons(f: BlockerFact): seq<Reason> {
    if f.status.None? then [BlockerMissing(f.id)]
    else if f.status.value.Open? then [BlockerOpen(f.id)]
    else []
  }

  function AllDecisionReasons(fs: seq<DecisionFact>): seq<Reason> {
    if fs == [] then [] else AllDecisionReasons(fs[..|fs| - 1]) + DecisionReasons(fs[|fs| - 1])
  }

  function AllBlockerReasons(fs: seq<BlockerFact>): seq<Reason> {
    if fs == [] then [] else AllBlockerReasons(fs[..|fs| - 1]) + BlockerReasons(fs[|fs| - 1])
  }

  // The gate reasons, computed from the projected facts alone.
  function GateReasons(decisions: seq<DecisionFact>, blockers: seq<BlockerFact>): seq<Reason> {
    AllDecisionReasons(decisions) + AllBlockerReasons(blockers)
  }

  // What one related node of the graph says against running.
  function GoverningReason(g: Graph, id: NodeId): seq<Reason> {
    (if !IsDecision(g, id) then [DecisionMissing(id)]
     else if g.nodes[id].status != Decided || !Chosen(g.nodes[id].option) then [Undecided(id)]
     else [])
    + if HasPending(g, id) then [PendingProposal(id)] else []
  }

  function BlockingReason(g: Graph, id: NodeId): seq<Reason> {
    if !IsBlocker(g, id) then [BlockerMissing(id)] else if g.nodes[id].block.Open? then [BlockerOpen(id)] else []
  }

  function GoverningReasons(g: Graph, ids: seq<NodeId>): seq<Reason> {
    if ids == [] then [] else GoverningReasons(g, ids[..|ids| - 1]) + GoverningReason(g, ids[|ids| - 1])
  }

  function BlockingReasons(g: Graph, ids: seq<NodeId>): seq<Reason> {
    if ids == [] then [] else BlockingReasons(g, ids[..|ids| - 1]) + BlockingReason(g, ids[|ids| - 1])
  }

  // The gate reasons, read off the graph's nodes.
  function GraphReasons(g: Graph, e: NodeId): seq<Reason> {
    GoverningReasons(g, RelatedTargets(g, e, GovernedBy)) + BlockingReasons(g, RelatedTargets(g, e, BlockedBy))
  }

  // None when the node is no Experiment.
  method PreconditionReasons(g: Graph, e: NodeId) returns (reasons: Option<seq<Reason>>)
    ensures reasons == if IsExperiment(g, e) then Some(GraphReasons(g, e)) else None
  {
    if e !in g.nodes || !g.nodes[e].Experiment? { return None; }
    var found: seq<Reason> := [];
    var ids := RelatedTargets(g, e, GovernedBy);
    for i := 0 to |ids|
      invariant found == GoverningReasons(g, ids[..i])
    {
      assert ids[..i + 1][..i] == ids[..i];
      if ids[i] !in g.nodes || !g.nodes[ids[i]].Decision? {
        found := found + [DecisionMissing(ids[i])];
      } else if g.nodes[ids[i]].status != Decided || !Chosen(g.nodes[ids[i]].option) {
        found := found + [Undecided(ids[i])];
      }
      if HasPending(g, ids[i]) { found := found + [PendingProposal(ids[i])]; }
    }
    assert ids[..|ids|] == ids;
    ghost var governing := found;
    var blockers := RelatedTargets(g, e, BlockedBy);
    for i := 0 to |blockers|
      invariant found == governing + BlockingReasons(g, blockers[..i])
    {
      assert blockers[..i + 1][..i] == blockers[..i];
      if blockers[i] !in g.nodes || !g.nodes[blockers[i]].Blocker? {
        found := found + [BlockerMissing(blockers[i])];
      } else if g.nodes[blockers[i]].block == Open {
        found := found + [BlockerOpen(blockers[i])];
      }
    }
    assert blockers[..|blockers|] == blockers;
    return Some(found);
  }

  lemma {:induction false} GoverningFromFacts(g: Graph, ids: seq<NodeId>, facts: seq<DecisionFact>)
    requires |facts| == |ids| && forall i :: 0 <= i < |ids| ==> facts[i] == FactOf(g, ids[i])
    ensures GoverningReasons(g, ids) == AllDecisionReasons(facts)
  {
    if ids != [] { GoverningFromFacts(g, ids[..|ids| - 1], facts[..|ids| - 1]); }
  }

  lemma {:induction false} BlockingFromFacts(g: Graph, ids: seq<NodeId>, facts: seq<BlockerFact>)
    requires |facts| == |ids| && forall i :: 0 <= i < |ids| ==> facts[i] == BlockFactOf(g, ids[i])
    ensures BlockingReasons(g, ids) == AllBlockerReasons(facts)
  {
    if ids != [] { BlockingFromFacts(g, ids[..|ids| - 1], facts[..|ids| - 1]); }
  }

  /** The gates consume nothing but the projection: the reasons read off the graph are the ones computed
      from the projected facts. */
  lemma ReasonsComeFromFacts(g: Graph, e: NodeId)
    ensures GraphReasons(g, e) == GateReasons(DecisionFacts(g, e), BlockerFacts(g, e))
  {
    GoverningFromFacts(g, RelatedTargets(g, e, GovernedBy), DecisionFacts(g, e));
    BlockingFromFacts(g, RelatedTargets(g, e, BlockedBy), BlockerFacts(g, e));
  }

  function Projection(g: Graph, e: NodeId): Dependencies {
    Dependencies(GraphReasons(g, e), DecisionFacts(g, e), BlockerFacts(g, e))
  }

  method ControlDependencies(g: Graph, e: NodeId) returns (deps: Option<Dependencies>)
    ensures deps == if IsExperiment(g, e) then Some(Projection(g, e)) else None
  {
    var reasons := PreconditionReasons(g, e);
    if reasons.None? { return None; }
    var decisions: seq<DecisionFact> := [];
    var ids := RelatedTargets(g, e, GovernedBy);
    for i := 0 to |ids|
      invariant decisions == DecisionFacts(g, e)[..i]
    {
      decisions := decisions + [FactOf(g, ids[i])];
    }
    assert decisions == DecisionFacts(g, e);
    var blockers: seq<BlockerFact> := [];
    var blocks := RelatedTargets(g, e, BlockedBy);
    for i := 0 to |blocks|
      invariant blockers == BlockerFacts(g, e)[..i]
    {
      blockers := blockers + [BlockFactOf(g, blocks[i])];
    }
    assert blockers == BlockerFacts(g, e);
    return Some(Dependencies(reasons.value, decisions, blockers));
  }

  /** The projection is complete: graphs with equal governing-decision and blocker facts have equal gate
      reasons, whatever else differs, their edge and node order included. */
  lemma EqualFactsEqualReasons(g: Graph, h: Graph, e: NodeId)
    requires DecisionFacts(g, e) == DecisionFacts(h, e) && BlockerFacts(g, e) == BlockerFacts(h, e)
    ensures GraphReasons(g, e) == GraphReasons(h, e)
  {
    ReasonsComeFromFacts(g, e);
    ReasonsComeFromFacts(h, e);
  }

  // No governing decision, and no blocker, stands against running.
  predicate Settled(g: Graph, d: NodeId) {
    IsDecision(g, d) && g.nodes[d].status == Decided && Chosen(g.nodes[d].option) && !HasPending(g, d)
  }

  predicate Cleared(g: Graph, b: NodeId) { IsBlocker(g, b) && g.nodes[b].block != Open }

  ghost predicate Ungated(g: Graph, e: NodeId) {
    && (forall d :: Edge(e, d, GovernedBy) in g.edges ==> Settled(g, d))
    && (forall b :: Edge(e, b, BlockedBy) in g.edges ==> Cleared(g, b))
  }

  predicate AllSettled(g: Graph, ids: seq<NodeId>) { forall i :: 0 <= i < |ids| ==> Settled(g, ids[i]) }
  predicate AllCleared(g: Graph, ids: seq<NodeId>) { forall i :: 0 <= i < |ids| ==> Cleared(g, ids[i]) }

  lemma {:induction false} NoGoverningReason(g: Graph, ids: seq<NodeId>)
    ensures GoverningReasons(g, ids) == [] <==> AllSettled(g, ids)
  {
    if ids != [] {
      var front, last := ids[..|ids| - 1], ids[|ids| - 1];
      NoGoverningReason(g, front);
      assert GoverningReason(g, last) == [] <==> Settled(g, last);
      assert AllSettled(g, ids) <==> AllSettled(g, front) && Settled(g, last) by {
        assert forall i :: 0 <= i < |front| ==> front[i] == ids[i];
      }
    }
  }

  lemma {:induction false} NoBlockingReason(g: Graph, ids: seq<NodeId>)
    ensures BlockingReasons(g, ids) == [] <==> AllCleared(g, ids)
  {
    if ids != [] {
      var front, last := ids[..|ids| - 1], ids[|ids| - 1];
      NoBlockingReason(g, front);
      assert BlockingReason(g, last) == [] <==> Cleared(g, last);
      assert AllCleared(g, ids) <==> AllCleared(g, front) && Cleared(g, last) by {
        assert forall i :: 0 <= i < |front| ==> front[i] == ids[i];
      }
    }
  }

  /** An Experiment is ready exactly when every decision that governs it is decided, chosen and free of
      pending proposals, and every blocker on it exists and is not open. */
  lemma ReadyExactly(g: Graph, e: NodeId)
    ensures GraphReasons(g, e) == [] <==> Ungated(g, e)
  {
    var decisions, blockers := RelatedTargets(g, e, GovernedBy), RelatedTargets(g, e, BlockedBy);
    RelatedTargetsExactly(g, e, GovernedBy);
    RelatedTargetsExactly(g, e, BlockedBy);
    NoGoverningReason(g, decisions);
    NoBlockingReason(g, blockers);
    assert AllSettled(g, decisions) <==> forall d :: d in decisions ==> Settled(g, d);
    assert AllCleared(g, blockers) <==> forall b :: b in blockers ==> Cleared(g, b);
  }

  // ---- Pins and drift ---------------------------------------------------------------------

  datatype Pin = Pin(id: NodeId, rev: nat, option: Choice)
  datatype Drift = Drift(id: NodeId, option: Choice, rev: nat, nowOption: Option<Choice>, nowStatus: Option<DecisionStatus>)

  // The decision of a pin is still decided, with the pinned choice, at the pinned revision.
  predicate Stands(g: Graph, pin: Pin) {
    && IsDecision(g, pin.id) && g.nodes[pin.id].status == Decided
    && g.nodes[pin.id].option == Some(pin.option) && g.nodes[pin.id].rev == pin.rev
  }

  function DriftOf(g: Graph, pin: Pin): Drift {
    if IsDecision(g, pin.id) then Drift(pin.id, pin.option, pin.rev, g.nodes[pin.id].option, Some(g.nodes[pin.id].status))
    else Drift(pin.id, pin.option, pin.rev, None, None)
  }

  function Drifts(g: Graph, pins: seq<Pin>): seq<Drift> {
    if pins == [] then []
    else
      var pin := pins[|pins| - 1];
      Drifts(g, pins[..|pins| - 1]) + if Stands(g, pin) then [] else [DriftOf(g, pin)]
  }

  method DecisionDrift(g: Graph, pins: seq<Pin>) returns (drifted: seq<Drift>)
    ensures drifted == Drifts(g, pins)
  {
    drifted := [];
    for i := 0 to |pins|
      invariant drifted == Drifts(g, pins[..i])
    {
      assert pins[..i + 1][..i] == pins[..i];
      var pin := pins[i];
      var decision := if pin.id in g.nodes && g.nodes[pin.id].Decision? then Some(g.nodes[pin.id]) else None;
      if decision.None? {
        drifted := drifted + [Drift(pin.id, pin.option, pin.rev, None, None)];
      } else if decision.value.status != Decided || decision.value.option != Some(pin.option) || decision.value.rev != pin.rev {
        drifted := drifted + [Drift(pin.id, pin.option, pin.rev, decision.value.option, Some(decision.value.status))];
      }
    }
    assert pins[..|pins|] == pins;
  }

  /** Drift reports every pin that no longer stands and no other, so there is none exactly when all
      pins stand. */
  lemma {:induction false} DriftExactly(g: Graph, pins: seq<Pin>)
    ensures forall d :: d in Drifts(g, pins) <==> exists i :: 0 <= i < |pins| && !Stands(g, pins[i]) && DriftOf(g, pins[i]) == d
    ensures Drifts(g, pins) == [] <==> forall i :: 0 <= i < |pins| ==> Stands(g, pins[i])
  {
    if pins != [] {
      var front := pins[..|pins| - 1];
      DriftExactly(g, front);
      assert forall i :: 0 <= i < |front| ==> front[i] == pins[i];
      forall d | d in Drifts(g, pins)
        ensures exists i :: 0 <= i < |pins| && !Stands(g, pins[i]) && DriftOf(g, pins[i]) == d
      {
        if d in Drifts(g, front) {
          var i :| 0 <= i < |front| && !Stands(g, front[i]) && DriftOf(g, front[i]) == d;
          assert !Stands(g, pins[i]) && DriftOf(g, pins[i]) == d;
        }
      }
    }
  }

  predicate Pinned(g: Graph, id: NodeId) { IsDecision(g, id) && g.nodes[id].status == Decided && Chosen(g.nodes[id].option) }

  function PinOf(g: Graph, id: NodeId): Pin
    requires Pinned(g, id)
  {
    Pin(g.nodes[id].id, g.nodes[id].rev, g.nodes[id].option.value)
  }

  function Pins(g: Graph, ids: seq<NodeId>): seq<Pin> {
    if ids == [] then []
    else
      var id := ids[|ids| - 1];
      Pins(g, ids[..|ids| - 1]) + if Pinned(g, id) then [PinOf(g, id)] else []
  }

  method GoverningDecisionBundle(g: Graph, e: NodeId) returns (bundle: seq<Pin>)
    ensures bundle == Pins(g, RelatedTargets(g, e, GovernedBy))
  {
    bundle := [];
    var ids := RelatedTargets(g, e, GovernedBy);
    for i := 0 to |ids|
      invariant bundle == Pins(g, ids[..i])
    {
      assert ids[..i + 1][..i] == ids[..i];
      if ids[i] in g.nodes && g.nodes[ids[i]].Decision? {
        var node := g.nodes[ids[i]];
        if node.status == Decided && Chosen(node.option) {
          bundle := bundle + [Pin(node.id, node.rev, node.option.value)];
        }
      }
    }
    assert ids[..|ids|] == ids;
  }

  // Every decision is stored under its own identity.
  predicate WellKeyed(g: Graph) { forall k :: k in g.nodes && g.nodes[k].Decision? ==> g.nodes[k].id == k }

  predicate AllStand(g: Graph, pins: seq<Pin>) { forall i :: 0 <= i < |pins| ==> Stands(g, pins[i]) }

  lemma StandAppends(g: Graph, pins: seq<Pin>, pin: Pin)
    ensures AllStand(g, pins + [pin]) <==> AllStand(g, pins) && Stands(g, pin)
  {
    if AllStand(g, pins + [pin]) {
      assert Stands(g, (pins + [pin])[|pins|]);
      forall i | 0 <= i < |pins| ensures Stands(g, pins[i]) { assert (pins + [pin])[i] == pins[i]; }
    }
  }

  predicate FoundAgain(g: Graph, ids: seq<NodeId>) {
    forall id :: id in ids && Pinned(g, id) ==> Stands(g, PinOf(g, id))
  }

  lemma {:induction false} PinsOfStand(g: Graph, ids: seq<NodeId>)
    ensures AllStand(g, Pins(g, ids)) <==> FoundAgain(g, ids)
  {
    if ids != [] {
      var front, last := ids[..|ids| - 1], ids[|ids| - 1];
      PinsOfStand(g, front);
      assert ids == front + [last];
      assert FoundAgain(g, ids) <==> FoundAgain(g, front) && (Pinned(g, last) ==> Stands(g, PinOf(g, last)));
      if Pinned(g, last) {
        StandAppends(g, Pins(g, front), PinOf(g, last));
        assert Pins(g, ids) == Pins(g, front) + [PinOf(g, last)];
      } else {
        assert Pins(g, ids) == Pins(g, front);
      }
    }
  }

  // Another decision is kept under the identity that `d` carries, and is decided alike.
  predicate HasTwin(g: Graph, d: NodeId)
    requires Pinned(g, d)
  {
    var other := g.nodes[d].id;
    && other != d && IsDecision(g, other) && g.nodes[other].status == Decided
    && g.nodes[other].option == g.nodes[d].option && g.nodes[other].rev == g.nodes[d].rev
  }

  lemma PinStands(g: Graph, d: NodeId)
    requires Pinned(g, d)
    ensures Stands(g, PinOf(g, d)) <==> g.nodes[d].id == d || HasTwin(g, d)
  {
  }

  /** A bundle shows no drift against the graph it was pinned from exactly when each decided choice it
      pins is kept under its own identity or has a twin there, decided for the same option at the same
      revision; a well-keyed graph is such a graph. */
  lemma FreshBundleStands(g: Graph, e: NodeId)
    ensures Drifts(g, Pins(g, RelatedTargets(g, e, GovernedBy))) == []
      <==> forall d :: Edge(e, d, GovernedBy) in g.edges && Pinned(g, d) ==> g.nodes[d].id == d || HasTwin(g, d)
    ensures WellKeyed(g) ==> Drifts(g, Pins(g, RelatedTargets(g, e, GovernedBy))) == []
  {
    var ids := RelatedTargets(g, e, GovernedBy);
    RelatedTargetsExactly(g, e, GovernedBy);
    PinsOfStand(g, ids);
    DriftExactly(g, Pins(g, ids));
    forall d | Pinned(g, d) ensures Stands(g, PinOf(g, d)) <==> g.nodes[d].id == d || HasTwin(g, d) {
      PinStands(g, d);
    }
  }

  /** A graph that keeps a decision under another's identity shows drift at once. */
  lemma MisKeyedGraphDrifts(e: NodeId, d: NodeId, other: NodeId)
    requires e != d && d != other && e != other
    ensures var g := Graph(map[e := Experiment, d := Decision(other, Decided, Some(1), 4)], [Edge(e, d, GovernedBy)], []);
      Drifts(g, Pins(g, RelatedTargets(g, e, GovernedBy))) != []
  {
    var g := Graph(map[e := Experiment, d := Decision(other, Decided, Some(1), 4)], [Edge(e, d, GovernedBy)], []);
    FreshBundleStands(g, e);
    assert Edge(e, d, GovernedBy) in g.edges && Pinned(g, d) && g.nodes[d].id == other && !HasTwin(g, d);
  }
}
