/** Folding an agent's event stream into a task outcome (src/rcp/background.py, `_consume`).

    The accumulators are bounded and truncated at every event; what they hold is stated on the whole
    stream: the last updates, the first messages, the first distinct artifacts, the last revision.
    Reading a message's JSON is a parameter, and so is the store's answer to each checkpoint. */
module StreamFold {
  import opened Options

  type ArtifactId = nat
  type UpdateId = nat

  const MAX_UPDATES := 33
  const MAX_MESSAGES := 32
  const MAX_TEXT := 16000
  const MAX_ARTIFACTS := 8

  datatype Update = Update(id: UpdateId, revision: Option<int>)
  datatype Artifact = Artifact(id: ArtifactId, name: string)

  datatype EventKind = Error | Paused | RuntimeFallback | Runtime | Session | Message | Answer | ArtifactReady | OtherEvent

  /** `accepted` is the store's answer when the event makes it checkpoint a runtime or a session. */
  datatype Event = Event(kind: EventKind, text: string, session: bool, artifact: Option<Artifact>, accepted: bool)

  // What a message's text says when read as JSON: nothing, for ordinary prose.
  datatype Reading = Reading(revision: Option<int>, update: Option<Update>, updates: Option<seq<Update>>)

  datatype Outcome =
    | Finished(revision: Option<int>, messages: seq<string>, artifacts: seq<Artifact>, update: Option<Update>,
               updates: seq<Update>)
    | TaskFailed(reason: string, messages: seq<string>, artifacts: seq<Artifact>)
    | TaskPaused(reason: string, messages: seq<string>, artifacts: seq<Artifact>)
    | StoreConflict

  // ---- Text -----------------------------------------------------------------------------

  predicate IsSpace(c: char) {
    || '\t' <= c <= '\r' || '\U{1c}' <= c <= ' ' || c == '\U{85}' || c == '\U{a0}' || c == '\U{1680}'
    || '\U{2000}' <= c <= '\U{200a}' || c == '\U{2028}' || c == '\U{2029}' || c == '\U{202f}' || c == '\U{205f}'
    || c == '\U{3000}'
  }

  function StripLeft(s: string): string { if s != "" && IsSpace(s[0]) then StripLeft(s[1..]) else s }

  function StripRight(s: string): string {
    if s != "" && IsSpace(s[|s| - 1]) then StripRight(s[..|s| - 1]) else s
  }

  function Strip(s: string): string { StripRight(StripLeft(s)) }

  function Clip(s: string): string { if |s| <= MAX_TEXT then s else s[..MAX_TEXT] }

  // ---- What one event contributes -------------------------------------------------------

  predicate Ends(e: Event, provider: bool) {
    || e.kind.Error? || e.kind.Paused?
    || (e.kind.Runtime? && (!provider || !e.accepted))
    || (e.kind.Session? && e.session && !e.accepted)
  }

  function UpdatesOf(e: Event, read: string -> Reading): seq<Update> {
    if e.kind.Message? && read(e.text).updates.Some? then read(e.text).updates.value else []
  }

  // The single update of a message, or the last of its list.
  function UpdateOf(e: Event, read: string -> Reading): Option<Update> {
    if !e.kind.Message? then None
    else if read(e.text).update.Some? then read(e.text).update
    else
      var list := UpdatesOf(e, read);
      if list == [] then None else Some(list[|list| - 1])
  }

  function LastRevision(list: seq<Update>): Option<int> {
    if list == [] then None
    else if list[|list| - 1].revision.Some? then list[|list| - 1].revision
    else LastRevision(list[..|list| - 1])
  }

  // The revision a message reports outright, else its single update's, else the latest in its list.
  function RevisionOf(e: Event, read: string -> Reading): Option<int> {
    if !e.kind.Message? then None
    else
      var r := read(e.text);
      if r.revision.Some? then r.revision
      else if r.update.Some? && r.update.value.revision.Some? then r.update.value.revision
      else if r.updates.Some? then LastRevision(r.updates.value)
      else None
  }

  predicate Speaks(e: Event, read: string -> Reading) {
    && Strip(e.text) != ""
    && (e.kind.Answer?
        || (e.kind.Message? && RevisionOf(e, read).None? && read(e.text).update.None? && read(e.text).updates.None?))
  }

  // ---- What the whole stream contributes ------------------------------------------------

  function Updates(es: seq<Event>, read: string -> Reading): seq<Update> {
    if es == [] then [] else Updates(es[..|es| - 1], read) + UpdatesOf(es[|es| - 1], read)
  }

  function Texts(es: seq<Event>, read: string -> Reading): seq<string> {
    if es == [] then []
    else
      var e := es[|es| - 1];
      Texts(es[..|es| - 1], read) + if Speaks(e, read) then [Clip(Strip(e.text))] else []
  }

  predicate HasId(list: seq<Artifact>, id: ArtifactId) { exists i :: 0 <= i < |list| && list[i].id == id }

  // The first artifact of every id, in order of appearance.
  function Artifacts(es: seq<Event>): seq<Artifact> {
    if es == [] then []
    else
      var before, e := Artifacts(es[..|es| - 1]), es[|es| - 1];
      if e.kind.ArtifactReady? && e.artifact.Some? && !HasId(before, e.artifact.value.id) then before + [e.artifact.value]
      else before
  }

  function LatestUpdate(es: seq<Event>, read: string -> Reading): Option<Update> {
    if es == [] then None
    else if UpdateOf(es[|es| - 1], read).Some? then UpdateOf(es[|es| - 1], read)
    else LatestUpdate(es[..|es| - 1], read)
  }

  function LatestRevision(es: seq<Event>, read: string -> Reading): Option<int> {
    if es == [] then None
    else if RevisionOf(es[|es| - 1], read).Some? then RevisionOf(es[|es| - 1], read)
    else LatestRevision(es[..|es| - 1], read)
  }

  function First<T>(xs: seq<T>, n: nat): seq<T> { if |xs| <= n then xs else xs[..n] }
  function Last<T>(xs: seq<T>, n: nat): seq<T> { if |xs| <= n then xs else xs[|xs| - n..] }

  predicate Alive(es: seq<Event>, provider: bool) { forall i :: 0 <= i < |es| ==> !Ends(es[i], provider) }

  const NO_PROVIDER := "The provider runtime has no admitted provider."
  const FAILED := "The agent task failed."
  const CONFLICT := "The runtime conflicts with the one recorded."

  function Stopped(e: Event, messages: seq<string>, artifacts: seq<Artifact>, provider: bool): Outcome {
    match e.kind
    case Error => TaskFailed(if e.text == "" then FAILED else e.text, messages, artifacts)
    case Paused => TaskPaused(e.text, messages, artifacts)
    case Runtime => TaskFailed(if provider then CONFLICT else NO_PROVIDER, messages, artifacts)
    case _ => StoreConflict
  }

  function Whole(es: seq<Event>, read: string -> Reading, captured: Option<int>): Outcome {
    var revision := LatestRevision(es, read);
    Finished(if revision.Some? then revision else captured, First(Texts(es, read), MAX_MESSAGES),
             First(Artifacts(es), MAX_ARTIFACTS), LatestUpdate(es, read), Last(Updates(es, read), MAX_UPDATES))
  }

  /** The outcome of a stream, with every bound applied once: `n` events are folded, and the stream
      ends there or its next event ends the task. */
  ghost predicate Folds(es: seq<Event>, read: string -> Reading, provider: bool, captured: Option<int>, out: Outcome) {
    if Alive(es, provider) then out == Whole(es, read, captured)
    else exists n :: 0 <= n < |es| && StopsAt(es, read, provider, n, out)
  }

  ghost predicate StopsAt(es: seq<Event>, read: string -> Reading, provider: bool, n: nat, out: Outcome)
    requires n < |es|
  {
    && Alive(es[..n], provider) && Ends(es[n], provider)
    && out == Stopped(es[n], First(Texts(es[..n], read), MAX_MESSAGES), First(Artifacts(es[..n]), MAX_ARTIFACTS), provider)
  }

  lemma LastOfLast<T>(xs: seq<T>, ys: seq<T>, n: nat)
    ensures Last(Last(xs, n) + ys, n) == Last(xs + ys, n)
  {
  }

  lemma FirstGrows<T>(xs: seq<T>, x: T, n: nat)
    ensures First(xs + [x], n) == if |First(xs, n)| < n then First(xs, n) + [x] else First(xs, n)
  {
  }

  method LastRevisionOf(list: seq<Update>) returns (revision: Option<int>)
    ensures revision == LastRevision(list)
  {
    var i := |list|;
    assert list[..i] == list;
    while i > 0
      invariant 0 <= i <= |list| && LastRevision(list) == LastRevision(list[..i])
    {
      i := i - 1;
      assert list[..i + 1][..i] == list[..i];
      if list[i].revision.Some? { return list[i].revision; }
    }
    return None;
  }

  // What a message says about the graph.
  method ReadMessage(e: Event, read: string -> Reading) returns (revision: Option<int>, update: Option<Update>)
    requires e.kind.Message?
    ensures revision == RevisionOf(e, read) && update == UpdateOf(e, read)
  {
    var r := read(e.text);
    revision, update := r.revision, None;
    if r.updates.Some? && r.updates.value != [] { update := Some(r.updates.value[|r.updates.value| - 1]); }
    if r.update.Some? { update := r.update; }
    if revision.None? {
      if r.update.Some? { revision := r.update.value.revision; }
      if revision.None? && r.updates.Some? { revision := LastRevisionOf(r.updates.value); }
    }
  }

  // The accumulators of the loop.
  datatype Kept = Kept(applied: Option<int>, messages: seq<string>, artifacts: seq<Artifact>, latest: Option<Update>,
                       updates: seq<Update>)

  // The accumulators hold what the events so far leave after one truncation.
  predicate Holds(es: seq<Event>, read: string -> Reading, k: Kept) {
    && k.applied == LatestRevision(es, read) && k.latest == LatestUpdate(es, read)
    && k.messages == First(Texts(es, read), MAX_MESSAGES) && k.artifacts == First(Artifacts(es), MAX_ARTIFACTS)
    && k.updates == Last(Updates(es, read), MAX_UPDATES)
  }

  method TakeText(messages: seq<string>, text: string, ghost texts: seq<string>) returns (kept: seq<string>)
    requires messages == First(texts, MAX_MESSAGES)
    ensures kept == First(texts + if Strip(text) != "" then [Clip(Strip(text))] else [], MAX_MESSAGES)
  {
    kept := messages;
    assert texts + [] == texts;
    FirstGrows(texts, Clip(Strip(text)), MAX_MESSAGES);
    if Strip(text) != "" && |messages| < MAX_MESSAGES { kept := messages + [Clip(Strip(text))]; }
  }

  method TakeArtifact(artifacts: seq<Artifact>, e: Event, ghost es: seq<Event>) returns (kept: seq<Artifact>)
    requires artifacts == First(Artifacts(es), MAX_ARTIFACTS)
    ensures kept == First(Artifacts(es + [e]), MAX_ARTIFACTS)
  {
    kept := artifacts;
    assert (es + [e])[..|es|] == es;
    if e.kind.ArtifactReady? && e.artifact.Some? {
      FirstGrows(Artifacts(es), e.artifact.value, MAX_ARTIFACTS);
      if |artifacts| < MAX_ARTIFACTS && !HasId(artifacts, e.artifact.value.id) { kept := artifacts + [e.artifact.value]; }
    }
  }

  method Take(k: Kept, e: Event, read: string -> Reading, ghost es: seq<Event>) returns (kept: Kept)
    requires Holds(es, read, k)
    ensures Holds(es + [e], read, kept)
  {
    assert (es + [e])[..|es|] == es;
    assert Texts(es, read) + [] == Texts(es, read) && Updates(es, read) + [] == Updates(es, read);
    var artifacts := TakeArtifact(k.artifacts, e, es);
    kept := k.(artifacts := artifacts);
    if e.kind.Message? {
      var r := read(e.text);
      if r.updates.Some? {
        LastOfLast(Updates(es, read), r.updates.value, MAX_UPDATES);
        kept := kept.(updates := Last(k.updates + r.updates.value, MAX_UPDATES));
      }
      var revision, update := ReadMessage(e, read);
      if update.Some? { kept := kept.(latest := update); }
      if revision.Some? {
        kept := kept.(applied := revision);
      } else if r.update.None? && r.updates.None? {
        var messages := TakeText(k.messages, e.text, Texts(es, read));
        kept := kept.(messages := messages);
      }
    } else if e.kind.Answer? {
      var messages := TakeText(k.messages, e.text, Texts(es, read));
      kept := kept.(messages := messages);
    }
  }

  /** The fold.  Every accumulator is cut back at every event, and the outcome is the stream's. */
  method Consume(es: seq<Event>, read: string -> Reading, provider: bool, captured: Option<int>) returns (out: Outcome)
    ensures Folds(es, read, provider, captured, out)
  {
    var k := Kept(None, [], [], None, []);
    for n := 0 to |es|
      invariant Alive(es[..n], provider) && Holds(es[..n], read, k)
    {
      if Ends(es[n], provider) {
        out := Stopped(es[n], k.messages, k.artifacts, provider);
        assert StopsAt(es, read, provider, n, out);
        return;
      }
      assert es[..n + 1] == es[..n] + [es[n]];
      k := Take(k, es[n], read, es[..n]);
    }
    assert es[..|es|] == es;
    return Finished(if k.applied.Some? then k.applied else captured, k.messages, k.artifacts, k.latest, k.updates);
  }

  /** The specification leaves no choice: a stream has exactly one outcome. */
  lemma OneOutcome(es: seq<Event>, read: string -> Reading, provider: bool, captured: Option<int>, a: Outcome, b: Outcome)
    requires Folds(es, read, provider, captured, a) && Folds(es, read, provider, captured, b)
    ensures a == b
  {
    if !Alive(es, provider) {
      var m :| 0 <= m < |es| && StopsAt(es, read, provider, m, a);
      var n :| 0 <= n < |es| && StopsAt(es, read, provider, n, b);
      EndIsUnique(es, provider, m, n);
    }
  }

  lemma EndIsUnique(es: seq<Event>, provider: bool, m: nat, n: nat)
    requires m < |es| && n < |es| && Alive(es[..m], provider) && Alive(es[..n], provider)
    requires Ends(es[m], provider) && Ends(es[n], provider)
    ensures m == n
  {
    assert forall i :: 0 <= i < n ==> es[..n][i] == es[i];
    assert forall i :: 0 <= i < m ==> es[..m][i] == es[i];
  }

  predicate Distinct(list: seq<Artifact>) { forall i, j :: 0 <= i < j < |list| ==> list[i].id != list[j].id }

  predicate Offers(e: Event, id: ArtifactId) { e.kind.ArtifactReady? && e.artifact.Some? && e.artifact.value.id == id }

  // Event `i` is the first to offer artifact `a`'s id, and offers `a`.
  predicate IntroducedBy(es: seq<Event>, i: int, a: Artifact) {
    && 0 <= i < |es| && Offers(es[i], a.id) && es[i].artifact.value == a
    && forall j :: 0 <= j < i ==> !Offers(es[j], a.id)
  }

  ghost predicate Introduced(es: seq<Event>, a: Artifact) { exists i :: IntroducedBy(es, i, a) }

  // Every offered id is listed, once.
  lemma {:induction false} EveryIdOnce(es: seq<Event>)
    ensures Distinct(Artifacts(es))
    ensures forall i, id :: 0 <= i < |es| && Offers(es[i], id) ==> HasId(Artifacts(es), id)
  {
    if es != [] {
      var front, e := es[..|es| - 1], es[|es| - 1];
      EveryIdOnce(front);
      var before, after := Artifacts(front), Artifacts(es);
      forall i, id | 0 <= i < |es| && Offers(es[i], id) ensures HasId(after, id) {
        if i < |front| { assert Offers(front[i], id); }
        if HasId(before, id) {
          var k :| 0 <= k < |before| && before[k].id == id;
          assert after[k].id == id;
        } else {
          assert after[|before|].id == id;
        }
      }
    }
  }

  /** The kept artifacts are the first offered of every id, each once: an id is listed exactly when some
      event offers it, with the artifact of the first such event. */
  lemma {:induction false} FirstOfEveryId(es: seq<Event>)
    ensures Distinct(Artifacts(es))
    ensures forall i, id :: 0 <= i < |es| && Offers(es[i], id) ==> HasId(Artifacts(es), id)
    ensures forall k :: 0 <= k < |Artifacts(es)| ==> Introduced(es, Artifacts(es)[k])
  {
    EveryIdOnce(es);
    if es != [] {
      var front, e := es[..|es| - 1], es[|es| - 1];
      FirstOfEveryId(front);
      forall k | 0 <= k < |Artifacts(es)| ensures Introduced(es, Artifacts(es)[k]) {
        if k < |Artifacts(front)| {
          IntroducedLater(es, Artifacts(front)[k]);
        } else {
          forall j | 0 <= j < |front| ensures !Offers(es[j], e.artifact.value.id) { assert front[j] == es[j]; }
          assert IntroducedBy(es, |front|, Artifacts(es)[k]);
        }
      }
    }
  }

  lemma IntroducedLater(es: seq<Event>, a: Artifact)
    requires es != [] && Introduced(es[..|es| - 1], a)
    ensures Introduced(es, a)
  {
    var i :| IntroducedBy(es[..|es| - 1], i, a);
    assert forall j :: 0 <= j <= i ==> es[..|es| - 1][j] == es[j];
    assert IntroducedBy(es, i, a);
  }

  lemma {:induction false} OutputGrows(es: seq<Event>, read: string -> Reading, n: nat)
    requires n <= |es|
    ensures Texts(es[..n], read) <= Texts(es, read) && Artifacts(es[..n]) <= Artifacts(es)
  {
    if n < |es| {
      assert es[..|es| - 1][..n] == es[..n];
      OutputGrows(es[..|es| - 1], read, n);
    } else {
      assert es[..n] == es;
    }
  }

  lemma FirstKeepsPrefix<T>(xs: seq<T>, ys: seq<T>, n: nat)
    requires xs <= ys
    ensures First(xs, n) <= First(ys, n)
  {
  }

  /** What a failed or paused task keeps is a prefix of what the undisturbed stream would have kept. */
  lemma PartialOutputIsAPrefix(es: seq<Event>, read: string -> Reading, n: nat)
    requires n <= |es|
    ensures First(Texts(es[..n], read), MAX_MESSAGES) <= First(Texts(es, read), MAX_MESSAGES)
    ensures First(Artifacts(es[..n]), MAX_ARTIFACTS) <= First(Artifacts(es), MAX_ARTIFACTS)
  {
    OutputGrows(es, read, n);
    FirstKeepsPrefix(Texts(es[..n], read), Texts(es, read), MAX_MESSAGES);
    FirstKeepsPrefix(Artifacts(es[..n]), Artifacts(es), MAX_ARTIFACTS);
  }

  lemma {:induction false} StripLeftClean(s: string)
    ensures StripLeft(s) != "" ==> !IsSpace(StripLeft(s)[0])
  {
    if s != "" && IsSpace(s[0]) { StripLeftClean(s[1..]); }
  }

  lemma {:induction false} StripRightClean(s: string)
    ensures StripRight(s) <= s && (StripRight(s) != "" ==> !IsSpace(StripRight(s)[|StripRight(s)| - 1]))
    ensures s != "" && !IsSpace(s[0]) ==> StripRight(s) != ""
  {
    if s != "" && IsSpace(s[|s| - 1]) { StripRightClean(s[..|s| - 1]); }
  }

  /** Every kept message says something: it is non-empty, begins with no white space, and fits. */
  lemma {:induction false} MessagesSaySomething(es: seq<Event>, read: string -> Reading)
    ensures forall t :: t in Texts(es, read) ==> 0 < |t| <= MAX_TEXT && !IsSpace(t[0])
  {
    if es != [] {
      MessagesSaySomething(es[..|es| - 1], read);
      StripLeftClean(es[|es| - 1].text);
      StripRightClean(StripLeft(es[|es| - 1].text));
    }
  }

  // The last element of what is kept of two joined lists.
  lemma LastOfJoined<T>(xs: seq<T>, ys: seq<T>, n: nat)
    requires n > 0
    ensures var kept, before := Last(xs + ys, n), Last(xs, n);
      if ys != [] then kept != [] && kept[|kept| - 1] == ys[|ys| - 1]
      else kept == before
  {
    if ys == [] { assert xs + ys == xs; }
  }

  /** When updates only come in lists, the update reported is the last one kept. */
  lemma {:induction false} LatestIsTheLastKept(es: seq<Event>, read: string -> Reading)
    requires forall i :: 0 <= i < |es| && es[i].kind.Message? ==> read(es[i].text).update.None?
    ensures var kept := Last(Updates(es, read), MAX_UPDATES);
      LatestUpdate(es, read) == if kept == [] then None else Some(kept[|kept| - 1])
  {
    if es != [] {
      var front, last := es[..|es| - 1], es[|es| - 1];
      assert forall i :: 0 <= i < |front| ==> front[i] == es[i];
      LatestIsTheLastKept(front, read);
      var before, list := Updates(front, read), UpdatesOf(last, read);
      LastOfJoined(before, list, MAX_UPDATES);
      assert UpdateOf(last, read) == if list == [] then None else Some(list[|list| - 1]);
    }
  }
}
