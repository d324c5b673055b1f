/** Temporary attachment sets of chat turns (src/rcp/attachments.py, `ChatAttachmentStore`).

    A set is a directory of files and a metadata record that lists them.  Every operation runs under the
    process-wide lock and is one step; reading a file may fail, and so may writing metadata.  A file's
    content is known by its size and its hash.  A project's identity can be migrated by rewriting the
    metadata of its sets, one atomic write at a time. */
module Attachments {
  import opened Options

  type SetId = nat
  type ItemId = nat
  type Op = nat
  type Project = nat

  const MAX_COUNT := 8
  const MAX_FILE := 16 * 1024 * 1024
  const MAX_TOTAL := 32 * 1024 * 1024
  const CHUNK := 1024 * 1024
  const RETENTION := 7 * 24 * 3600
  const MAX_SETS := 10_000

  datatype Content = Content(size: nat, hash: nat)
  datatype Name = Name(index: nat, id: ItemId)           // the staged name: position and fresh identity
  datatype Item = Item(id: ItemId, name: Name, content: Content)
  datatype Scope = Scope(project: Project, chat: nat, client: nat)
  datatype Meta = Meta(setId: SetId, scope: Scope, expires: int, claimedBy: Option<Op>, items: seq<Item>)

  /** A set's directory; `modified` is its time stamp, which counts only while it has no metadata. */
  datatype Dir = Dir(meta: Option<Meta>, files: map<Name, Content>, modified: int)

  type Store = map<SetId, Dir>

  datatype Failure =
    | NotFound | AlreadyThere | WrongScope | AlreadySent | TooMany | FileTooLarge | TotalTooLarge | BadContent
    | NoSuchItem | EmptySet | NotClaimed | Incomplete | NotReadable | NotWritten | NotDeleted

  /** `Died` is no answer at all: the process died between the operation's writes. */
  datatype Answer = Done | Refused(why: Failure) | Died

  /** What happens to the disk during one operation.  When the process dies, files have been written and
      removed but metadata has not.  A file or a whole directory may also fail to be deleted.  `left` is
      what stays of the file being uploaded. */
  datatype Disk = Works | ReadFails | WriteFails | Dies(left: Content) | UnlinkFails(left: Content) | TreeStays

  function Total(items: seq<Item>): nat {
    if items == [] then 0 else Total(items[..|items| - 1]) + items[|items| - 1].content.size
  }

  function Names(items: seq<Item>): set<Name> { set i | 0 <= i < |items| :: items[i].name }

  lemma Listed(items: seq<Item>, i: nat)
    requires i < |items|
    ensures items[i].name in Names(items)
  {
  }

  // ---- Verification of a set ------------------------------------------------------------

  // What `_verify` accepts: the limits hold and the files are exactly the listed ones, unchanged.
  predicate Intact(d: Dir) {
    && d.meta.Some?
    && var items := d.meta.value.items;
       && |items| <= MAX_COUNT && d.files.Keys == Names(items)
       && (forall i :: 0 <= i < |items| ==> d.files[items[i].name] == items[i].content)
       && Total(items) <= MAX_TOTAL
  }

  // ---- Operations -----------------------------------------------------------------------

  predicate Stale(d: Dir, now: int) {
    if d.meta.Some? then d.meta.value.expires <= now else d.modified <= now - RETENTION
  }

  function Swept(s: Store, now: int): Store { map k | k in s && !Stale(s[k], now) :: s[k] }

  datatype Upload = Upload(setId: SetId, scope: Scope, id: ItemId, content: Content, valid: bool)

  predicate Present(s: Store, k: SetId) { k in s && s[k].meta.Some? }

  function Added(d: Dir, u: Upload): Dir
    requires d.meta.Some?
  {
    var m := d.meta.value;
    var item := Item(u.id, Name(|m.items|, u.id), u.content);
    Dir(Some(m.(items := m.items + [item])), d.files[item.name := item.content], d.modified)
  }

  function NewDir(u: Upload, now: int): Dir {
    Dir(Some(Meta(u.setId, u.scope, now + RETENTION, None, [])), map[], now)
  }

  // Why an upload to a set is turned away before its file is opened.
  function Barred(d: Dir, u: Upload): Option<Failure>
    requires d.meta.Some?
  {
    var m := d.meta.value;
    if m.scope != u.scope then Some(WrongScope)
    else if m.claimedBy.Some? then Some(AlreadySent)
    else if |m.items| >= MAX_COUNT then Some(TooMany)
    else None
  }

  // Why an upload to a set is turned away before or while its file is written.
  function UploadFault(d: Dir, u: Upload, disk: Disk): Option<Failure>
    requires d.meta.Some?
  {
    var m := d.meta.value;
    if Barred(d, u).Some? then Barred(d, u)
    else if disk.ReadFails? then Some(NotReadable)
    else if u.content.size > MAX_FILE then Some(FileTooLarge)
    else if Total(m.items) + u.content.size > MAX_TOTAL then Some(TotalTooLarge)
    else if !u.valid then Some(BadContent)
    else None
  }

  // The file of an upload that was cut short, beside a listing that does not name it or none at all.
  function HalfAdded(d: Dir, existing: bool, u: Upload, left: Content): Dir
    requires d.meta.Some?
  {
    d.(meta := if existing then d.meta else None, files := d.files[Name(|d.meta.value.items|, u.id) := left])
  }

  /** A failed upload leaves no file, unless it cannot be deleted; a set it created goes too, unless it
      cannot be deleted or only its metadata could not be written: then the bare directory stays. */
  function AddStep(s: Store, u: Upload, now: int, disk: Disk): (Store, Answer) {
    var swept := Swept(s, now);
    if u.setId in swept && swept[u.setId].meta.None? then (swept, Refused(AlreadyThere))
    else
      var d := if u.setId in swept then swept[u.setId] else NewDir(u, now);
      var fault := UploadFault(d, u, disk);
      if disk.Dies? && Barred(d, u).None? then
        (swept[u.setId := HalfAdded(d, u.setId in swept, u, disk.left)], Died)
      else if fault.Some? && Barred(d, u).None? && disk.UnlinkFails? then
        (swept[u.setId := HalfAdded(d, u.setId in swept, u, disk.left)], Refused(NotDeleted))
      else if fault.Some? then
        (if disk.TreeStays? && u.setId !in swept then swept[u.setId := Dir(None, map[], now)] else swept,
         Refused(fault.value))
      else if disk.WriteFails? then
        (if u.setId in swept then swept else swept[u.setId := Dir(None, map[], now)], Refused(NotWritten))
      else (swept[u.setId := Added(d, u)], Done)
  }

  function IndexOf(items: seq<Item>, id: ItemId): Option<nat> {
    if items == [] then None
    else
      var before := IndexOf(items[..|items| - 1], id);
      if before.Some? then before
      else if items[|items| - 1].id == id then Some(|items| - 1)
      else None
  }

  function Without(items: seq<Item>, i: nat): seq<Item>
    requires i < |items|
  {
    items[..i] + items[i + 1..]
  }

  lemma {:induction false} IndexOfFinds(items: seq<Item>, id: ItemId)
    ensures IndexOf(items, id).Some? ==>
      var i := IndexOf(items, id).value; i < |items| && items[i].id == id && forall j :: 0 <= j < i ==> items[j].id != id
    ensures IndexOf(items, id).None? ==> forall i :: 0 <= i < |items| ==> items[i].id != id
  {
    if items != [] {
      var front := items[..|items| - 1];
      IndexOfFinds(front, id);
      assert forall j :: 0 <= j < |front| ==> front[j] == items[j];
    }
  }

  // What stops a removal after the file has gone and before the listing, or the whole set, has.
  predicate CutShort(items: seq<Item>, disk: Disk) {
    disk.Dies? || (disk.WriteFails? && |items| > 1) || (disk.TreeStays? && |items| == 1)
  }

  // The file goes first, then the listing; what stops it in between leaves the set incomplete.
  function Removed(d: Dir, i: nat, disk: Disk): Dir
    requires d.meta.Some? && i < |d.meta.value.items|
  {
    var m := d.meta.value;
    var files := d.files - {m.items[i].name};
    if CutShort(m.items, disk) then d.(files := files) else Dir(Some(m.(items := Without(m.items, i))), files, d.modified)
  }

  // Why a removal is refused before it touches anything.
  function RemovalFault(s: Store, k: SetId, scope: Scope, id: ItemId): Option<Failure> {
    if !Present(s, k) then Some(NotFound)
    else
      var m := s[k].meta.value;
      var at := IndexOf(m.items, id);
      if m.scope != scope then Some(WrongScope)
      else if m.claimedBy.Some? then Some(AlreadySent)
      else if at.None? then Some(NoSuchItem)
      else if at.value >= |m.items| || m.items[at.value].name !in s[k].files then Some(NotReadable)
      else None
  }

  function RemoveStep(s: Store, k: SetId, scope: Scope, id: ItemId, now: int, disk: Disk): (Store, Answer) {
    var swept := Swept(s, now);
    var fault := RemovalFault(swept, k, scope, id);
    if fault.Some? then (swept, Refused(fault.value))
    else if disk.UnlinkFails? then (swept, Refused(NotDeleted))
    else
      var items := swept[k].meta.value.items;
      if |items| == 1 && !CutShort(items, disk) then (swept - {k}, Done)
      else
        (swept[k := Removed(swept[k], IndexOf(items, id).value, disk)],
         if disk.Dies? then Died
         else if !CutShort(items, disk) then Done
         else if disk.WriteFails? then Refused(NotWritten)
         else Refused(NotDeleted))
  }

  function Claimed(d: Dir, op: Op, now: int): Dir
    requires d.meta.Some?
  {
    d.(meta := Some(d.meta.value.(claimedBy := Some(op), expires := now + RETENTION)))
  }

  function ClaimStep(s: Store, k: SetId, scope: Scope, op: Op, now: int, disk: Disk): (Store, Answer) {
    var swept := Swept(s, now);
    if !Present(swept, k) then (swept, Refused(NotFound))
    else
      var m := swept[k].meta.value;
      if m.scope != scope then (swept, Refused(WrongScope))
      else if m.items == [] then (swept, Refused(EmptySet))
      else if m.claimedBy.Some? && m.claimedBy.value != op then (swept, Refused(AlreadySent))
      else if !Intact(swept[k]) then (swept, Refused(Incomplete))
      else if disk.WriteFails? then (swept, Refused(NotWritten))
      else if disk.Dies? then (swept, Died)
      else (swept[k := Claimed(swept[k], op, now)], Done)
  }

  function Unclaimed(d: Dir): Dir
    requires d.meta.Some?
  {
    d.(meta := Some(d.meta.value.(claimedBy := None)))
  }

  // Releasing sweeps nothing.
  function ReleaseStep(s: Store, k: SetId, op: Op, disk: Disk): (Store, Answer) {
    if !Present(s, k) then (s, Refused(NotFound))
    else if s[k].meta.value.claimedBy != Some(op) then (s, Refused(NotClaimed))
    else if disk.WriteFails? then (s, Refused(NotWritten))
    else if disk.Dies? then (s, Died)
    else (s[k := Unclaimed(s[k])], Done)
  }

  // ---- Every run ------------------------------------------------------------------------

  datatype Action =
    | Add(u: Upload, now: int, disk: Disk)
    | Remove(k: SetId, scope: Scope, id: ItemId, now: int, disk: Disk)
    | Claim(k: SetId, scope: Scope, op: Op, now: int, disk: Disk)
    | Release(k: SetId, op: Op, disk: Disk)
    | Sweep(now: int)
    | Migrate(rewrites: seq<Rewrite>)     // as far as it comes: a death leaves it after any of them

  function Apply(s: Store, a: Action): Store {
    match a
    case Add(u, now, disk) => AddStep(s, u, now, disk).0
    case Remove(k, scope, id, now, disk) => RemoveStep(s, k, scope, id, now, disk).0
    case Claim(k, scope, op, now, disk) => ClaimStep(s, k, scope, op, now, disk).0
    case Release(k, op, disk) => ReleaseStep(s, k, op, disk).0
    case Sweep(now) => Swept(s, now)
    case Migrate(rewrites) => ApplyRewrites(s, rewrites).0
  }

  function After(s: Store, run: seq<Action>): Store
    decreases |run|
  {
    if run == [] then s else After(Apply(s, run[0]), run[1..])
  }

  // A rewrite that changes nothing but the project, as every prepared one does.
  predicate IsMove(r: Rewrite) { r.replacement == Moved(r.expected, r.replacement.scope.project) }

  predicate OnlyMoves(a: Action) { a.Migrate? ==> forall r :: r in a.rewrites ==> IsMove(r) }

  // Item identities are drawn fresh, so an upload repeats none in its set; a migration moves sets only.
  predicate Proper(s: Store, a: Action) {
    OnlyMoves(a) && (a.Add? && Present(s, a.u.setId) ==> IndexOf(s[a.u.setId].meta.value.items, a.u.id).None?)
  }

  predicate ProperRun(s: Store, run: seq<Action>)
    decreases |run|
  {
    run != [] ==> Proper(s, run[0]) && ProperRun(Apply(s, run[0]), run[1..])
  }

  predicate Distinct(items: seq<Item>) { forall i, j :: 0 <= i < j < |items| ==> items[i].name.id != items[j].name.id }

  predicate MetaOk(k: SetId, m: Meta) {
    && m.setId == k && m.items != [] && Distinct(m.items)
    && forall i :: 0 <= i < |m.items| ==> m.items[i].name.id == m.items[i].id && m.items[i].content.size <= MAX_FILE
  }

  // A directory is a whole, non-empty set or, after a first upload that came to nothing, has no metadata.
  predicate DirOk(k: SetId, d: Dir) { d.meta.Some? ==> Intact(d) && MetaOk(k, d.meta.value) }

  predicate Inv(s: Store) { forall k :: k in s ==> DirOk(k, s[k]) }

  lemma {:induction false} TotalWithout(items: seq<Item>, i: nat)
    requires i < |items|
    ensures Total(Without(items, i)) == Total(items) - items[i].content.size
  {
    var n := |items|;
    if i == n - 1 {
      assert Without(items, i) == items[..n - 1];
    } else {
      var front := items[..n - 1];
      TotalWithout(front, i);
      assert Without(items, i)[..n - 2] == Without(front, i);
    }
  }

  lemma NamesAppend(items: seq<Item>, item: Item)
    ensures Names(items + [item]) == Names(items) + {item.name}
  {
    var all := items + [item];
    forall n | n in Names(items) + {item.name} ensures n in Names(all) {
      if n in Names(items) {
        var i :| 0 <= i < |items| && items[i].name == n;
        assert all[i].name == n;
      } else {
        assert all[|items|].name == n;
      }
    }
  }

  lemma NamesWithout(items: seq<Item>, i: nat)
    requires i < |items| && Distinct(items)
    ensures Names(Without(items, i)) == Names(items) - {items[i].name}
  {
    var rest := Without(items, i);
    forall n | n in Names(items) - {items[i].name} ensures n in Names(rest) {
      var j :| 0 <= j < |items| && items[j].name == n;
      assert rest[if j < i then j else j - 1].name == n;
    }
    forall n | n in Names(rest) ensures n in Names(items) && n != items[i].name {
      var j :| 0 <= j < |rest| && rest[j].name == n;
      assert items[if j < i then j else j + 1] == rest[j];
    }
  }

  lemma AddedIntact(d: Dir, u: Upload)
    requires d.meta.Some? && Intact(d) && |d.meta.value.items| < MAX_COUNT
    requires Total(d.meta.value.items) + u.content.size <= MAX_TOTAL
    requires Name(|d.meta.value.items|, u.id) !in Names(d.meta.value.items)
    ensures Intact(Added(d, u))
  {
    var items := d.meta.value.items;
    var item := Item(u.id, Name(|items|, u.id), u.content);
    var d' := Added(d, u);
    NamesAppend(items, item);
    assert (items + [item])[..|items|] == items;
    forall i | 0 <= i < |items| + 1 ensures d'.files[(items + [item])[i].name] == (items + [item])[i].content {
      if i < |items| { assert items[i].name in Names(items); }
    }
  }

  lemma AddedMeta(k: SetId, d: Dir, u: Upload)
    requires d.meta.Some? && (d.meta.value.items == [] || MetaOk(k, d.meta.value)) && d.meta.value.setId == k
    requires u.content.size <= MAX_FILE && IndexOf(d.meta.value.items, u.id).None?
    ensures MetaOk(k, Added(d, u).meta.value) && Name(|d.meta.value.items|, u.id) !in Names(d.meta.value.items)
  {
    IndexOfFinds(d.meta.value.items, u.id);
  }

  lemma AddedOk(k: SetId, d: Dir, u: Upload, disk: Disk)
    requires d.meta.Some? && Intact(d) && (d.meta.value.items == [] || MetaOk(k, d.meta.value)) && d.meta.value.setId == k
    requires UploadFault(d, u, disk).None? && IndexOf(d.meta.value.items, u.id).None?
    ensures DirOk(k, Added(d, u))
  {
    AddedMeta(k, d, u);
    AddedIntact(d, u);
  }

  lemma PutInv(s: Store, k: SetId, d: Dir)
    requires Inv(s) && DirOk(k, d)
    ensures Inv(s[k := d])
  {
  }

  lemma AddInv(s: Store, a: Action)
    requires Inv(s) && a.Add? && Proper(s, a) && !Spoils(s, a)
    ensures Inv(Apply(s, a))
  {
    var swept, u := Swept(s, a.now), a.u;
    assert Inv(swept);
    if u.setId !in swept || swept[u.setId].meta.Some? {
      var d := if u.setId in swept then swept[u.setId] else NewDir(u, a.now);
      PutInv(swept, u.setId, Dir(None, map[], a.now));
      if a.disk.Dies? || a.disk.UnlinkFails? {
        PutInv(swept, u.setId, HalfAdded(d, false, u, a.disk.left));
        if UploadFault(d, u, a.disk).None? {
          AddedOk(u.setId, d, u, a.disk);
          PutInv(swept, u.setId, Added(d, u));
        }
      } else if UploadFault(d, u, a.disk).None? {
        AddedOk(u.setId, d, u, a.disk);
        PutInv(swept, u.setId, Added(d, u));
      }
    }
  }

  lemma WithoutAt(items: seq<Item>, i: nat, j: nat)
    requires i < |items| && j < |items| - 1
    ensures Without(items, i)[j] == items[if j < i then j else j + 1]
  {
  }

  lemma RemovedIntact(d: Dir, i: nat)
    requires d.meta.Some? && Intact(d) && Distinct(d.meta.value.items) && i < |d.meta.value.items|
    ensures Intact(Removed(d, i, Works))
  {
    var items := d.meta.value.items;
    var rest := Without(items, i);
    NamesWithout(items, i);
    TotalWithout(items, i);
    forall j | 0 <= j < |rest|
      ensures rest[j].name != items[i].name && (d.files - {items[i].name})[rest[j].name] == rest[j].content
    {
      WithoutAt(items, i, j);
      assert rest[j].name in Names(rest);
    }
  }

  lemma RemovedMeta(k: SetId, d: Dir, i: nat)
    requires d.meta.Some? && MetaOk(k, d.meta.value) && i < |d.meta.value.items| && |d.meta.value.items| > 1
    ensures MetaOk(k, Removed(d, i, Works).meta.value)
  {
    var items := d.meta.value.items;
    forall j | 0 <= j < |items| - 1 ensures Without(items, i)[j] == items[if j < i then j else j + 1] {
      WithoutAt(items, i, j);
    }
  }

  lemma RemovedOk(k: SetId, d: Dir, i: nat)
    requires d.meta.Some? && Intact(d) && MetaOk(k, d.meta.value) && i < |d.meta.value.items| && |d.meta.value.items| > 1
    ensures DirOk(k, Removed(d, i, Works))
  {
    RemovedIntact(d, i);
    RemovedMeta(k, d, i);
  }

  /** The call is stopped between its two writes on a set: an accepted removal that dies, cannot write the
      listing or cannot delete the emptied set; or an upload to a set that is there, past its first
      checks, that dies, or that fails and cannot delete its file. */
  predicate Spoils(s: Store, a: Action) {
    match a
    case Add(u, now, disk) =>
      var swept := Swept(s, now);
      && Present(swept, u.setId) && Barred(swept[u.setId], u).None?
      && (disk.Dies? || (disk.UnlinkFails? && UploadFault(swept[u.setId], u, disk).Some?))
    case Remove(k, scope, id, now, disk) =>
      var swept := Swept(s, now);
      RemovalFault(swept, k, scope, id).None? && CutShort(swept[k].meta.value.items, disk)
    case _ => false
  }

  lemma RemoveInv(s: Store, a: Action)
    requires Inv(s) && a.Remove? && !Spoils(s, a)
    ensures Inv(Apply(s, a))
  {
    var swept := Swept(s, a.now);
    if RemovalFault(swept, a.k, a.scope, a.id).None? {
      var items := swept[a.k].meta.value.items;
      if |items| > 1 {
        var i := IndexOf(items, a.id).value;
        RemovedOk(a.k, swept[a.k], i);
        assert Removed(swept[a.k], i, a.disk) == Removed(swept[a.k], i, Works);
        PutInv(swept, a.k, Removed(swept[a.k], i, a.disk));
      }
    }
  }

  // The two directories differ at most in the project the set belongs to.
  predicate SameButProject(d: Dir, e: Dir) {
    && e.files == d.files && e.modified == d.modified && (d.meta.Some? <==> e.meta.Some?)
    && (d.meta.Some? ==> e.meta.value == Moved(d.meta.value, e.meta.value.scope.project))
  }

  lemma {:induction false} MovesKeep(s: Store, rs: seq<Rewrite>)
    requires forall r :: r in rs ==> IsMove(r)
    ensures ApplyRewrites(s, rs).0.Keys == s.Keys
    ensures forall k :: k in s ==> SameButProject(s[k], ApplyRewrites(s, rs).0[k])
    decreases |rs|
  {
    if rs != [] && Present(s, rs[0].k) {
      assert IsMove(rs[0]) && forall r :: r in rs[1..] ==> r in rs;
      if s[rs[0].k].meta.value == rs[0].replacement {
        MovesKeep(s, rs[1..]);
      } else if s[rs[0].k].meta.value == rs[0].expected {
        MovesKeep(Overwritten(s, rs[0].k, rs[0].replacement), rs[1..]);
      }
    }
  }

  lemma MigrateInv(s: Store, a: Action)
    requires Inv(s) && a.Migrate? && OnlyMoves(a)
    ensures Inv(Apply(s, a))
  {
    MovesKeep(s, a.rewrites);
    forall k | k in Apply(s, a) ensures DirOk(k, Apply(s, a)[k]) {
      assert DirOk(k, s[k]) && SameButProject(s[k], Apply(s, a)[k]);
    }
  }

  lemma StepInv(s: Store, a: Action)
    requires Inv(s) && Proper(s, a) && !Spoils(s, a)
    ensures Inv(Apply(s, a))
  {
    if a.Add? {
      AddInv(s, a);
    } else if a.Remove? {
      RemoveInv(s, a);
    } else if a.Migrate? {
      MigrateInv(s, a);
    }
  }

  predicate AllIntact(s: Store) { forall k :: k in s ==> (s[k].meta.Some? ==> Intact(s[k])) }

  lemma SpoiltStep(s: Store, a: Action)
    requires Inv(s) && Proper(s, a) && Spoils(s, a)
    ensures var k := if a.Add? then a.u.setId else a.k; Present(Apply(s, a), k) && !Intact(Apply(s, a)[k])
  {
    if a.Add? {
      var d := Swept(s, a.now)[a.u.setId];
      AddedMeta(a.u.setId, d, a.u.(content := Content(0, 0)));
    } else {
      var items := Swept(s, a.now)[a.k].meta.value.items;
      assert items[IndexOf(items, a.id).value].name in Names(items);
    }
  }

  predicate NeverSpoils(s: Store, run: seq<Action>)
    decreases |run|
  {
    run != [] ==> !Spoils(s, run[0]) && NeverSpoils(Apply(s, run[0]), run[1..])
  }

  predicate IntactThroughout(s: Store, run: seq<Action>)
    decreases |run|
  {
    AllIntact(s) && (run != [] ==> IntactThroughout(Apply(s, run[0]), run[1..]))
  }

  lemma {:induction false} RunInv(s: Store, run: seq<Action>)
    requires Inv(s) && ProperRun(s, run)
    ensures IntactThroughout(s, run) <==> NeverSpoils(s, run)
    ensures NeverSpoils(s, run) ==> Inv(After(s, run))
    decreases |run|
  {
    if run != [] {
      if Spoils(s, run[0]) {
        SpoiltStep(s, run[0]);
      } else {
        StepInv(s, run[0]);
        RunInv(Apply(s, run[0]), run[1..]);
      }
    }
  }

  /** At every moment of a run, with failing disks, deaths of the process and migrations broken off
      anywhere in between, each set's files are exactly the ones its metadata lists, with the listed sizes
      and hashes, if and only if no call is stopped between its two writes on a set; and then the limits
      on number, size and total hold too. */
  lemma SetsStayWhole(run: seq<Action>)
    requires ProperRun(map[], run)
    ensures IntactThroughout(map[], run) <==> NeverSpoils(map[], run)
    ensures NeverSpoils(map[], run) ==> forall k :: Present(After(map[], run), k) ==>
      var d := After(map[], run)[k]; var items := d.meta.value.items;
      && Intact(d) && 0 < |items| <= MAX_COUNT && Total(items) <= MAX_TOTAL
      && d.files.Keys == Names(items)
      && forall i :: 0 <= i < |items| ==> d.files[items[i].name] == items[i].content && items[i].content.size <= MAX_FILE
  {
    RunInv(map[], run);
  }

  // The set lists an item whose file is gone.
  predicate Lost(s: Store, k: SetId, item: Item) {
    k in s &&
      match s[k]
      case Dir(Some(m), files, _) => item in m.items && item.name !in files && item.name.id == item.id
      case _ => false
  }

  // The set does not expire during the run.
  predicate Unexpired(s: Store, run: seq<Action>, k: SetId)
    decreases |run|
  {
    run != [] && Present(s, k) ==> InTime(s, k, run[0]) && Unexpired(Apply(s, run[0]), run[1..], k)
  }

  lemma LossSurvivesAdd(s: Store, u: Upload, now: int, disk: Disk, item: Item)
    requires Lost(s, u.setId, item) && IndexOf(s[u.setId].meta.value.items, u.id).None? && !Stale(s[u.setId], now)
    ensures Lost(AddStep(s, u, now, disk).0, u.setId, item)
  {
    var items := s[u.setId].meta.value.items;
    var i :| 0 <= i < |items| && items[i] == item;
    IndexOfFinds(items, u.id);
    assert items[i].id != u.id;
    assert (items + [Item(u.id, Name(|items|, u.id), u.content)])[i] == item;
  }

  lemma WithoutKeeps(items: seq<Item>, j: nat, item: Item)
    requires j < |items| && item in items && items[j] != item
    ensures item in Without(items, j)
  {
    var i :| 0 <= i < |items| && items[i] == item;
    WithoutAt(items, j, if i < j then i else i - 1);
  }

  lemma LossSurvivesRemove(s: Store, k: SetId, scope: Scope, id: ItemId, now: int, disk: Disk, item: Item)
    requires Lost(s, k, item) && !Stale(s[k], now)
    ensures Lost(RemoveStep(s, k, scope, id, now, disk).0, k, item)
  {
    if RemovalFault(Swept(s, now), k, scope, id).None? {
      var items := s[k].meta.value.items;
      var j := IndexOf(items, id).value;
      assert items[j] != item;
      WithoutKeeps(items, j, item);
    }
  }

  lemma LossStays(s: Store, a: Action, k: SetId, item: Item)
    requires Lost(s, k, item) && Proper(s, a) && InTime(s, k, a)
    ensures Lost(Apply(s, a), k, item)
  {
    if a.Add? && a.u.setId == k {
      LossSurvivesAdd(s, a.u, a.now, a.disk, item);
    } else if a.Remove? && a.k == k {
      LossSurvivesRemove(s, k, a.scope, a.id, a.now, a.disk, item);
    } else if a.Migrate? {
      MovesKeep(s, a.rewrites);
      assert SameButProject(s[k], Apply(s, a)[k]);
    }
  }

  lemma {:induction false} LossIsForGood(s: Store, run: seq<Action>, k: SetId, item: Item)
    requires Lost(s, k, item) && ProperRun(s, run) && Unexpired(s, run, k)
    ensures Lost(After(s, run), k, item)
    decreases |run|
  {
    if run != [] {
      LossStays(s, run[0], k, item);
      LossIsForGood(Apply(s, run[0]), run[1..], k, item);
    }
  }

  lemma LostIsIncomplete(s: Store, k: SetId, item: Item)
    requires Lost(s, k, item)
    ensures !Intact(s[k])
  {
    var items := s[k].meta.value.items;
    var i :| 0 <= i < |items| && items[i] == item;
    assert items[i].name in Names(items);
  }

  /** An interrupted removal spoils its set for good: until it expires, whatever is done to it, it lists a
      file it does not have, and nobody can claim it. */
  lemma InterruptedRemovalSpoilsTheSet(s: Store, run: seq<Action>, a: Action)
    requires Inv(s) && a.Remove? && Spoils(s, a)
    requires ProperRun(Apply(s, a), run) && Unexpired(Apply(s, a), run, a.k)
    ensures Present(After(Apply(s, a), run), a.k) && !Intact(After(Apply(s, a), run)[a.k])
    ensures forall scope, op, now, disk :: ClaimStep(After(Apply(s, a), run), a.k, scope, op, now, disk).1 != Done
  {
    var items := Swept(s, a.now)[a.k].meta.value.items;
    IndexOfFinds(items, a.id);
    LossIsForGood(Apply(s, a), run, a.k, items[IndexOf(items, a.id).value]);
    LostIsIncomplete(After(Apply(s, a), run), a.k, items[IndexOf(items, a.id).value]);
  }

  // ---- Claims ---------------------------------------------------------------------------

  // The set is claimed by `op` and holds these items and files.
  predicate HeldBy(s: Store, k: SetId, op: Op, items: seq<Item>, files: map<Name, Content>) {
    k in s &&
      match s[k]
      case Dir(Some(m), held, _) => m.claimedBy == Some(op) && m.items == items && held == files
      case _ => false
  }

  // The step happens before the set expires.
  predicate InTime(s: Store, k: SetId, a: Action)
    requires Present(s, k)
  {
    var now := match a
      case Add(_, now, _) => now
      case Remove(_, _, _, now, _) => now
      case Claim(_, _, _, now, _) => now
      case Sweep(now) => now
      case Release(_, _, _) => s[k].meta.value.expires - 1
      case Migrate(_) => s[k].meta.value.expires - 1;
    now < s[k].meta.value.expires
  }

  predicate ReleasedBy(a: Action, k: SetId, op: Op) { a.Release? && a.k == k && a.op == op }

  lemma ClaimSurvives(s: Store, a: Action, k: SetId, op: Op, items: seq<Item>, files: map<Name, Content>)
    requires HeldBy(s, k, op, items, files) && InTime(s, k, a) && !ReleasedBy(a, k, op) && OnlyMoves(a)
    ensures HeldBy(Apply(s, a), k, op, items, files)
  {
    if a.Migrate? {
      MovesKeep(s, a.rewrites);
      assert SameButProject(s[k], Apply(s, a)[k]);
    }
  }

  predicate Undisturbed(s: Store, run: seq<Action>, k: SetId, op: Op)
    decreases |run|
  {
    run != [] ==>
      && Present(s, k) && InTime(s, k, run[0]) && !ReleasedBy(run[0], k, op) && OnlyMoves(run[0])
      && Undisturbed(Apply(s, run[0]), run[1..], k, op)
  }

  /** A claimed set keeps its claimant, its listing and its files through any run, until that claimant
      releases it or it expires. */
  lemma {:induction false} ClaimedUntilReleased(s: Store, run: seq<Action>, k: SetId, op: Op, items: seq<Item>,
                                                files: map<Name, Content>)
    requires HeldBy(s, k, op, items, files) && Undisturbed(s, run, k, op)
    ensures HeldBy(After(s, run), k, op, items, files)
    decreases |run|
  {
    if run != [] {
      ClaimSurvives(s, run[0], k, op, items, files);
      ClaimedUntilReleased(Apply(s, run[0]), run[1..], k, op, items, files);
    }
  }

  /** While one task holds a set, nobody else claims it, adds to it or removes from it. */
  lemma HeldSetsAreClosed(s: Store, k: SetId, op: Op, scope: Scope, other: Op, id: ItemId, u: Upload, now: int, disk: Disk)
    requires Present(s, k) && s[k].meta.value.claimedBy == Some(op) && other != op && u.setId == k
    ensures ClaimStep(s, k, scope, other, now, disk).1 != Done
    ensures RemoveStep(s, k, scope, id, now, disk).1 != Done
    ensures now < s[k].meta.value.expires ==> AddStep(s, u, now, disk).1 != Done
    ensures ReleaseStep(s, k, other, disk).1 != Done
  {
  }

  // ---- Migrating a project's identity ---------------------------------------------------

  datatype Rewrite = Rewrite(k: SetId, expected: Meta, replacement: Meta)

  function Moved(m: Meta, to: Project): Meta { m.(scope := m.scope.(project := to)) }

  predicate Owned(d: Dir, project: Project) { d.meta.Some? && d.meta.value.scope.project == project }

  // What a migration must find in every directory, whoever owns it.
  predicate Readable(k: SetId, d: Dir) { Intact(d) && d.meta.value.setId == k }

  // The directories in the order the file system lists them.
  predicate Listing(s: Store, order: seq<SetId>) {
    && (forall i :: 0 <= i < |order| ==> order[i] in s) && (forall k :: k in s ==> k in order)
    && forall i, j :: 0 <= i < j < |order| ==> order[i] != order[j]
  }

  function Rewrites(s: Store, order: seq<SetId>, from: Project, to: Project): seq<Rewrite>
    requires forall k :: k in order ==> k in s
  {
    if order == [] then []
    else
      var k := order[|order| - 1];
      var before := Rewrites(s, order[..|order| - 1], from, to);
      if Owned(s[k], from) then before + [Rewrite(k, s[k].meta.value, Moved(s[k].meta.value, to))] else before
  }

  predicate AllReadable(s: Store, order: seq<SetId>)
    requires forall k :: k in order ==> k in s
  {
    forall i :: 0 <= i < |order| ==> Readable(order[i], s[order[i]])
  }

  // None when the migration is refused.
  function Prepare(s: Store, order: seq<SetId>, from: Project, to: Project): Option<seq<Rewrite>>
    requires Listing(s, order)
  {
    if from == to then Some([])
    else if |order| > MAX_SETS then None
    else if !AllReadable(s, order) then None
    else Some(Rewrites(s, order, from, to))
  }

  function Overwritten(s: Store, k: SetId, m: Meta): Store
    requires k in s
  {
    s[k := s[k].(meta := Some(m))]
  }

  // A rewrite already made is passed over; one that finds anything else stops the migration.
  function ApplyRewrites(s: Store, rs: seq<Rewrite>): (Store, bool)
    decreases |rs|
  {
    if rs == [] then (s, true)
    else if !Present(s, rs[0].k) then (s, false)
    else if s[rs[0].k].meta.value == rs[0].replacement then ApplyRewrites(s, rs[1..])
    else if s[rs[0].k].meta.value != rs[0].expected then (s, false)
    else ApplyRewrites(Overwritten(s, rs[0].k, rs[0].replacement), rs[1..])
  }

  function MovedDir(d: Dir, from: Project, to: Project): Dir {
    if Owned(d, from) then d.(meta := Some(Moved(d.meta.value, to))) else d
  }

  // The migrated store: every set of the old project belongs to the new one, nothing else differs.
  function Migrated(s: Store, from: Project, to: Project): Store { map k | k in s :: MovedDir(s[k], from, to) }

  // Some of the old project's sets have been moved.
  predicate Partly(s: Store, t: Store, from: Project, to: Project) {
    t.Keys == s.Keys && forall k :: k in s ==> t[k] == s[k] || t[k] == MovedDir(s[k], from, to)
  }

  // A rewrite prepared from `s`.
  predicate Prepared(s: Store, r: Rewrite, from: Project, to: Project) {
    && r.k in s && Owned(s[r.k], from)
    && r.expected == s[r.k].meta.value && r.replacement == Moved(s[r.k].meta.value, to)
  }

  predicate AllPrepared(s: Store, rs: seq<Rewrite>, from: Project, to: Project) {
    forall i :: 0 <= i < |rs| ==> Prepared(s, rs[i], from, to)
  }

  lemma {:induction false} RewritesArePrepared(s: Store, order: seq<SetId>, from: Project, to: Project)
    requires forall k :: k in order ==> k in s
    ensures AllPrepared(s, Rewrites(s, order, from, to), from, to)
    ensures forall k :: k in order && Owned(s[k], from) ==> exists i :: 0 <= i < |Rewrites(s, order, from, to)| && Rewrites(s, order, from, to)[i].k == k
  {
    if order != [] {
      var front, last := order[..|order| - 1], order[|order| - 1];
      RewritesArePrepared(s, front, from, to);
      var before, rs := Rewrites(s, front, from, to), Rewrites(s, order, from, to);
      forall k | k in order && Owned(s[k], from) ensures exists i :: 0 <= i < |rs| && rs[i].k == k {
        if k == last {
          assert rs[|rs| - 1].k == k;
        } else {
          assert k in front;
          var i :| 0 <= i < |before| && before[i].k == k;
          assert rs[i] == before[i];
        }
      }
    }
  }

  /** What a preparation collects is moves, so a migration applied later, to whatever has become of the
      store, is a step of the runs above. */
  lemma PreparedAreMoves(s: Store, order: seq<SetId>, from: Project, to: Project)
    requires Listing(s, order) && Prepare(s, order, from, to).Some?
    ensures OnlyMoves(Migrate(Prepare(s, order, from, to).value))
  {
    var rs := Prepare(s, order, from, to).value;
    if from != to { RewritesArePrepared(s, order, from, to); }
    forall r | r in rs ensures IsMove(r) {
      var i :| 0 <= i < |rs| && rs[i] == r;
      assert Prepared(s, rs[i], from, to);
    }
  }

  predicate Touches(rs: seq<Rewrite>, k: SetId) { exists i :: 0 <= i < |rs| && rs[i].k == k }

  lemma {:induction false} RewritesMove(s: Store, t: Store, rs: seq<Rewrite>, from: Project, to: Project)
    requires Partly(s, t, from, to) && AllPrepared(s, rs, from, to)
    ensures ApplyRewrites(t, rs).1 && Partly(s, ApplyRewrites(t, rs).0, from, to)
    ensures forall k :: k in s ==>
      ApplyRewrites(t, rs).0[k] == if Touches(rs, k) then MovedDir(s[k], from, to) else t[k]
    decreases |rs|
  {
    if rs != [] {
      var r, rest := rs[0], rs[1..];
      assert Prepared(s, r, from, to);
      assert forall i :: 0 <= i < |rest| ==> rest[i] == rs[i + 1];
      var next := if t[r.k].meta.value == r.replacement then t else Overwritten(t, r.k, r.replacement);
      assert next[r.k] == MovedDir(s[r.k], from, to);
      RewritesMove(s, next, rest, from, to);
      forall k | k in s ensures Touches(rs, k) <==> k == r.k || Touches(rest, k) {
        if Touches(rest, k) {
          var i :| 0 <= i < |rest| && rest[i].k == k;
          assert rs[i + 1].k == k;
        }
      }
    }
  }

  /** Preparing and applying moves every set of the old project, and nothing else. */
  lemma MigrationMovesTheProject(s: Store, order: seq<SetId>, from: Project, to: Project)
    requires from != to && Listing(s, order) && Prepare(s, order, from, to).Some?
    ensures ApplyRewrites(s, Prepare(s, order, from, to).value) == (Migrated(s, from, to), true)
  {
    var rs := Prepare(s, order, from, to).value;
    RewritesArePrepared(s, order, from, to);
    RewritesMove(s, s, rs, from, to);
    forall k | k in s ensures ApplyRewrites(s, rs).0[k] == MovedDir(s[k], from, to) {
      if Owned(s[k], from) { assert Touches(rs, k); }
    }
    assert ApplyRewrites(s, rs).0 == Migrated(s, from, to);
  }

  lemma PartlyMigratesTheSame(s: Store, t: Store, from: Project, to: Project)
    requires from != to && Partly(s, t, from, to)
    ensures Migrated(t, from, to) == Migrated(s, from, to)
  {
  }

  lemma PartlyIsReadable(s: Store, t: Store, order: seq<SetId>, from: Project, to: Project)
    requires from != to && Partly(s, t, from, to) && Listing(s, order) && Prepare(s, order, from, to).Some?
    ensures forall later :: Listing(t, later) && |later| <= MAX_SETS ==> Prepare(t, later, from, to).Some?
  {
    forall k | k in s ensures Readable(k, t[k]) {
      var i :| 0 <= i < |order| && order[i] == k;
      assert Readable(order[i], s[order[i]]);
    }
  }

  lemma ListingsAreAsLong(s: Store, order: seq<SetId>)
    requires Listing(s, order)
    ensures |order| == |s.Keys|
  {
    DistinctCount(order, s.Keys);
  }

  lemma {:induction false} DistinctCount(order: seq<SetId>, ks: set<SetId>)
    requires forall i, j :: 0 <= i < j < |order| ==> order[i] != order[j]
    requires forall k :: k in ks <==> k in order
    ensures |order| == |ks|
  {
    if order == [] {
      assert ks == {};
    } else {
      var front, last := order[..|order| - 1], order[|order| - 1];
      assert last in order && order == front + [last];
      forall k ensures k in ks - {last} <==> k in front {
        if k in front {
          var i :| 0 <= i < |front| && front[i] == k;
          assert order[i] == k;
        }
      }
      DistinctCount(front, ks - {last});
    }
  }

  /** An interrupted migration can be finished: stop it after any number of rewrites, prepare it again
      with the directories in any order, and applying that reaches the state an uninterrupted migration
      reaches. */
  lemma InterruptedMigrationCompletes(s: Store, order: seq<SetId>, from: Project, to: Project, n: nat, again: seq<SetId>)
    requires from != to && Listing(s, order) && Prepare(s, order, from, to).Some?
    requires n <= |Prepare(s, order, from, to).value|
    requires Listing(ApplyRewrites(s, Prepare(s, order, from, to).value[..n]).0, again)
    ensures var rs := Prepare(s, order, from, to).value;
      var broken := ApplyRewrites(s, rs[..n]).0;
      && Prepare(broken, again, from, to).Some?
      && ApplyRewrites(broken, Prepare(broken, again, from, to).value) == ApplyRewrites(s, rs) == (Migrated(s, from, to), true)
  {
    var rs := Prepare(s, order, from, to).value;
    RewritesArePrepared(s, order, from, to);
    RewritesMove(s, s, rs[..n], from, to);
    var broken := ApplyRewrites(s, rs[..n]).0;
    ListingsAreAsLong(s, order);
    ListingsAreAsLong(broken, again);
    PartlyIsReadable(s, broken, order, from, to);
    MigrationMovesTheProject(broken, again, from, to);
    MigrationMovesTheProject(s, order, from, to);
    PartlyMigratesTheSame(s, broken, from, to);
  }

  /** At every moment of a migration the other projects' sets, and every set's files, chat, client,
      claim and listing, are what they were. */
  lemma MigrationTouchesOnlyTheProject(s: Store, order: seq<SetId>, from: Project, to: Project, n: nat, k: SetId)
    requires from != to && Listing(s, order) && Prepare(s, order, from, to).Some?
    requires n <= |Prepare(s, order, from, to).value| && k in s
    ensures var broken := ApplyRewrites(s, Prepare(s, order, from, to).value[..n]).0;
      && broken.Keys == s.Keys && broken[k].files == s[k].files
      && (!Owned(s[k], from) ==> broken[k] == s[k])
      && (broken[k] == s[k] || (Owned(s[k], from) && broken[k].meta == Some(Moved(s[k].meta.value, to))))
  {
    RewritesArePrepared(s, order, from, to);
    RewritesMove(s, s, Prepare(s, order, from, to).value[..n], from, to);
  }

  /** A set that changed since the migration was prepared stops it and is not overwritten. */
  lemma {:induction false} ChangedSetsAreNotOverwritten(s: Store, rs: seq<Rewrite>, i: nat)
    requires i < |rs| && Present(s, rs[i].k)
    requires s[rs[i].k].meta.value != rs[i].expected && s[rs[i].k].meta.value != rs[i].replacement
    requires forall a, b :: 0 <= a < b < |rs| ==> rs[a].k != rs[b].k
    ensures !ApplyRewrites(s, rs).1 && Present(ApplyRewrites(s, rs).0, rs[i].k)
      && ApplyRewrites(s, rs).0[rs[i].k] == s[rs[i].k]
    decreases |rs|
  {
    if i > 0 && Present(s, rs[0].k) {
      var rest := rs[1..];
      assert rest[i - 1] == rs[i] && rs[0].k != rs[i].k;
      assert forall a, b :: 0 <= a < b < |rest| ==> rest[a] == rs[a + 1] && rest[b] == rs[b + 1];
      if s[rs[0].k].meta.value == rs[0].replacement {
        ChangedSetsAreNotOverwritten(s, rest, i - 1);
      } else if s[rs[0].k].meta.value == rs[0].expected {
        ChangedSetsAreNotOverwritten(Overwritten(s, rs[0].k, rs[0].replacement), rest, i - 1);
      }
    }
  }

  // ---- The store ------------------------------------------------------------------------

  // Writing the uploaded file beside the `items` already there.
  method WriteUpload(items: seq<Item>, u: Upload, disk: Disk) returns (fault: Option<Failure>)
    ensures fault ==
      if disk.ReadFails? then Some(NotReadable)
      else if u.content.size > MAX_FILE then Some(FileTooLarge)
      else if Total(items) + u.content.size > MAX_TOTAL then Some(TotalTooLarge)
      else if !u.valid then Some(BadContent)
      else None
  {
    if disk.ReadFails? { return Some(NotReadable); }
    var copied, fits := CopyUpload(u.content.size);
    if !fits { return Some(FileTooLarge); }
    var total := SumSizes(items);
    if total + copied > MAX_TOTAL { return Some(TotalTooLarge); }
    return if u.valid then None else Some(BadContent);
  }

  // Copying an upload chunk by chunk, given up as soon as it is too large.
  method CopyUpload(size: nat) returns (copied: nat, ok: bool)
    ensures ok <==> size <= MAX_FILE
    ensures ok ==> copied == size
  {
    copied := 0;
    while copied < size
      invariant copied <= size && copied <= MAX_FILE
    {
      copied := copied + if size - copied < CHUNK then size - copied else CHUNK;
      if copied > MAX_FILE { return copied, false; }
    }
    return copied, true;
  }

  method SumSizes(items: seq<Item>) returns (total: nat)
    ensures total == Total(items)
  {
    total := 0;
    for i := 0 to |items|
      invariant total == Total(items[..i])
    {
      assert items[..i + 1][..i] == items[..i];
      total := total + items[i].content.size;
    }
    assert items[..|items|] == items;
  }

  method Verify(d: Dir) returns (ok: bool)
    ensures ok == Intact(d)
  {
    if d.meta.None? { return false; }
    var items := d.meta.value.items;
    if |items| > MAX_COUNT || d.files.Keys != Names(items) { return false; }
    var total := 0;
    for i := 0 to |items|
      invariant total == Total(items[..i])
      invariant forall j :: 0 <= j < i ==> d.files[items[j].name] == items[j].content
    {
      Listed(items, i);
      if d.files[items[i].name] != items[i].content { return false; }
      assert items[..i + 1][..i] == items[..i];
      total := total + items[i].content.size;
    }
    assert items[..|items|] == items;
    return total <= MAX_TOTAL;
  }

  method CheckDir(k: SetId, d: Dir) returns (ok: bool)
    ensures ok == Readable(k, d)
  {
    ok := Verify(d);
    ok := ok && d.meta.value.setId == k;
  }

  method FindItem(items: seq<Item>, id: ItemId) returns (at: Option<nat>)
    ensures at == IndexOf(items, id)
  {
    IndexOfFinds(items, id);
    for i := 0 to |items|
      invariant forall j :: 0 <= j < i ==> items[j].id != id
    {
      if items[i].id == id { return Some(i); }
    }
    return None;
  }

  // One more directory of the listing.
  lemma RewritesGrow(s: Store, order: seq<SetId>, i: nat, from: Project, to: Project)
    requires i < |order| && forall k :: k in order ==> k in s
    ensures forall k :: k in order[..i + 1] ==> k in s
    ensures Rewrites(s, order[..i + 1], from, to) ==
      if Owned(s[order[i]], from) then
        Rewrites(s, order[..i], from, to) + [Rewrite(order[i], s[order[i]].meta.value, Moved(s[order[i]].meta.value, to))]
      else Rewrites(s, order[..i], from, to)
  {
    assert order[..i + 1][..i] == order[..i];
  }

  method CollectRewrites(s: Store, order: seq<SetId>, from: Project, to: Project) returns (rs: Option<seq<Rewrite>>)
    requires forall k :: k in order ==> k in s
    ensures rs == if AllReadable(s, order) then Some(Rewrites(s, order, from, to)) else None
  {
    var made: seq<Rewrite> := [];
    for i := 0 to |order|
      invariant forall j :: 0 <= j < i ==> Readable(order[j], s[order[j]])
      invariant made == Rewrites(s, order[..i], from, to)
    {
      var d := s[order[i]];
      var fit := CheckDir(order[i], d);
      if !fit { return None; }
      RewritesGrow(s, order, i, from, to);
      if d.meta.value.scope.project == from {
        made := made + [Rewrite(order[i], d.meta.value, Moved(d.meta.value, to))];
      }
    }
    assert order[..|order|] == order;
    return Some(made);
  }

  class ChatAttachmentStore {
    var dirs: Store

    method SweepExpired(now: int)
      modifies this
      ensures dirs == Swept(old(dirs), now)
    {
      var todo := dirs.Keys;
      while todo != {}
        invariant dirs.Keys <= old(dirs).Keys && todo <= dirs.Keys
        invariant forall k :: k in dirs ==> dirs[k] == old(dirs)[k] && (k !in todo ==> !Stale(dirs[k], now))
        invariant forall k :: k in old(dirs) && k !in dirs ==> Stale(old(dirs)[k], now)
        decreases |todo|
      {
        var k :| k in todo;
        todo := todo - {k};
        if Stale(dirs[k], now) { dirs := dirs - {k}; }
      }
    }

    method AddFile(u: Upload, now: int, disk: Disk) returns (answer: Answer)
      modifies this
      ensures (dirs, answer) == AddStep(old(dirs), u, now, disk)
    {
      SweepExpired(now);
      if u.setId in dirs && dirs[u.setId].meta.None? { return Refused(AlreadyThere); }
      var existing := u.setId in dirs;
      var d := if existing then dirs[u.setId] else NewDir(u, now);
      var m := d.meta.value;
      if m.scope != u.scope { return Refused(WrongScope); }
      if m.claimedBy.Some? { return Refused(AlreadySent); }
      if |m.items| >= MAX_COUNT { return Refused(TooMany); }
      if disk.Dies? {
        dirs := dirs[u.setId := Dir(if existing then d.meta else None, d.files[Name(|m.items|, u.id) := disk.left], d.modified)];
        return Died;
      }
      var fault := WriteUpload(m.items, u, disk);
      if fault.Some? {
        if disk.UnlinkFails? {
          dirs := dirs[u.setId := Dir(if existing then d.meta else None, d.files[Name(|m.items|, u.id) := disk.left], d.modified)];
          return Refused(NotDeleted);
        }
        if !existing && disk.TreeStays? { dirs := dirs[u.setId := Dir(None, map[], now)]; }
        return Refused(fault.value);
      }
      if disk.WriteFails? {
        if !existing { dirs := dirs[u.setId := Dir(None, map[], now)]; }
        return Refused(NotWritten);
      }
      var item := Item(u.id, Name(|m.items|, u.id), u.content);
      dirs := dirs[u.setId := Dir(Some(m.(items := m.items + [item])), d.files[item.name := item.content], d.modified)];
      return Done;
    }

    method RemoveFile(k: SetId, scope: Scope, id: ItemId, now: int, disk: Disk) returns (answer: Answer)
      modifies this
      ensures (dirs, answer) == RemoveStep(old(dirs), k, scope, id, now, disk)
    {
      SweepExpired(now);
      if k !in dirs || dirs[k].meta.None? { return Refused(NotFound); }
      var m := dirs[k].meta.value;
      if m.scope != scope { return Refused(WrongScope); }
      if m.claimedBy.Some? { return Refused(AlreadySent); }
      var at := FindItem(m.items, id);
      IndexOfFinds(m.items, id);
      if at.None? { return Refused(NoSuchItem); }
      if m.items[at.value].name !in dirs[k].files { return Refused(NotReadable); }
      var rest := m.items[..at.value] + m.items[at.value + 1..];
      ghost var swept := dirs;
      if disk.UnlinkFails? { return Refused(NotDeleted); }
      dirs := dirs[k := dirs[k].(files := dirs[k].files - {m.items[at.value].name})];
      if disk.Dies? { return Died; }
      if rest == [] {
        if disk.TreeStays? { return Refused(NotDeleted); }
        dirs := dirs - {k};
        assert dirs == swept - {k};
        return Done;
      }
      if disk.WriteFails? { return Refused(NotWritten); }
      dirs := dirs[k := dirs[k].(meta := Some(m.(items := rest)))];
      assert dirs == swept[k := Removed(swept[k], at.value, disk)];
      return Done;
    }

    method ClaimSet(k: SetId, scope: Scope, op: Op, now: int, disk: Disk) returns (answer: Answer)
      modifies this
      ensures (dirs, answer) == ClaimStep(old(dirs), k, scope, op, now, disk)
    {
      SweepExpired(now);
      if k !in dirs || dirs[k].meta.None? { return Refused(NotFound); }
      var m := dirs[k].meta.value;
      if m.scope != scope { return Refused(WrongScope); }
      if m.items == [] { return Refused(EmptySet); }
      if m.claimedBy.Some? && m.claimedBy.value != op { return Refused(AlreadySent); }
      var whole := Verify(dirs[k]);
      if !whole { return Refused(Incomplete); }
      if disk.WriteFails? { return Refused(NotWritten); }
      if disk.Dies? { return Died; }
      dirs := dirs[k := dirs[k].(meta := Some(m.(claimedBy := Some(op), expires := now + RETENTION)))];
      return Done;
    }

    method ReleaseSet(k: SetId, op: Op, disk: Disk) returns (answer: Answer)
      modifies this
      ensures (dirs, answer) == ReleaseStep(old(dirs), k, op, disk)
    {
      if k !in dirs || dirs[k].meta.None? { return Refused(NotFound); }
      if dirs[k].meta.value.claimedBy != Some(op) { return Refused(NotClaimed); }
      if disk.WriteFails? { return Refused(NotWritten); }
      if disk.Dies? { return Died; }
      dirs := dirs[k := dirs[k].(meta := Some(dirs[k].meta.value.(claimedBy := None)))];
      return Done;
    }

    method PrepareMigration(order: seq<SetId>, from: Project, to: Project) returns (rs: Option<seq<Rewrite>>)
      requires Listing(dirs, order)
      ensures rs == Prepare(dirs, order, from, to)
    {
      if from == to { return Some([]); }
      if |order| > MAX_SETS { return None; }
      rs := CollectRewrites(dirs, order, from, to);
    }

    method ApplyMigration(rs: seq<Rewrite>) returns (ok: bool)
      modifies this
      ensures (dirs, ok) == ApplyRewrites(old(dirs), rs)
    {
      for i := 0 to |rs|
        invariant ApplyRewrites(dirs, rs[i..]) == ApplyRewrites(old(dirs), rs)
      {
        assert rs[i..][1..] == rs[i + 1..];
        var r := rs[i];
        if r.k !in dirs || dirs[r.k].meta.None? { return false; }
        var current := dirs[r.k].meta.value;
        if current != r.replacement {
          if current != r.expected { return false; }
          dirs := dirs[r.k := dirs[r.k].(meta := Some(r.replacement))];
        }
      }
      return true;
    }
  }
}
