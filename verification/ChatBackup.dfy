/** Backup and restore of a canonical chat file (src/rcp/service.py, `iter_canonical_chat_backup_prefix`,
    `_validate_stored_chat_record` and `restore_canonical_chat`).

    A chat is a file of JSON lines.  The backup yields the complete lines whose operations the database
    snapshot knows, checks that all of them belong to one chat, and stops at the first line that is cut
    off or names an unknown operation.  Reading a line as a record, canonical identities, time stamps,
    chat paths and the hash are parameters. */
module ChatBackup {
  import opened Bytes
  import opened Options

  const NEWLINE: Byte := 10

  type Project = nat
  type Name = string

  datatype Scope = NodeScope | ProjectScope
  datatype Role = User | Assistant | Neither

  datatype Record = Record(session: string, uuid: string, timestamp: string, kind: Role, role: Role, scope: Scope,
                           node: Option<string>, operation: Option<string>)

  /** What the code asks of its libraries: a record for a well-formed line, the canonical form of an
      identity, whether a time stamp parses with a zone, and the path of a chat. */
  datatype Library = Library(parse: seq<Byte> -> Option<Record>, canonical: string -> Option<string>,
                             zoned: string -> bool, place: (string, Scope, Option<string>) -> Name)

  datatype Ending = Complete | Incomplete | UnknownOperation | Malformed | OperationMalformed | OtherProject | Changed

  predicate Stops(e: Ending) { e.Complete? || e.Incomplete? || e.UnknownOperation? }

  // ---- One record -----------------------------------------------------------------------

  predicate Identified(lib: Library, r: Record) {
    && lib.canonical(r.session) == Some(r.session) && lib.canonical(r.uuid) == Some(r.uuid)
    && lib.zoned(r.timestamp) && r.kind == r.role
  }

  predicate SameChat(r: Record, anchor: Record) {
    r.session == anchor.session && r.scope == anchor.scope && r.node == anchor.node
  }

  predicate ScopeFits(anchor: Record) {
    if anchor.scope.NodeScope? then anchor.node.Some? && anchor.node.value != "" else anchor.node.None?
  }

  predicate ValidRecord(lib: Library, name: Name, r: Record, first: Option<Record>) {
    var anchor := if first.Some? then first.value else r;
    && Identified(lib, r) && SameChat(r, anchor) && ScopeFits(anchor)
    && name == lib.place(anchor.session, anchor.scope, anchor.node)
  }

  // How a record's operation stands: None when it may be yielded.
  function OperationFault(lib: Library, project: Project, known: map<string, Project>, r: Record): Option<Ending> {
    if r.operation.None? then None
    else if lib.canonical(r.operation.value) != Some(r.operation.value) then Some(OperationMalformed)
    else if r.operation.value !in known then Some(UnknownOperation)
    else if known[r.operation.value] != project then Some(OtherProject)
    else None
  }

  // ---- Lines ----------------------------------------------------------------------------

  // A complete line: one newline, at the end.
  predicate IsLine(line: seq<Byte>) {
    line != [] && line[|line| - 1] == NEWLINE && forall i :: 0 <= i < |line| - 1 ==> line[i] != NEWLINE
  }

  // What a bounded readline returns: up to and with the first newline, or everything.
  function FirstLine(bs: seq<Byte>): (line: seq<Byte>)
    ensures line <= bs && (bs != [] ==> line != [])
  {
    if bs == [] then [] else if bs[0] == NEWLINE then [bs[0]] else [bs[0]] + FirstLine(bs[1..])
  }

  lemma {:induction false} FirstLineIsLine(bs: seq<Byte>)
    ensures NEWLINE in bs ==> IsLine(FirstLine(bs))
    ensures NEWLINE !in bs ==> FirstLine(bs) == bs && !IsLine(FirstLine(bs))
  {
    if bs != [] && bs[0] != NEWLINE {
      FirstLineIsLine(bs[1..]);
      assert bs == [bs[0]] + bs[1..];
      var rest := FirstLine(bs[1..]);
      if NEWLINE in bs {
        forall i | 0 <= i < |rest| ensures i < |rest| - 1 ==> ([bs[0]] + rest)[i] != NEWLINE {
          if i > 0 { assert ([bs[0]] + rest)[i] == rest[i - 1]; }
        }
      }
    }
  }

  lemma {:induction false} LineComesFirst(line: seq<Byte>, rest: seq<Byte>)
    requires IsLine(line)
    ensures FirstLine(line + rest) == line
  {
    if |line| == 1 {
      assert (line + rest)[0] == NEWLINE;
    } else {
      assert (line + rest)[1..] == line[1..] + rest;
      assert IsLine(line[1..]) by {
        forall i | 0 <= i < |line| - 2 ensures line[1..][i] != NEWLINE { assert line[1..][i] == line[i + 1]; }
      }
      LineComesFirst(line[1..], rest);
      assert line == [line[0]] + line[1..];
    }
  }

  function Join(lines: seq<seq<Byte>>): seq<Byte> {
    if lines == [] then [] else lines[0] + Join(lines[1..])
  }

  // ---- The prefix -----------------------------------------------------------------------

  /** One backup's fixed surroundings: the chat's file name, its project, and the operations of the
      database snapshot with their projects. */
  datatype Site = Site(lib: Library, name: Name, project: Project, known: map<string, Project>)

  // The lines yielded from the remaining bytes, given the chat's first record, and how it ends.
  function Yielded(site: Site, bs: seq<Byte>, first: Option<Record>): (seq<seq<Byte>>, Ending)
    decreases |bs|
  {
    if bs == [] then ([], Complete)
    else
      var line := FirstLine(bs);
      if line[|line| - 1] != NEWLINE then ([], Incomplete)
      else
        var r := site.lib.parse(line);
        if r.None? || !ValidRecord(site.lib, site.name, r.value, first) then ([], Malformed)
        else
          var fault := OperationFault(site.lib, site.project, site.known, r.value);
          if fault.Some? then ([], fault.value)
          else
            var (more, ending) := Yielded(site, bs[|line|..], if first.Some? then first else r);
            ([line] + more, ending)
  }

  // A line the backup may yield after the chat's first record.
  predicate Yieldable(site: Site, line: seq<Byte>, first: Option<Record>) {
    && IsLine(line) && site.lib.parse(line).Some?
    && ValidRecord(site.lib, site.name, site.lib.parse(line).value, first)
    && OperationFault(site.lib, site.project, site.known, site.lib.parse(line).value).None?
  }

  function NextFirst(site: Site, line: seq<Byte>, first: Option<Record>): Option<Record> {
    if first.Some? then first else site.lib.parse(line)
  }

  // Lines that may be yielded one after the other.
  predicate AllYieldable(site: Site, lines: seq<seq<Byte>>, first: Option<Record>)
    decreases |lines|
  {
    lines != [] ==>
      Yieldable(site, lines[0], first) && AllYieldable(site, lines[1..], NextFirst(site, lines[0], first))
  }

  // The chat's first record after some lines.
  function Anchor(site: Site, lines: seq<seq<Byte>>, first: Option<Record>): Option<Record> {
    if first.Some? || lines == [] then first else site.lib.parse(lines[0])
  }

  // A complete first line that may not be yielded, and why.
  predicate Refused(site: Site, r: Option<Record>, first: Option<Record>, ending: Ending) {
    if r.None? || !ValidRecord(site.lib, site.name, r.value, first) then ending.Malformed?
    else OperationFault(site.lib, site.project, site.known, r.value) == Some(ending)
  }

  // Why nothing more is yielded from these bytes.
  predicate EndsHere(site: Site, bs: seq<Byte>, first: Option<Record>, ending: Ending) {
    if bs == [] then ending.Complete?
    else if NEWLINE !in bs then ending.Incomplete?
    else Refused(site, site.lib.parse(FirstLine(bs)), first, ending)
  }

  // One step: the first line is yielded and the backup goes on, or it ends here.
  lemma YieldStep(site: Site, bs: seq<Byte>, first: Option<Record>)
    ensures var line, (lines, ending) := FirstLine(bs), Yielded(site, bs, first);
      if bs != [] && Yieldable(site, line, first) then
        var (more, last) := Yielded(site, bs[|line|..], NextFirst(site, line, first));
        lines == [line] + more && ending == last
      else lines == [] && EndsHere(site, bs, first, ending)
  {
    FirstLineIsLine(bs);
  }

  lemma {:induction false} PrefixStructure(site: Site, bs: seq<Byte>, first: Option<Record>)
    ensures var (lines, ending) := Yielded(site, bs, first);
      && Join(lines) <= bs && AllYieldable(site, lines, first)
      && EndsHere(site, bs[|Join(lines)|..], Anchor(site, lines, first), ending)
    decreases |bs|
  {
    var line := FirstLine(bs);
    var (lines, ending) := Yielded(site, bs, first);
    YieldStep(site, bs, first);
    if bs != [] && Yieldable(site, line, first) {
      var rest, next := bs[|line|..], NextFirst(site, line, first);
      PrefixStructure(site, rest, next);
      var more := Yielded(site, rest, next).0;
      assert lines[1..] == more && lines[0] == line;
      assert bs == line + rest;
      assert rest[|Join(more)|..] == bs[|Join(lines)|..];
    } else {
      assert bs[|Join(lines)|..] == bs;
    }
  }

  /** The bytes yielded are a line-aligned prefix of the bytes observed, every line of it may be yielded,
      and what follows is exactly what stopped the backup: nothing, a line without its end, or a first
      line that is malformed or whose operation is malformed, unknown or another project's. */
  lemma BackupIsThePrefix(site: Site, bs: seq<Byte>)
    ensures var (lines, ending) := Yielded(site, bs, None);
      && Join(lines) <= bs && (forall i :: 0 <= i < |lines| ==> IsLine(lines[i]))
      && EndsHere(site, bs[|Join(lines)|..], Anchor(site, lines, None), ending)
  {
    PrefixStructure(site, bs, None);
    LinesAreLines(site, Yielded(site, bs, None).0, None);
  }

  lemma {:induction false} LinesAreLines(site: Site, lines: seq<seq<Byte>>, first: Option<Record>)
    requires AllYieldable(site, lines, first)
    ensures forall i :: 0 <= i < |lines| ==> IsLine(lines[i])
    decreases |lines|
  {
    if lines != [] { LinesAreLines(site, lines[1..], NextFirst(site, lines[0], first)); }
  }

  /** And nothing else is: lines that make up a prefix, may all be yielded, and are followed by what ends
      a backup are what it yields. */
  lemma {:induction false} PrefixIsUnique(site: Site, bs: seq<Byte>, lines: seq<seq<Byte>>, first: Option<Record>,
                                          ending: Ending)
    requires Join(lines) <= bs && AllYieldable(site, lines, first)
    requires EndsHere(site, bs[|Join(lines)|..], Anchor(site, lines, first), ending)
    ensures Yielded(site, bs, first) == (lines, ending)
    decreases |lines|
  {
    if lines == [] {
      assert bs[|Join(lines)|..] == bs;
      EndsAtOnce(site, bs, first, ending);
    } else {
      var line, rest := lines[0], bs[|lines[0]|..];
      CutLine(bs, lines);
      LineComesFirst(line, rest);
      PrefixIsUnique(site, rest, lines[1..], NextFirst(site, line, first), ending);
      YieldStep(site, bs, first);
    }
  }

  // The first of some lines that make up a prefix, cut off.
  lemma CutPart(a: seq<Byte>, t: seq<Byte>, bs: seq<Byte>)
    requires a + t <= bs
    ensures var rest := bs[|a|..]; bs == a + rest && t <= rest && rest[|t|..] == bs[|a + t|..]
  {
    var rest := bs[|a|..];
    assert forall i :: 0 <= i < |t| ==> rest[i] == (a + t)[|a| + i];
  }

  lemma CutLine(bs: seq<Byte>, lines: seq<seq<Byte>>)
    requires lines != [] && Join(lines) <= bs
    ensures var rest := bs[|lines[0]|..];
      && bs == lines[0] + rest && Join(lines[1..]) <= rest && rest[|Join(lines[1..])|..] == bs[|Join(lines)|..]
      && lines == [lines[0]] + lines[1..]
  {
    CutPart(lines[0], Join(lines[1..]), bs);
  }

  lemma EndsAtOnce(site: Site, bs: seq<Byte>, first: Option<Record>, ending: Ending)
    requires EndsHere(site, bs, first, ending)
    ensures Yielded(site, bs, first) == ([], ending)
  {
    FirstLineIsLine(bs);
  }

  predicate BelongsTo(site: Site, line: seq<Byte>, anchor: Record) {
    && site.lib.parse(line).Some? && SameChat(site.lib.parse(line).value, anchor)
    && Identified(site.lib, site.lib.parse(line).value)
    && (site.lib.parse(line).value.operation.Some? ==>
      site.lib.parse(line).value.operation.value in site.known
      && site.known[site.lib.parse(line).value.operation.value] == site.project)
  }

  lemma {:induction false} LinesBelong(site: Site, lines: seq<seq<Byte>>, first: Option<Record>)
    requires AllYieldable(site, lines, first)
    ensures lines != [] ==> Anchor(site, lines, first).Some?
    ensures forall i :: 0 <= i < |lines| ==> BelongsTo(site, lines[i], Anchor(site, lines, first).value)
    decreases |lines|
  {
    if lines != [] {
      LinesBelong(site, lines[1..], NextFirst(site, lines[0], first));
      forall i | 0 <= i < |lines| ensures BelongsTo(site, lines[i], Anchor(site, lines, first).value) {
        if i > 0 { assert lines[i] == lines[1..][i - 1]; }
      }
    }
  }

  /** Everything yielded is one chat's: every record has the first record's identity, scope and node,
      every operation named is one the snapshot gives to this project, and the file is where that chat
      belongs. */
  lemma OneChat(site: Site, bs: seq<Byte>)
    requires Yielded(site, bs, None).0 != []
    ensures var lines := Yielded(site, bs, None).0;
      && site.lib.parse(lines[0]).Some?
      && var anchor := site.lib.parse(lines[0]).value;
         && (forall i :: 0 <= i < |lines| ==> BelongsTo(site, lines[i], anchor))
         && site.name == site.lib.place(anchor.session, anchor.scope, anchor.node)
  {
    PrefixStructure(site, bs, None);
    LinesBelong(site, Yielded(site, bs, None).0, None);
  }

  // ---- Backup of a backup ---------------------------------------------------------------

  /** Backing up what a backup wrote yields all of it, whatever stopped the first backup. */
  lemma BackupOfABackup(site: Site, bs: seq<Byte>)
    ensures var lines := Yielded(site, bs, None).0; Yielded(site, Join(lines), None) == (lines, Complete)
  {
    var lines := Yielded(site, bs, None).0;
    PrefixStructure(site, bs, None);
    assert Join(lines)[|Join(lines)|..] == [];
    PrefixIsUnique(site, Join(lines), lines, None, Complete);
  }

  ghost predicate Grows(site: Site, later: Site) {
    && later == site.(known := later.known)
    && forall op :: op in site.known ==> op in later.known && later.known[op] == site.known[op]
  }

  lemma {:induction false} YieldableLater(site: Site, later: Site, lines: seq<seq<Byte>>, first: Option<Record>,
                                          bs: seq<Byte>)
    requires Grows(site, later) && AllYieldable(site, lines, first) && Join(lines) <= bs
    ensures lines <= Yielded(later, bs, first).0
    decreases |lines|
  {
    if lines != [] {
      hide FirstLine, Join, IsLine, Yielded, ValidRecord;
      var line, rest := lines[0], bs[|lines[0]|..];
      CutLine(bs, lines);
      LineComesFirst(line, rest);
      YieldStep(later, bs, first);
      YieldableLater(site, later, lines[1..], NextFirst(site, line, first), rest);
    }
  }

  /** Backups only grow: with more of the file written and more operations in the snapshot, a later
      backup begins with everything an earlier one yielded. */
  lemma BackupsOnlyGrow(site: Site, later: Site, bs: seq<Byte>, more: seq<Byte>)
    requires Grows(site, later)
    ensures Yielded(site, bs, None).0 <= Yielded(later, bs + more, None).0
  {
    PrefixStructure(site, bs, None);
    YieldableLater(site, later, Yielded(site, bs, None).0, None, bs + more);
  }

  // ---- The iterator and the restore -------------------------------------------------------

  /** A file as the process finds it: its bytes, and whether its identity or size had changed before
      the read or by the end of it. */
  datatype Source = Source(data: seq<Byte>, changedBefore: bool, changedAfter: bool)

  // What the iterator yields for the first `observed` bytes, and how it ends.
  function Backup(site: Site, source: Source, observed: nat): (seq<seq<Byte>>, Ending) {
    if source.changedBefore || |source.data| < observed then ([], Changed)
    else
      var (lines, ending) := Yielded(site, source.data[..observed], None);
      (lines, if Stops(ending) && source.changedAfter then Changed else ending)
  }

  lemma {:induction false} FirstLineIsPrefix(bs: seq<Byte>, n: nat)
    requires n < |bs| && forall i :: 0 <= i < n ==> bs[i] != NEWLINE
    ensures FirstLine(bs) == bs[..n] + FirstLine(bs[n..])
  {
    if n == 0 {
      assert bs[..0] == [] && bs[0..] == bs;
    } else {
      var rest := bs[1..];
      forall i | 0 <= i < n - 1 ensures rest[i] != NEWLINE { assert rest[i] == bs[i + 1]; }
      FirstLineIsPrefix(rest, n - 1);
      Prepends(bs, n, FirstLine(rest[n - 1..]));
      assert rest[n - 1..] == bs[n..];
    }
  }

  lemma Prepends(bs: seq<Byte>, n: nat, tail: seq<Byte>)
    requires 0 < n <= |bs|
    ensures [bs[0]] + (bs[1..][..n - 1] + tail) == bs[..n] + tail
  {
    assert [bs[0]] + bs[1..][..n - 1] == bs[..n];
  }

  method ReadLine(data: seq<Byte>, at: nat, limit: nat) returns (line: seq<Byte>)
    requires at + limit <= |data|
    ensures line == FirstLine(data[at..at + limit])
  {
    var bs := data[at..at + limit];
    var n := 0;
    while n < limit && bs[n] != NEWLINE
      invariant n <= limit && forall i :: 0 <= i < n ==> bs[i] != NEWLINE
    {
      n := n + 1;
    }
    if n < limit {
      FirstLineIsPrefix(bs, n);
      assert bs[..n] + [bs[n]] == bs[..n + 1];
      return bs[..n + 1];
    }
    FirstLineIsLine(bs);
    return bs;
  }

  // One line of the iterator's loop.
  method Step(site: Site, line: seq<Byte>, first: Option<Record>) returns (ending: Option<Ending>, first': Option<Record>)
    requires IsLine(line)
    ensures ending.None? <==> Yieldable(site, line, first)
    ensures ending.Some? ==> Refused(site, site.lib.parse(line), first, ending.value)
    ensures ending.None? ==> first' == NextFirst(site, line, first)
  {
    first' := first;
    var r := site.lib.parse(line);
    if r.None? || !ValidRecord(site.lib, site.name, r.value, first) { return Some(Malformed), first'; }
    if first.None? { first' := r; }
    if r.value.operation.Some? {
      var op := r.value.operation.value;
      var canonical := site.lib.canonical(op);
      if canonical.None? || canonical.value != op { return Some(OperationMalformed), first'; }
      if op !in site.known { return Some(UnknownOperation), first'; }
      if site.known[op] != site.project { return Some(OtherProject), first'; }
    }
    return None, first';
  }

  // The lines so far are the first `at` bytes, may all be yielded, and `first` is the chat's first record.
  ghost predicate Progress(site: Site, bs: seq<Byte>, lines: seq<seq<Byte>>, at: nat, first: Option<Record>) {
    at <= |bs| && Join(lines) == bs[..at] && AllYieldable(site, lines, None) && first == Anchor(site, lines, None)
  }

  lemma {:induction false} YieldableAppends(site: Site, lines: seq<seq<Byte>>, first: Option<Record>, line: seq<Byte>)
    requires AllYieldable(site, lines, first) && Yieldable(site, line, Anchor(site, lines, first))
    ensures AllYieldable(site, lines + [line], first)
    decreases |lines|
  {
    if lines == [] {
      assert [line][1..] == [];
    } else {
      assert (lines + [line])[1..] == lines[1..] + [line];
      YieldableAppends(site, lines[1..], NextFirst(site, lines[0], first), line);
    }
  }

  lemma ProgressOneMore(site: Site, bs: seq<Byte>, lines: seq<seq<Byte>>, at: nat, first: Option<Record>, line: seq<Byte>)
    requires Progress(site, bs, lines, at, first) && line <= bs[at..] && Yieldable(site, line, first)
    ensures Progress(site, bs, lines + [line], at + |line|, NextFirst(site, line, first))
  {
    YieldableAppends(site, lines, None, line);
    JoinAppends(lines, line);
    assert bs[..at + |line|] == bs[..at] + line;
  }

  lemma RefusedEnds(site: Site, bs: seq<Byte>, first: Option<Record>, ending: Ending)
    requires bs != []
    requires if IsLine(FirstLine(bs)) then Refused(site, site.lib.parse(FirstLine(bs)), first, ending) else ending.Incomplete?
    ensures EndsHere(site, bs, first, ending)
  {
    FirstLineIsLine(bs);
  }

  // Reads and judges the next of the observed bytes' lines.
  method NextLine(site: Site, data: seq<Byte>, observed: nat, at: nat, first: Option<Record>)
    returns (line: seq<Byte>, ending: Option<Ending>, first': Option<Record>)
    requires at < observed <= |data|
    ensures line == FirstLine(data[at..observed]) && 0 < |line| <= observed - at
    ensures ending.None? ==> Yieldable(site, line, first) && first' == NextFirst(site, line, first)
    ensures ending.Some? ==> EndsHere(site, data[at..observed], first, ending.value)
  {
    ghost var bs := data[at..observed];
    line := ReadLine(data, at, observed - at);
    FirstLineIsLine(bs);
    if line[|line| - 1] != NEWLINE {
      RefusedEnds(site, bs, first, Incomplete);
      return line, Some(Incomplete), first;
    }
    ending, first' := Step(site, line, first);
    if ending.Some? { RefusedEnds(site, bs, first, ending.value); }
  }

  method IterBackupPrefix(site: Site, source: Source, observed: nat) returns (lines: seq<seq<Byte>>, ending: Ending)
    ensures (lines, ending) == Backup(site, source, observed)
  {
    lines, ending := [], Complete;
    if source.changedBefore || |source.data| < observed { return lines, Changed; }
    var first: Option<Record> := None;
    var at := 0;
    ghost var bs := source.data[..observed];
    while at < observed
      invariant at <= observed && Progress(site, bs, lines, at, first)
    {
      var line, stop, next := NextLine(site, source.data, observed, at, first);
      assert source.data[at..observed] == bs[at..];
      if stop.Some? {
        PrefixIsUnique(site, bs, lines, None, stop.value);
        ending := stop.value;
        if Stops(ending) && source.changedAfter { ending := Changed; }
        return;
      }
      ProgressOneMore(site, bs, lines, at, first, line);
      first, at, lines := next, at + |line|, lines + [line];
    }
    PrefixIsUnique(site, bs, lines, None, Complete);
    if source.changedAfter { ending := Changed; }
  }

  datatype Restored = Restored(ok: bool, published: seq<Byte>)

  /** Restore an archived chat: every expected byte must come back out of the backup iterator, and the
      hash must be the manifest's. */
  method RestoreCanonicalChat(site: Site, source: Source, hash: seq<Byte> -> seq<Byte>, digest: seq<Byte>, size: nat)
    returns (r: Restored)
    ensures r.ok <==>
      && size > 0 && Stops(Backup(site, source, size).1) && |Join(Backup(site, source, size).0)| == size
      && hash(Join(Backup(site, source, size).0)) == digest
    ensures r.ok ==> size <= |source.data| && r.published == source.data[..size]
  {
    if size == 0 { return Restored(false, []); }
    var lines, ending := IterBackupPrefix(site, source, size);
    if !Stops(ending) { return Restored(false, []); }
    var fed: seq<Byte> := [];
    var observed := 0;
    for i := 0 to |lines|
      invariant fed == Join(lines[..i]) && observed == |fed|
    {
      JoinAppends(lines[..i], lines[i]);
      assert lines[..i + 1] == lines[..i] + [lines[i]];
      fed := fed + lines[i];
      observed := observed + |lines[i]|;
    }
    assert lines[..|lines|] == lines;
    if observed != size || hash(fed) != digest { return Restored(false, []); }
    PrefixStructure(site, source.data[..size], None);
    return Restored(true, fed);
  }

  lemma {:induction false} JoinAppends(lines: seq<seq<Byte>>, line: seq<Byte>)
    ensures Join(lines + [line]) == Join(lines) + line
  {
    if lines != [] {
      assert (lines + [line])[1..] == lines[1..] + [line];
      JoinAppends(lines[1..], line);
    }
  }

  /** Restore accepts what backup wrote: for every non-empty backup, the archived bytes satisfy exactly
      what restoring them checks. */
  lemma RestoreAcceptsTheBackup(site: Site, source: Source, observed: nat)
    requires Join(Backup(site, source, observed).0) != []
    ensures var archived := Join(Backup(site, source, observed).0);
      var (lines, ending) := Backup(site, Source(archived, false, false), |archived|);
      Stops(ending) && |archived| > 0 && Join(lines) == archived
  {
    BackupOfABackup(site, source.data[..observed]);
    var archived := Join(Backup(site, source, observed).0);
    assert archived[..|archived|] == archived;
  }
}
