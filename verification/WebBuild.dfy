/** The byte stream whose hash identifies a Web bundle (src/rcp/server_runtime.py, `web_build_identity`).

    The stream is a fixed header and one frame per file: the path's length in four bytes, the path, the
    size in eight, and the content.  A decoder inverts it, so two different accepted bundles never feed
    the hash the same bytes.  Directory listing, file types and reads are inputs; the hash is left out. */
module WebBuild {
  import opened Bytes
  import opened Options

  const MAX_FILES := 8192
  const MAX_BYTES := 512 * 1024 * 1024
  const MAX_PATH := 4096
  const CHUNK := 1024 * 1024

  /** One entry of the sorted listing.  `size` is what the listing reports, `content` what reading the
      file later yields, if it can be read. */
  datatype Entry =
    | Unreadable(path: seq<Byte>)
    | Directory(path: seq<Byte>)
    | Special(path: seq<Byte>)
    | Regular(path: seq<Byte>, size: nat, content: Option<seq<Byte>>)

  datatype Failure = Unavailable | NotInspected | NotRegular | InvalidPath | OverBound | Empty | NotRead | Changed
  datatype Result<T> = Ok(value: T) | Err(failure: Failure)

  datatype File = File(path: seq<Byte>, content: seq<Byte>)

  // ---- The encoding ---------------------------------------------------------------------

  function Power(k: nat): nat { if k == 0 then 1 else 256 * Power(k - 1) }

  function BigEndian(n: nat, k: nat): seq<Byte> {
    if k == 0 then [] else BigEndian(n / 256, k - 1) + [n % 256]
  }

  function Value(bs: seq<Byte>): nat {
    if bs == [] then 0 else 256 * Value(bs[..|bs| - 1]) + bs[|bs| - 1]
  }

  lemma {:induction false} ValueOfBigEndian(n: nat, k: nat)
    requires n < Power(k)
    ensures |BigEndian(n, k)| == k && Value(BigEndian(n, k)) == n
  {
    if k > 0 {
      ValueOfBigEndian(n / 256, k - 1);
      assert BigEndian(n, k)[..k - 1] == BigEndian(n / 256, k - 1);
    }
  }

  lemma {:induction false} BigEndianOfValue(bs: seq<Byte>)
    ensures Value(bs) < Power(|bs|) && BigEndian(Value(bs), |bs|) == bs
  {
    if bs != [] {
      BigEndianOfValue(bs[..|bs| - 1]);
      assert Value(bs) / 256 == Value(bs[..|bs| - 1]) && Value(bs) % 256 == bs[|bs| - 1];
      assert bs == bs[..|bs| - 1] + [bs[|bs| - 1]];
    }
  }

  function Text(s: string): seq<Byte>
    requires forall i :: 0 <= i < |s| ==> s[i] < 256 as char
  {
    seq(|s|, i requires 0 <= i < |s| => s[i] as nat)
  }

  const HEADER: seq<Byte> := Text("rcp-web-build-v1\0")

  predicate Fits(f: File) { |f.path| < Power(4) && |f.content| < Power(8) }

  function Frame(f: File): seq<Byte> {
    BigEndian(|f.path|, 4) + f.path + BigEndian(|f.content|, 8) + f.content
  }

  function Frames(files: seq<File>): seq<Byte> {
    if files == [] then [] else Frame(files[0]) + Frames(files[1..])
  }

  function Preimage(files: seq<File>): seq<Byte> { HEADER + Frames(files) }

  // ---- The decoder ----------------------------------------------------------------------

  // The first frame of the bytes, and how long it is.
  function DecodeFrame(bs: seq<Byte>): Option<(File, nat)> {
    if |bs| < 4 then None
    else
      var path := Value(bs[..4]);
      if |bs| < 4 + path + 8 then None
      else
        var size := Value(bs[4 + path..12 + path]);
        if |bs| < 12 + path + size then None
        else Some((File(bs[4..4 + path], bs[12 + path..12 + path + size]), 12 + path + size))
  }

  function DecodeFrames(bs: seq<Byte>): Option<seq<File>>
    decreases |bs|
  {
    if bs == [] then Some([])
    else
      var first := DecodeFrame(bs);
      if first.None? || first.value.1 > |bs| || first.value.1 == 0 then None
      else
        var rest := DecodeFrames(bs[first.value.1..]);
        if rest.None? then None else Some([first.value.0] + rest.value)
  }

  function Decode(bs: seq<Byte>): Option<seq<File>> {
    if HEADER <= bs then DecodeFrames(bs[|HEADER|..]) else None
  }

  // Cutting five joined parts apart again.
  lemma PartsCut(a: seq<Byte>, b: seq<Byte>, c: seq<Byte>, d: seq<Byte>, e: seq<Byte>)
    ensures var bs := a + b + c + d + e; var (x, y, z) := (|a|, |a| + |b|, |a| + |b| + |c|);
      bs[..x] == a && bs[x..y] == b && bs[y..z] == c && bs[z..z + |d|] == d
  {
  }

  lemma FrameDecodes(f: File, rest: seq<Byte>)
    requires Fits(f)
    ensures DecodeFrame(Frame(f) + rest) == Some((f, |Frame(f)|))
  {
    hide BigEndian, Value;
    ValueOfBigEndian(|f.path|, 4);
    ValueOfBigEndian(|f.content|, 8);
    PartsCut(BigEndian(|f.path|, 4), f.path, BigEndian(|f.content|, 8), f.content, rest);
  }

  lemma FrameIsLong(f: File)
    requires Fits(f)
    ensures |Frame(f)| >= 12
  {
    ValueOfBigEndian(|f.path|, 4);
    ValueOfBigEndian(|f.content|, 8);
  }

  lemma FrameFirst(frame: seq<Byte>, f: File, rest: seq<Byte>, more: seq<File>)
    requires frame != [] && DecodeFrame(frame + rest) == Some((f, |frame|)) && DecodeFrames(rest) == Some(more)
    ensures DecodeFrames(frame + rest) == Some([f] + more)
  {
    hide DecodeFrame;
    assert (frame + rest)[|frame|..] == rest;
  }

  lemma {:induction false} FramesDecode(files: seq<File>)
    requires forall i :: 0 <= i < |files| ==> Fits(files[i])
    ensures DecodeFrames(Frames(files)) == Some(files)
  {
    if files != [] {
      hide Frame, DecodeFrame, DecodeFrames, Fits;
      var rest := Frames(files[1..]);
      FramesDecode(files[1..]);
      FrameDecodes(files[0], rest);
      FrameIsLong(files[0]);
      FrameFirst(Frame(files[0]), files[0], rest, files[1..]);
      assert files == [files[0]] + files[1..];
    }
  }

  /** The decoder inverts the encoding of every file list. */
  lemma DecodeInverts(files: seq<File>)
    requires forall i :: 0 <= i < |files| ==> Fits(files[i])
    ensures Decode(Preimage(files)) == Some(files)
  {
    FramesDecode(files);
    assert (HEADER + Frames(files))[|HEADER|..] == Frames(files);
  }

  // Cutting a sequence in four and joining the parts.
  lemma FourParts(bs: seq<Byte>, a: nat, b: nat, c: nat, d: nat)
    requires a <= b <= c <= d <= |bs|
    ensures bs[..a] + bs[a..b] + bs[b..c] + bs[c..d] == bs[..d]
  {
  }

  lemma FrameEncodes(bs: seq<Byte>)
    requires DecodeFrame(bs).Some?
    ensures var (f, n) := DecodeFrame(bs).value; Fits(f) && 0 < n <= |bs| && Frame(f) == bs[..n]
  {
    var path := Value(bs[..4]);
    BigEndianOfValue(bs[..4]);
    BigEndianOfValue(bs[4 + path..12 + path]);
    var (f, n) := DecodeFrame(bs).value;
    FourParts(bs, 4, 4 + path, 12 + path, n);
  }

  lemma DecodeFramesStep(bs: seq<Byte>)
    requires bs != [] && DecodeFrames(bs).Some?
    ensures DecodeFrame(bs).Some? && 0 < DecodeFrame(bs).value.1 <= |bs|
    ensures var (f, n) := DecodeFrame(bs).value;
      DecodeFrames(bs[n..]).Some? && DecodeFrames(bs).value == [f] + DecodeFrames(bs[n..]).value
  {
  }

  lemma {:induction false} FramesEncode(bs: seq<Byte>)
    requires DecodeFrames(bs).Some?
    ensures Frames(DecodeFrames(bs).value) == bs
    decreases |bs|
  {
    if bs != [] {
      hide Frame, DecodeFrame, DecodeFrames;
      DecodeFramesStep(bs);
      FrameEncodes(bs);
      var (f, n) := DecodeFrame(bs).value;
      var rest := DecodeFrames(bs[n..]).value;
      FramesEncode(bs[n..]);
      assert ([f] + rest)[1..] == rest;
      assert bs == bs[..n] + bs[n..];
    }
  }

  /** And it accepts nothing else: whatever decodes is the encoding of what it decodes to. */
  lemma EncodeInverts(bs: seq<Byte>)
    requires Decode(bs).Some?
    ensures Preimage(Decode(bs).value) == bs
  {
    FramesEncode(bs[|HEADER|..]);
    assert bs == HEADER + bs[|HEADER|..];
  }

  // ---- Inspection -----------------------------------------------------------------------

  // The regular files among the entries, as listed.
  function Files(entries: seq<Entry>): (files: seq<Entry>)
    ensures forall i :: 0 <= i < |files| ==> files[i].Regular?
  {
    if entries == [] then []
    else Files(entries[..|entries| - 1]) + if entries[|entries| - 1].Regular? then [entries[|entries| - 1]] else []
  }

  function Total(entries: seq<Entry>): nat {
    if entries == [] then 0
    else Total(entries[..|entries| - 1]) + if entries[|entries| - 1].Regular? then entries[|entries| - 1].size else 0
  }

  function EntryFault(before: seq<Entry>, e: Entry): Option<Failure> {
    match e
    case Unreadable(_) => Some(NotInspected)
    case Directory(_) => None
    case Special(_) => Some(NotRegular)
    case Regular(path, size, _) =>
      if path == [] || |path| > MAX_PATH then Some(InvalidPath)
      else if |Files(before)| + 1 > MAX_FILES || Total(before) + size > MAX_BYTES then Some(OverBound)
      else None
  }

  // The first fault of a listing.
  function ListingFault(entries: seq<Entry>): Option<Failure> {
    if entries == [] then None
    else
      var before := ListingFault(entries[..|entries| - 1]);
      if before.Some? then before else EntryFault(entries[..|entries| - 1], entries[|entries| - 1])
  }

  predicate WholeFiles(files: seq<Entry>) { forall i :: 0 <= i < |files| ==> ReadsWhole(files[i]) }

  predicate ReadsWhole(e: Entry) { e.Regular? && e.content.Some? && |e.content.value| == e.size }

  // The first fault of reading the listed files.
  function ReadFault(files: seq<Entry>): Option<Failure>
    requires forall i :: 0 <= i < |files| ==> files[i].Regular?
    decreases |files|
  {
    if files == [] then None
    else if files[0].content.None? then Some(NotRead)
    else if |files[0].content.value| != files[0].size then Some(Changed)
    else ReadFault(files[1..])
  }

  function AsFile(e: Entry): File
    requires ReadsWhole(e)
  {
    File(e.path, e.content.value)
  }

  // The bundle: paths and contents of the files, in listing order.
  function Bundle(files: seq<Entry>): seq<File>
    requires WholeFiles(files)
  {
    seq(|files|, i requires 0 <= i < |files| => AsFile(files[i]))
  }

  // What an inspection of a usable root yields.
  predicate Inspected(entries: seq<Entry>, r: Result<seq<Byte>>) {
    if ListingFault(entries).Some? then r == Err(ListingFault(entries).value)
    else if Files(entries) == [] then r == Err(Empty)
    else if ReadFault(Files(entries)).Some? then r == Err(ReadFault(Files(entries)).value)
    else WholeFiles(Files(entries)) && r == Ok(Preimage(Bundle(Files(entries))))
  }

  // A listing within every bound, all of it inspected.
  predicate Clean(entries: seq<Entry>) {
    && (forall i :: 0 <= i < |entries| ==> !entries[i].Unreadable? && !entries[i].Special?)
    && (forall i :: 0 <= i < |entries| && entries[i].Regular? ==> 0 < |entries[i].path| <= MAX_PATH)
    && |Files(entries)| <= MAX_FILES && Total(entries) <= MAX_BYTES
  }

  lemma {:induction false} CleanExactly(entries: seq<Entry>)
    ensures ListingFault(entries).None? <==> Clean(entries)
  {
    if entries != [] {
      var before, e := entries[..|entries| - 1], entries[|entries| - 1];
      CleanExactly(before);
      assert forall i :: 0 <= i < |before| ==> before[i] == entries[i];
    }
  }

  lemma {:induction false} ReadExactly(files: seq<Entry>)
    requires forall i :: 0 <= i < |files| ==> files[i].Regular?
    ensures ReadFault(files).None? <==> WholeFiles(files)
    decreases |files|
  {
    if files != [] { ReadExactly(files[1..]); }
  }

  /** A listing is accepted exactly when it is clean, has a file, and every file is read to its listed
      size; what it then yields is the encoding of its bundle. */
  lemma AcceptedExactly(entries: seq<Entry>, r: Result<seq<Byte>>)
    requires Inspected(entries, r)
    ensures r.Ok? <==> Clean(entries) && Files(entries) != [] && WholeFiles(Files(entries))
  {
    CleanExactly(entries);
    ReadExactly(Files(entries));
  }

  lemma {:induction false} FileFits(entries: seq<Entry>, i: nat)
    requires Clean(entries) && i < |Files(entries)|
    ensures |Files(entries)[i].path| <= MAX_PATH && Files(entries)[i].size <= Total(entries)
  {
    var before, e := entries[..|entries| - 1], entries[|entries| - 1];
    assert forall j :: 0 <= j < |before| ==> before[j] == entries[j];
    if i < |Files(before)| { FileFits(before, i); }
  }

  lemma Powers()
    ensures MAX_PATH < Power(4) && MAX_BYTES < Power(8)
  {
    assert Power(2) == 65536;
    assert Power(4) == 65536 * 65536;
  }

  // Every accepted file fits its length fields.
  lemma BundleFits(entries: seq<Entry>, i: nat)
    requires Clean(entries) && WholeFiles(Files(entries)) && i < |Files(entries)|
    ensures Fits(Bundle(Files(entries))[i])
  {
    FileFits(entries, i);
    Powers();
  }

  /** Two accepted inspections that feed the hash the same bytes saw the same files: the same paths with
      the same contents in the same order. */
  lemma DifferentBundlesDiffer(one: seq<Entry>, two: seq<Entry>, bytes: seq<Byte>)
    requires Inspected(one, Ok(bytes)) && Inspected(two, Ok(bytes))
    ensures WholeFiles(Files(one)) && WholeFiles(Files(two)) && Bundle(Files(one)) == Bundle(Files(two))
  {
    AcceptedExactly(one, Ok(bytes));
    AcceptedExactly(two, Ok(bytes));
    forall i | 0 <= i < |Files(one)| ensures Fits(Bundle(Files(one))[i]) { BundleFits(one, i); }
    forall i | 0 <= i < |Files(two)| ensures Fits(Bundle(Files(two))[i]) { BundleFits(two, i); }
    DecodeInverts(Bundle(Files(one)));
    DecodeInverts(Bundle(Files(two)));
  }

  // ---- Listing order ----------------------------------------------------------------------

  // Lexicographic order of paths.
  predicate Before(a: seq<Byte>, b: seq<Byte>) {
    if b == [] then false
    else if a == [] then true
    else a[0] < b[0] || (a[0] == b[0] && Before(a[1..], b[1..]))
  }

  predicate Sorted(files: seq<File>) { forall i, j :: 0 <= i < j < |files| ==> Before(files[i].path, files[j].path) }

  lemma {:induction false} BeforeIsAsymmetric(a: seq<Byte>, b: seq<Byte>)
    requires Before(a, b)
    ensures !Before(b, a)
    decreases |a|
  {
    if a != [] && a[0] == b[0] { BeforeIsAsymmetric(a[1..], b[1..]); }
  }

  lemma HeadIsListed(xs: seq<File>)
    requires xs != []
    ensures xs[0] in xs
  {
  }

  /** Listing order is no freedom: two sorted listings of the same files are the same list, so a bundle
      has one byte stream however the file system enumerates it. */
  lemma {:induction false} SortedListingIsUnique(xs: seq<File>, ys: seq<File>)
    requires Sorted(xs) && Sorted(ys) && (forall f :: f in xs <==> f in ys)
    ensures xs == ys
    decreases |xs|
  {
    if xs == [] {
      if ys != [] {
        HeadIsListed(ys);
        assert false;
      }
    } else {
      assert xs[0] in ys;
      var j :| 0 <= j < |ys| && ys[j] == xs[0];
      assert ys[0] in xs;
      var i :| 0 <= i < |xs| && xs[i] == ys[0];
      if i > 0 && j > 0 { BeforeIsAsymmetric(xs[0].path, xs[i].path); }
      forall f | f in xs[1..] ensures f in ys[1..] { Elsewhere(xs, f); assert f in ys; }
      forall f | f in ys[1..] ensures f in xs[1..] { Elsewhere(ys, f); assert f in xs; }
      SortedListingIsUnique(xs[1..], ys[1..]);
    }
  }

  // In a sorted listing the first file is not listed again.
  lemma Elsewhere(xs: seq<File>, f: File)
    requires Sorted(xs) && xs != [] && f in xs[1..]
    ensures f in xs && f != xs[0]
  {
    var k :| 0 <= k < |xs[1..]| && xs[1..][k] == f;
    assert xs[k + 1] == f && Before(xs[0].path, xs[k + 1].path);
    if f == xs[0] { BeforeIsAsymmetric(f.path, f.path); }
  }

  // ---- The computation ----------------------------------------------------------------------

  method ListFiles(entries: seq<Entry>) returns (r: Result<seq<Entry>>)
    ensures r == if ListingFault(entries).Some? then Err(ListingFault(entries).value) else Ok(Files(entries))
  {
    var total := 0;
    var files: seq<Entry> := [];
    for i := 0 to |entries|
      invariant files == Files(entries[..i]) && total == Total(entries[..i])
      invariant ListingFault(entries[..i]).None?
    {
      var e := entries[i];
      assert entries[..i + 1][..i] == entries[..i];
      FaultStays(entries, i + 1);
      match e {
        case Unreadable(_) => return Err(NotInspected);
        case Directory(_) =>
        case Special(_) => return Err(NotRegular);
        case Regular(path, size, _) =>
          if path == [] || |path| > MAX_PATH { return Err(InvalidPath); }
          total := total + size;
          files := files + [e];
          if |files| > MAX_FILES || total > MAX_BYTES { return Err(OverBound); }
      }
    }
    assert entries[..|entries|] == entries;
    return Ok(files);
  }

  lemma {:induction false} FaultStays(entries: seq<Entry>, j: nat)
    requires j <= |entries|
    ensures ListingFault(entries[..j]).Some? ==> ListingFault(entries) == ListingFault(entries[..j])
  {
    if j < |entries| {
      assert entries[..|entries| - 1][..j] == entries[..j];
      FaultStays(entries[..|entries| - 1], j);
    } else {
      assert entries[..j] == entries;
    }
  }

  // Reading a file in chunks feeds the hash its content.
  method FeedContent(fed: seq<Byte>, content: seq<Byte>) returns (fed': seq<Byte>, observed: nat)
    ensures fed' == fed + content && observed == |content|
  {
    fed', observed := fed, 0;
    while observed < |content|
      invariant observed <= |content| && fed' == fed + content[..observed]
    {
      var next := if observed + CHUNK < |content| then observed + CHUNK else |content|;
      fed' := fed' + content[observed..next];
      assert content[..next] == content[..observed] + content[observed..next];
      observed := next;
    }
    assert content[..observed] == content;
  }

  predicate Fed(files: seq<Entry>, i: nat, fed: seq<Byte>) {
    i <= |files| && WholeFiles(files[..i]) && fed == Preimage(Bundle(files[..i]))
  }

  lemma BundleAppends(done: seq<Entry>, e: Entry)
    requires WholeFiles(done) && ReadsWhole(e)
    ensures WholeFiles(done + [e]) && Bundle(done + [e]) == Bundle(done) + [AsFile(e)]
  {
  }

  lemma FedOneMore(files: seq<Entry>, i: nat, fed: seq<Byte>)
    requires Fed(files, i, fed) && i < |files| && ReadsWhole(files[i])
    ensures Fed(files, i + 1, fed + Frame(AsFile(files[i])))
  {
    var done, file := files[..i], AsFile(files[i]);
    assert files[..i + 1] == done + [files[i]];
    BundleAppends(done, files[i]);
    FramesAppend(Bundle(done), file);
    Associates(HEADER, Frames(Bundle(done)), Frame(file));
  }

  lemma Associates(a: seq<Byte>, b: seq<Byte>, c: seq<Byte>)
    ensures a + b + c == a + (b + c)
  {
  }

  method FeedFiles(files: seq<Entry>) returns (r: Result<seq<Byte>>)
    requires forall i :: 0 <= i < |files| ==> files[i].Regular?
    ensures if ReadFault(files).Some? then r == Err(ReadFault(files).value)
            else WholeFiles(files) && r == Ok(Preimage(Bundle(files)))
  {
    hide BigEndian;
    var fed := HEADER;
    for i := 0 to |files|
      invariant Fed(files, i, fed) && ReadFault(files) == ReadFault(files[i..])
    {
      var file := files[i];
      assert files[i..][1..] == files[i + 1..];
      if file.content.None? { return Err(NotRead); }
      ghost var before := fed;
      fed := fed + BigEndian(|file.path|, 4) + file.path + BigEndian(file.size, 8);
      var observed;
      fed, observed := FeedContent(fed, file.content.value);
      if observed != file.size { return Err(Changed); }
      FedOneMore(files, i, before);
      assert fed == before + Frame(AsFile(file));
    }
    assert files[..|files|] == files;
    return Ok(fed);
  }

  method WebBuildIdentity(usable: bool, entries: seq<Entry>) returns (r: Result<seq<Byte>>)
    ensures if usable then Inspected(entries, r) else r == Err(Unavailable)
  {
    if !usable { return Err(Unavailable); }
    var listed := ListFiles(entries);
    if listed.Err? { return Err(listed.failure); }
    if listed.value == [] { return Err(Empty); }
    r := FeedFiles(listed.value);
  }

  lemma {:induction false} FramesAppend(files: seq<File>, f: File)
    ensures Frames(files + [f]) == Frames(files) + Frame(f)
  {
    if files != [] {
      assert (files + [f])[1..] == files[1..] + [f];
      FramesAppend(files[1..], f);
    }
  }
}
