/** `measure_folder`: names, canonical order, file digests and the digest of the whole folder. */
module Measurement {
  import opened Wrappers
  import opened Text
  import opened Codec
  import opened Order
  import opened Folder
  import opened WalkTheorems

  type Hash = Bytes -> Bytes

  const U64_SIZE := 0x1_0000_0000_0000_0000

  datatype MeasuredFile = MeasuredFile(name: Bytes, hash: string, size: nat)

  datatype FolderMeasurement = FolderMeasurement(directory: Path, measurement: seq<MeasuredFile>, totalHash: string)

  // ----- names -----

  const SLASH: byte := 47
  const BACKSLASH: byte := 92

  /** A relative path as text: its names joined by `/`. */
  function JoinNames(names: Path): Bytes {
    if names == [] then [] else if |names| == 1 then names[0] else names[0] + [SLASH] + JoinNames(names[1..])
  }

  function Slashed(b: Bytes): (r: Bytes)
    ensures |r| == |b|
  {
    seq(|b|, i requires 0 <= i < |b| => if b[i] == BACKSLASH then SLASH else b[i])
  }

  function DisplayName(w: World, root: Path, p: Path): Bytes {
    Slashed(w.lossy(JoinNames(if root <= p then p[|root|..] else p)))
  }

  // ----- order -----

  /** One element of `entries`: the displayed name and the path it belongs to. */
  type Entry = (Bytes, Path)

  function Entries(w: World, root: Path, files: seq<Path>): (r: seq<Entry>)
    ensures |r| == |files| && forall i | 0 <= i < |r| :: r[i] == (DisplayName(w, root, files[i]), files[i])
  {
    seq(|files|, i requires 0 <= i < |files| => (DisplayName(w, root, files[i]), files[i]))
  }

  /** `a.0.as_bytes().cmp(b.0.as_bytes())` is not greater. */
  predicate NameLeq(a: Entry, b: Entry) { !NameLess(b.0, a.0) }

  predicate EarlierPath(a: Entry, b: Entry) { PathLess(a.1, b.1) }

  /** By displayed name, and by path where two names coincide. */
  predicate EntryLess(a: Entry, b: Entry) {
    NameLess(a.0, b.0) || (a.0 == b.0 && PathLess(a.1, b.1))
  }

  function SortedFiles(w: World, root: Path, files: seq<Path>): seq<Entry> {
    Sort(NameLeq, Entries(w, root, files))
  }

  lemma EntryOrderIsTotal()
    ensures StrictTotal(EntryLess)
  {
    OrdersAreTotal();
    hide NameLess, PathLess;
  }

  /** The second sort yields the one list of the files in the order of name, then path. */
  lemma SortedFilesAreCanonical(w: World, root: Path, files: seq<Path>)
    requires Increasing(PathLess, files)
    ensures Increasing(EntryLess, SortedFiles(w, root, files))
    ensures forall e: Entry :: e in SortedFiles(w, root, files) <==> e.1 in files && e.0 == DisplayName(w, root, e.1)
  {
    var entries := Entries(w, root, files);
    EntryOrderIsTotal();
    OrdersAreTotal();
    SortMembers(NameLeq, entries);
    hide NameLess, PathLess, DisplayName;
    assert Increasing(EarlierPath, entries);
    SortIncreases(NameLeq, EarlierPath, EntryLess, entries);
    forall e: Entry ensures e in entries <==> e.1 in files && e.0 == DisplayName(w, root, e.1) {
      if e.1 in files {
        var i :| 0 <= i < |files| && files[i] == e.1;
        assert entries[i] == (DisplayName(w, root, e.1), e.1);
      }
    }
  }

  // ----- contents and digest -----

  /** `fs::read`, which follows a symlink. */
  function ReadContents(w: World, root: Path, p: Path): Option<Bytes> {
    if p !in w.nodes then None
    else if w.nodes[p].File? then w.nodes[p].content
    else
      match LinkTarget(w, root, p)
      case Some(t) => if t in w.nodes && w.nodes[t].File? then w.nodes[t].content else None
      case None => None
  }

  datatype FileData = FileData(name: Bytes, contents: Bytes)

  /** What is read of the sorted files, or None when one of them cannot be read. */
  function ReadAll(w: World, root: Path, entries: seq<Entry>): (r: Option<seq<FileData>>)
    ensures r.Some? ==> |r.value| == |entries|
  {
    if entries == [] then Some([])
    else
      match (ReadContents(w, root, entries[0].1), ReadAll(w, root, entries[1..]))
      case (Some(c), Some(rest)) => Some([FileData(entries[0].0, c)] + rest)
      case _ => None
  }

  function LittleEndian(n: nat, width: nat): (b: Bytes)
    ensures |b| == width
  {
    if width == 0 then [] else [n % 256] + LittleEndian(n / 256, width - 1)
  }

  /** `(name.len() as u64).to_le_bytes()`. */
  function LengthPrefix(name: Bytes): (b: Bytes)
    ensures |b| == 8
  {
    LittleEndian(|name| % U64_SIZE, 8)
  }

  /** What the total digest hashes. */
  function Stream(sha: Hash, files: seq<FileData>): Bytes {
    if files == [] then []
    else LengthPrefix(files[0].name) + files[0].name + sha(files[0].contents) + Stream(sha, files[1..])
  }

  function Listed(sha: Hash, files: seq<FileData>): (r: seq<MeasuredFile>)
    ensures |r| == |files|
    ensures forall i | 0 <= i < |r| ::
      r[i] == MeasuredFile(files[i].name, ToHex(sha(files[i].contents)), |files[i].contents|)
  {
    seq(|files|, i requires 0 <= i < |files| =>
      MeasuredFile(files[i].name, ToHex(sha(files[i].contents)), |files[i].contents|))
  }

  /** The root, if the configured path leads to a directory. */
  function RootOf(w: World, path: Path): Option<Path> {
    match Canonicalize(w, path)
    case None => None
    case Some(root) => if root in w.nodes && w.nodes[root].Directory? then Some(root) else None
  }

  /** The files that are measured, in order. */
  function FilesOf(w: World, listing: Listing, path: Path): Option<seq<FileData>> {
    match RootOf(w, path)
    case None => None
    case Some(root) =>
      match Walk(w, listing, root, root)
      case None => None
      case Some(files) => ReadAll(w, root, SortedFiles(w, root, files))
  }

  /** The result of `measure_folder`. */
  function MeasurementOf(w: World, sha: Hash, listing: Listing, path: Path): Result<FolderMeasurement, Error> {
    match (RootOf(w, path), FilesOf(w, listing, path))
    case (Some(root), Some(files)) =>
      Ok(FolderMeasurement(root, Listed(sha, files), ToHex(sha(Stream(sha, files)))))
    case _ => Err(Internal)
  }

  lemma {:induction false} StreamAppend(sha: Hash, a: seq<FileData>, b: seq<FileData>)
    ensures Stream(sha, a + b) == Stream(sha, a) + Stream(sha, b)
  {
    if a == [] {
      assert a + b == b;
    } else {
      assert (a + b)[1..] == a[1..] + b;
      StreamAppend(sha, a[1..], b);
    }
  }

  lemma {:induction false} ReadAllAppend(w: World, root: Path, a: seq<Entry>, b: seq<Entry>)
    ensures
      var (ra, rb) := (ReadAll(w, root, a), ReadAll(w, root, b));
      ReadAll(w, root, a + b) == if ra.Some? && rb.Some? then Some(ra.value + rb.value) else None
  {
    hide ReadContents;
    if a == [] {
      assert a + b == b;
      if ReadAll(w, root, b).Some? {
        assert [] + ReadAll(w, root, b).value == ReadAll(w, root, b).value;
      }
    } else {
      assert (a + b)[1..] == a[1..] + b && (a + b)[0] == a[0];
      ReadAllAppend(w, root, a[1..], b);
      var (c, ra, rb) := (ReadContents(w, root, a[0].1), ReadAll(w, root, a[1..]), ReadAll(w, root, b));
      if c.Some? && ra.Some? && rb.Some? {
        var file := FileData(a[0].0, c.value);
        assert [file] + (ra.value + rb.value) == [file] + ra.value + rb.value;
      }
    }
  }

  /** One more file read: what is read, hashed and listed so far. */
  lemma ReadOneMore(w: World, root: Path, sha: Hash, entries: seq<Entry>, i: nat, data: seq<FileData>, c: Bytes)
    requires i < |entries| && ReadAll(w, root, entries[..i]) == Some(data)
    requires ReadContents(w, root, entries[i].1) == Some(c)
    ensures
      var (name, more) := (entries[i].0, data + [FileData(entries[i].0, c)]);
      && ReadAll(w, root, entries[..i + 1]) == Some(more)
      && Stream(sha, more) == Stream(sha, data) + LengthPrefix(name) + name + sha(c)
      && Listed(sha, more) == Listed(sha, data) + [MeasuredFile(name, ToHex(sha(c)), |c|)]
  {
    hide ReadContents, LengthPrefix, ToHex;
    var file, none: seq<Entry> := FileData(entries[i].0, c), [];
    assert entries[..i + 1] == entries[..i] + [entries[i]] && [entries[i]][1..] == none;
    ReadAllAppend(w, root, entries[..i], [entries[i]]);
    assert ReadAll(w, root, none) == Some([]);
    assert [file] + [] == [file];
    assert ReadAll(w, root, [entries[i]]) == Some([file]);
    StreamOfOne(sha, data, file);
    assert Listed(sha, data + [file]) == Listed(sha, data) + [MeasuredFile(file.name, ToHex(sha(c)), |c|)];
    hide Stream;
  }

  lemma StreamOfOne(sha: Hash, data: seq<FileData>, file: FileData)
    ensures Stream(sha, data + [file]) == Stream(sha, data) + LengthPrefix(file.name) + file.name + sha(file.contents)
  {
    hide LengthPrefix;
    StreamAppend(sha, data, [file]);
    var none: seq<FileData> := [];
    assert [file][1..] == none;
    assert Stream(sha, [file]) == LengthPrefix(file.name) + file.name + sha(file.contents) + Stream(sha, none);
  }

  lemma ReadStops(w: World, root: Path, entries: seq<Entry>, i: nat)
    requires i < |entries| && ReadContents(w, root, entries[i].1).None?
    ensures ReadAll(w, root, entries).None?
  {
    assert entries == entries[..i] + entries[i..];
    ReadAllAppend(w, root, entries[..i], entries[i..]);
  }

  /** The loop over the sorted entries: hasher and list grow together. */
  method HashFiles(w: World, root: Path, sha: Hash, entries: seq<Entry>)
    returns (r: Option<(seq<MeasuredFile>, Bytes)>)
    ensures
      var data := ReadAll(w, root, entries);
      r == if data.Some? then Some((Listed(sha, data.value), Stream(sha, data.value))) else None
  {
    ghost var data: seq<FileData> := [];
    var hashed: Bytes := [];
    var measurement: seq<MeasuredFile> := [];
    for i := 0 to |entries|
      invariant ReadAll(w, root, entries[..i]) == Some(data)
      invariant hashed == Stream(sha, data) && measurement == Listed(sha, data)
    {
      var (name, path) := entries[i];
      var contents := ReadContents(w, root, path);
      if contents.None? {
        ReadStops(w, root, entries, i);
        return None;
      }
      var digest := sha(contents.value);
      ReadOneMore(w, root, sha, entries, i, data, contents.value);
      hashed := hashed + LengthPrefix(name);
      hashed := hashed + name;
      hashed := hashed + digest;
      measurement := measurement + [MeasuredFile(name, ToHex(digest), |contents.value|)];
      data := data + [FileData(name, contents.value)];
    }
    assert entries[..|entries|] == entries;
    r := Some((measurement, hashed));
  }

  method MeasureFolder(w: World, sha: Hash, listing: Listing, path: Path) returns (r: Result<FolderMeasurement, Error>)
    ensures r == MeasurementOf(w, sha, listing, path)
  {
    var resolved := RootOf(w, path);
    if resolved.None? {
      return Err(Internal);
    }
    var root := resolved.value;
    var files := new FileList();
    var ok := CollectRegularFiles(w, listing, root, root, files);
    if !ok {
      return Err(Internal);
    }
    assert files.items == Walk(w, listing, root, root).value;
    var entries := SortedFiles(w, root, files.items);
    var result := HashFiles(w, root, sha, entries);
    hide Walk, SortedFiles, ReadAll, Stream, Listed, RootOf;
    match result
    case None => return Err(Internal);
    case Some((measurement, hashed)) => return Ok(FolderMeasurement(root, measurement, ToHex(sha(hashed))));
  }

  /** The whole result depends on the file system, not on the order it lists things in. */
  lemma MeasurementIsDeterministic(w: World, sha: Hash, l1: Listing, l2: Listing, path: Path)
    requires WellFormed(w) && Lists(w, l1) && Lists(w, l2)
    ensures MeasurementOf(w, sha, l1, path) == MeasurementOf(w, sha, l2, path)
  {
    if RootOf(w, path).Some? {
      ListingOrderIsIrrelevant(w, l1, l2, RootOf(w, path).value);
    }
  }

  // ----- unique decoding -----

  lemma {:induction false} LittleEndianInjective(a: nat, b: nat, width: nat)
    requires LittleEndian(a, width) == LittleEndian(b, width)
    requires a < Power256(width) && b < Power256(width)
    ensures a == b
  {
    if width > 0 {
      assert LittleEndian(a, width)[1..] == LittleEndian(b, width)[1..];
      assert LittleEndian(a, width)[0] == LittleEndian(b, width)[0];
      LittleEndianInjective(a / 256, b / 256, width - 1);
    }
  }

  function Power256(k: nat): nat {
    if k == 0 then 1 else 256 * Power256(k - 1)
  }

  lemma Power256Of8()
    ensures Power256(8) == U64_SIZE
  {
    assert Power256(4) == 0x1_0000_0000;
    assert Power256(8) == 256 * (256 * (256 * (256 * Power256(4))));
  }

  /** Lengths that a 64-bit machine can hold. */
  predicate Sized(files: seq<FileData>) {
    forall i | 0 <= i < |files| :: |files[i].name| < U64_SIZE
  }

  /** The per-file digests of a list. */
  function Digested(sha: Hash, files: seq<FileData>): (r: seq<(Bytes, Bytes)>)
    ensures |r| == |files| && forall i | 0 <= i < |r| :: r[i] == (files[i].name, sha(files[i].contents))
  {
    seq(|files|, i requires 0 <= i < |files| => (files[i].name, sha(files[i].contents)))
  }

  lemma PrefixIsInjective(a: Bytes, b: Bytes)
    requires LengthPrefix(a) == LengthPrefix(b) && |a| < U64_SIZE && |b| < U64_SIZE
    ensures |a| == |b|
  {
    hide LittleEndian, Power256;
    Power256Of8();
    LittleEndianInjective(|a|, |b|, 8);
  }

  /** Where the parts of the first file are in the stream. */
  lemma StreamParts(sha: Hash, files: seq<FileData>)
    requires files != [] && |sha(files[0].contents)| == 32
    ensures
      var (s, name) := (Stream(sha, files), files[0].name);
      var k := 8 + |name|;
      && |s| >= k + 32 && s[..8] == LengthPrefix(name) && s[8..k] == name
      && s[k..k + 32] == sha(files[0].contents) && s[k + 32..] == Stream(sha, files[1..])
  {
    hide LengthPrefix;
  }

  /** The stream determines names and digests: it can be decoded in one way only. */
  lemma {:induction false} StreamDecodes(sha: Hash, a: seq<FileData>, b: seq<FileData>)
    requires (forall x: Bytes :: |sha(x)| == 32) && Sized(a) && Sized(b)
    requires Stream(sha, a) == Stream(sha, b)
    ensures Digested(sha, a) == Digested(sha, b)
  {
    if a != [] {
      StreamParts(sha, a);
    }
    if b != [] {
      StreamParts(sha, b);
    }
    if a != [] && b != [] {
      PrefixIsInjective(a[0].name, b[0].name);
      hide LengthPrefix;
      StreamDecodes(sha, a[1..], b[1..]);
      var da, db := Digested(sha, a), Digested(sha, b);
      hide Stream;
      assert da[0] == db[0];
      assert da == [da[0]] + Digested(sha, a[1..]) && db == [db[0]] + Digested(sha, b[1..]);
    }
  }

  /** Everything one measurement hashes: the contents of its files, and the stream. */
  ghost predicate Hashed(sha: Hash, files: seq<FileData>, x: Bytes) {
    x == Stream(sha, files) || exists i :: 0 <= i < |files| && files[i].contents == x
  }

  /** The hash does not collide on what two measurements hash. */
  ghost predicate NoCollision(sha: Hash, a: seq<FileData>, b: seq<FileData>) {
    forall x, y | Hashed(sha, a, x) && Hashed(sha, b, y) :: sha(x) == sha(y) ==> x == y
  }

  /** Equal total digests mean equal lists of names and contents. */
  lemma EqualDigestsEqualFiles(sha: Hash, a: seq<FileData>, b: seq<FileData>)
    requires (forall x: Bytes :: |sha(x)| == 32) && Sized(a) && Sized(b) && NoCollision(sha, a, b)
    requires ToHex(sha(Stream(sha, a))) == ToHex(sha(Stream(sha, b)))
    ensures a == b
  {
    FromHexOfToHex(sha(Stream(sha, a)));
    FromHexOfToHex(sha(Stream(sha, b)));
    assert Hashed(sha, a, Stream(sha, a)) && Hashed(sha, b, Stream(sha, b));
    StreamDecodes(sha, a, b);
    var da, db := Digested(sha, a), Digested(sha, b);
    assert |a| == |b|;
    forall i | 0 <= i < |a| ensures a[i] == b[i] {
      assert da[i] == db[i];
      assert Hashed(sha, a, a[i].contents) && Hashed(sha, b, b[i].contents);
    }
  }
}
