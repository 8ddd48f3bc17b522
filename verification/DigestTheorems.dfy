/** The folder digest stands for the set of relative paths with their contents. */
module DigestTheorems {
  import opened Wrappers
  import opened Text
  import opened Codec
  import opened Order
  import opened Folder
  import opened WalkTheorems
  import opened Measurement

  predicate PlainName(n: Name) {
    n != [] && SLASH !in n && BACKSLASH !in n
  }

  /** Path names without separators. */
  predicate PlainPath(p: Path) {
    forall i | 0 <= i < |p| :: PlainName(p[i])
  }

  lemma {:induction false} JoinHasNoBackslash(p: Path)
    requires PlainPath(p)
    ensures BACKSLASH !in JoinNames(p)
  {
    if |p| > 1 {
      JoinHasNoBackslash(p[1..]);
      assert PlainName(p[0]);
    } else if |p| == 1 {
      assert PlainName(p[0]);
    }
  }

  lemma {:induction false} HeadBeforeSlash(a: Name, x: Bytes, b: Name, y: Bytes)
    requires SLASH !in a && SLASH !in b
    requires x == [] || x[0] == SLASH
    requires y == [] || y[0] == SLASH
    requires a + x == b + y
    ensures a == b && x == y
  {
    if a != [] {
      assert (a + x)[0] == a[0] && (a + x)[1..] == a[1..] + x;
    }
    if b != [] {
      assert (b + y)[0] == b[0] && (b + y)[1..] == b[1..] + y;
    }
    if a != [] && b != [] {
      HeadBeforeSlash(a[1..], x, b[1..], y);
      assert a == [a[0]] + a[1..] && b == [b[0]] + b[1..];
    } else {
      assert [] + x == x && [] + y == y;
    }
  }

  function TailNames(p: Path): Bytes
    requires p != []
  {
    if |p| == 1 then [] else [SLASH] + JoinNames(p[1..])
  }

  lemma JoinSplits(p: Path)
    requires p != [] && PlainPath(p)
    ensures JoinNames(p) == p[0] + TailNames(p) && JoinNames(p) != [] && SLASH !in p[0] && PlainPath(p[1..])
    ensures if |p| == 1 then TailNames(p) == [] else TailNames(p) != [] && TailNames(p)[0] == SLASH
    ensures |p| > 1 ==> TailNames(p)[1..] == JoinNames(p[1..])
  {
    assert PlainName(p[0]);
  }

  /** Different plain paths have different texts. */
  lemma {:induction false} JoinIsInjective(p: Path, q: Path)
    requires PlainPath(p) && PlainPath(q) && JoinNames(p) == JoinNames(q)
    ensures p == q
  {
    hide JoinNames, PlainPath, TailNames;
    NothingJoins();
    if p != [] {
      JoinSplits(p);
    }
    if q != [] {
      JoinSplits(q);
    }
    if p != [] && q != [] {
      HeadBeforeSlash(p[0], TailNames(p), q[0], TailNames(q));
      if |p| > 1 && |q| > 1 {
        JoinIsInjective(p[1..], q[1..]);
        assert p == [p[0]] + p[1..] && q == [q[0]] + q[1..];
      } else {
        assert p == [p[0]] && q == [q[0]];
      }
    }
  }

  lemma NothingJoins()
    ensures JoinNames([]) == []
  {
  }

  // ----- measurements and the paths they meet -----

  /** How a relative path is displayed; `lossy` is `to_string_lossy`. */
  function Shown(lossy: Bytes -> Bytes, rel: Path): Bytes {
    Slashed(lossy(JoinNames(rel)))
  }

  /** One measurement: a file system, its listing order, and the configured path. */
  datatype Scan = Scan(w: World, listing: Listing, path: Path)

  ghost predicate Succeeds(s: Scan) {
    WellFormed(s.w) && Lists(s.w, s.listing) && RootOf(s.w, s.path).Some? && FilesOf(s.w, s.listing, s.path).Some?
  }

  function RootIn(s: Scan): Path {
    match RootOf(s.w, s.path) case Some(root) => root case None => []
  }

  function FilesIn(s: Scan): seq<FileData> {
    match FilesOf(s.w, s.listing, s.path) case Some(files) => files case None => []
  }

  /** The measurement succeeds, and the relative paths it meets are in `paths`. */
  ghost predicate Within(s: Scan, paths: iset<Path>) {
    && Succeeds(s)
    && forall p {:trigger Collectable(s.w, RootIn(s), p)} | RootIn(s) <= p && Collectable(s.w, RootIn(s), p) ::
         p[|RootIn(s)|..] in paths
  }

  /** Two displayed names are the same just when the two paths are. */
  ghost predicate Matching(l1: Bytes -> Bytes, r1: iset<Path>, l2: Bytes -> Bytes, r2: iset<Path>) {
    forall p, q | p in r1 && q in r2 :: Shown(l1, p) == Shown(l2, q) <==> p == q
  }

  /** The displayed name tells the path: a condition on names alone. */
  ghost predicate Telling(lossy: Bytes -> Bytes, paths: iset<Path>) {
    forall p, q | p in paths && q in paths && Shown(lossy, p) == Shown(lossy, q) :: p == q
  }

  /** Paths of files, with displayed names that fit the machine. */
  ghost predicate Short(lossy: Bytes -> Bytes, paths: iset<Path>) {
    forall p | p in paths :: p != [] && |Shown(lossy, p)| < U64_SIZE
  }

  /** The file with the given path relative to the root is measured with these contents. */
  predicate Holds(s: Scan, relative: Path, contents: Bytes) {
    var p := RootIn(s) + relative;
    Collectable(s.w, RootIn(s), p) && ReadContents(s.w, RootIn(s), p) == Some(contents)
  }

  /** The same relative paths with the same contents. */
  ghost predicate SameFiles(a: Scan, b: Scan) {
    forall rel, c :: Holds(a, rel, c) <==> Holds(b, rel, c)
  }

  predicate SameTotal(sha: Hash, a: Scan, b: Scan) {
    ToHex(sha(Stream(sha, FilesIn(a)))) == ToHex(sha(Stream(sha, FilesIn(b))))
  }

  ghost predicate GoodHash(sha: Hash, a: Scan, b: Scan) {
    (forall x: Bytes :: |sha(x)| == 32) && NoCollision(sha, FilesIn(a), FilesIn(b))
  }

  /** The stream of a successful measurement is what its total digest hashes. */
  lemma TotalOf(sha: Hash, s: Scan)
    requires Succeeds(s)
    ensures
      var m := MeasurementOf(s.w, sha, s.listing, s.path);
      m.Ok? && m.value.totalHash == ToHex(sha(Stream(sha, FilesIn(s)))) && m.value.directory == RootIn(s)
  {
    hide RootOf, FilesOf, WellFormed, Lists, Stream, Listed;
  }

  lemma {:induction false} ReadAllAt(w: World, root: Path, entries: seq<Entry>, i: nat)
    requires ReadAll(w, root, entries).Some? && i < |entries|
    ensures
      var c := ReadContents(w, root, entries[i].1);
      c.Some? && ReadAll(w, root, entries).value[i] == FileData(entries[i].0, c.value)
  {
    hide ReadContents;
    if i > 0 {
      ReadAllAt(w, root, entries[1..], i - 1);
    }
  }

  /** How the measured list comes about. */
  lemma ListOf(s: Scan) returns (files: seq<Path>, entries: seq<Entry>)
    requires Succeeds(s)
    ensures entries == SortedFiles(s.w, RootIn(s), files)
    ensures ReadAll(s.w, RootIn(s), entries) == Some(FilesIn(s))
    ensures Increasing(PathLess, files)
    ensures forall p :: p in files <==> RootIn(s) < p && Collectable(s.w, RootIn(s), p)
    ensures Increasing(EntryLess, entries)
    ensures forall e: Entry :: e in entries <==> e.1 in files && e.0 == DisplayName(s.w, RootIn(s), e.1)
  {
    hide Collectable, SortedFiles, ReadAll, Increasing, WellFormed, Lists, DisplayName, EntryLess, PathLess, Walk;
    var root := RootIn(s);
    WalkIsExact(s.w, s.listing, root);
    files := Walk(s.w, s.listing, root, root).value;
    entries := SortedFiles(s.w, root, files);
    SortedFilesAreCanonical(s.w, root, files);
  }

  lemma DisplayOf(s: Scan, rel: Path)
    ensures DisplayName(s.w, RootIn(s), RootIn(s) + rel) == Shown(s.w.lossy, rel)
  {
    assert (RootIn(s) + rel)[|RootIn(s)|..] == rel;
  }

  /** What stands at each place of the measured list. */
  lemma MeasuredAt(s: Scan, paths: iset<Path>, i: nat) returns (rel: Path)
    requires Within(s, paths) && i < |FilesIn(s)|
    ensures
      var f := FilesIn(s)[i];
      rel in paths && f.name == Shown(s.w.lossy, rel) && Holds(s, rel, f.contents)
  {
    hide Collectable, SortedFiles, ReadAll, ReadContents, DisplayName, EntryLess, Increasing, Succeeds, Shown, RootIn;
    hide FilesIn;
    var files, entries := ListOf(s);
    ReadAllAt(s.w, RootIn(s), entries, i);
    var p := entries[i].1;
    assert entries[i] in entries;
    rel := p[|RootIn(s)|..];
    assert p == RootIn(s) + rel;
    DisplayOf(s, rel);
  }

  /** Every file that is there stands somewhere in the list. */
  lemma ListedSomewhere(s: Scan, paths: iset<Path>, rel: Path, c: Bytes)
    requires Within(s, paths) && Holds(s, rel, c)
    ensures rel in paths && FileData(Shown(s.w.lossy, rel), c) in FilesIn(s)
  {
    NotTheRootItself(s, rel, c);
    hide Collectable, SortedFiles, ReadAll, ReadContents, DisplayName, EntryLess, Increasing, Succeeds, Shown, RootIn;
    hide FilesIn;
    var files, entries := ListOf(s);
    var p := RootIn(s) + rel;
    assert p[|RootIn(s)|..] == rel;
    DisplayOf(s, rel);
    assert (DisplayName(s.w, RootIn(s), p), p) in entries;
    var i :| 0 <= i < |entries| && entries[i] == (DisplayName(s.w, RootIn(s), p), p);
    ReadAllAt(s.w, RootIn(s), entries, i);
    assert FilesIn(s)[i] == FileData(Shown(s.w.lossy, rel), c);
  }

  /** The root is a directory, so a measured path is longer. */
  lemma NotTheRootItself(s: Scan, rel: Path, c: Bytes)
    requires Succeeds(s) && Holds(s, rel, c)
    ensures rel != [] && RootIn(s) < RootIn(s) + rel
  {
    assert RootIn(s) + [] == RootIn(s);
  }

  // ----- equal totals, equal folders -----

  /** A file of one measurement is a file of any other with the same total digest. */
  lemma EqualTotalsShareFiles(sha: Hash, a: Scan, r1: iset<Path>, b: Scan, r2: iset<Path>, rel: Path, c: Bytes)
    requires Within(a, r1) && Within(b, r2) && Short(a.w.lossy, r1) && Short(b.w.lossy, r2)
    requires Matching(a.w.lossy, r1, b.w.lossy, r2)
    requires GoodHash(sha, a, b) && SameTotal(sha, a, b) && Holds(a, rel, c)
    ensures Holds(b, rel, c)
  {
    hide Within, Holds, FilesIn, Shown, Stream, NoCollision;
    forall i | 0 <= i < |FilesIn(a)| ensures |FilesIn(a)[i].name| < U64_SIZE {
      var _ := MeasuredAt(a, r1, i);
    }
    forall i | 0 <= i < |FilesIn(b)| ensures |FilesIn(b)[i].name| < U64_SIZE {
      var _ := MeasuredAt(b, r2, i);
    }
    EqualDigestsEqualFiles(sha, FilesIn(a), FilesIn(b));
    ListedSomewhere(a, r1, rel, c);
    var f := FileData(Shown(a.w.lossy, rel), c);
    assert f in FilesIn(b);
    var i :| 0 <= i < |FilesIn(b)| && FilesIn(b)[i] == f;
    var rel2 := MeasuredAt(b, r2, i);
    assert rel == rel2;
  }

  lemma MatchingFlips(l1: Bytes -> Bytes, r1: iset<Path>, l2: Bytes -> Bytes, r2: iset<Path>)
    requires Matching(l1, r1, l2, r2)
    ensures Matching(l2, r2, l1, r1)
  {
    hide Shown;
  }

  lemma NoCollisionFlips(sha: Hash, a: Scan, b: Scan)
    requires GoodHash(sha, a, b)
    ensures GoodHash(sha, b, a)
  {
    hide FilesIn, Stream;
  }

  /** Equal totals mean equal folders wherever displayed names tell the paths. */
  lemma EqualTotalsSameFiles(sha: Hash, a: Scan, r1: iset<Path>, b: Scan, r2: iset<Path>)
    requires Within(a, r1) && Within(b, r2) && Short(a.w.lossy, r1) && Short(b.w.lossy, r2)
    requires Matching(a.w.lossy, r1, b.w.lossy, r2)
    requires GoodHash(sha, a, b) && SameTotal(sha, a, b)
    ensures SameFiles(a, b)
  {
    hide Within, Holds, Short, Matching, GoodHash, SameTotal;
    MatchingFlips(a.w.lossy, r1, b.w.lossy, r2);
    NoCollisionFlips(sha, a, b);
    assert SameTotal(sha, b, a) by {
      SameTotalFlips(sha, a, b);
    }
    forall rel, c ensures Holds(a, rel, c) <==> Holds(b, rel, c) {
      if Holds(a, rel, c) {
        EqualTotalsShareFiles(sha, a, r1, b, r2, rel, c);
      }
      if Holds(b, rel, c) {
        EqualTotalsShareFiles(sha, b, r2, a, r1, rel, c);
      }
    }
  }

  lemma SameTotalFlips(sha: Hash, a: Scan, b: Scan)
    requires SameTotal(sha, a, b)
    ensures SameTotal(sha, b, a)
  {
  }

  // ----- equal folders, equal totals -----

  ghost predicate NamesUp(files: seq<FileData>) {
    forall i, j | 0 <= i < j < |files| :: NameLess(files[i].name, files[j].name)
  }

  /** Lists that are increasing by name are determined by their elements. */
  lemma {:induction false} NamesUpIsUnique(a: seq<FileData>, b: seq<FileData>)
    requires NamesUp(a) && NamesUp(b) && forall f :: f in a <==> f in b
    ensures a == b
  {
    OrdersAreTotal();
    hide NameLess;
    if a != [] {
      assert a[0] in a;
    }
    if b != [] {
      assert b[0] in b;
    }
    if a != [] && b != [] {
      assert a[0] in b && b[0] in a;
      assert a[0] == b[0];
      forall f ensures f in a[1..] <==> f in b[1..] {
        assert f in a <==> f == a[0] || f in a[1..];
        assert f in b <==> f == b[0] || f in b[1..];
        assert a[0] !in a[1..] && b[0] !in b[1..];
      }
      NamesUpIsUnique(a[1..], b[1..]);
      assert a == [a[0]] + a[1..] && b == [b[0]] + b[1..];
    }
  }

  /** Names of measured files are strictly increasing where they tell the paths: no two coincide. */
  lemma NamesIncrease(s: Scan, paths: iset<Path>)
    requires Within(s, paths) && Telling(s.w.lossy, paths)
    ensures NamesUp(FilesIn(s))
  {
    OrdersAreTotal();
    hide Collectable, SortedFiles, ReadAll, ReadContents, DisplayName, Succeeds, Shown, RootIn, FilesIn;
    hide NameLess, PathLess;
    var files, entries := ListOf(s);
    var root, data := RootIn(s), FilesIn(s);
    forall i, j | 0 <= i < j < |data| ensures NameLess(data[i].name, data[j].name) {
      ReadAllAt(s.w, root, entries, i);
      ReadAllAt(s.w, root, entries, j);
      var p, q := entries[i].1, entries[j].1;
      assert entries[i] in entries && entries[j] in entries && EntryLess(entries[i], entries[j]);
      assert p == root + p[|root|..] && q == root + q[|root|..];
      DisplayOf(s, p[|root|..]);
      DisplayOf(s, q[|root|..]);
    }
  }

  lemma SharedFile(a: Scan, r1: iset<Path>, b: Scan, r2: iset<Path>, f: FileData)
    requires Within(a, r1) && Within(b, r2) && Matching(a.w.lossy, r1, b.w.lossy, r2) && SameFiles(a, b)
    requires f in FilesIn(a)
    ensures f in FilesIn(b)
  {
    hide Within, Holds, FilesIn, Shown;
    var i :| 0 <= i < |FilesIn(a)| && FilesIn(a)[i] == f;
    var rel := MeasuredAt(a, r1, i);
    assert Holds(b, rel, f.contents);
    ListedSomewhere(b, r2, rel, f.contents);
  }

  lemma SameFilesFlips(a: Scan, b: Scan)
    requires SameFiles(a, b)
    ensures SameFiles(b, a)
  {
    hide Holds;
  }

  // ----- one system: the folder determines the list, whatever the names -----

  /** The relative path of every place of the measured list, with its displayed name. */
  ghost predicate Places(s: Scan, places: seq<Entry>) {
    && Increasing(EntryLess, places) && |places| == |FilesIn(s)|
    && (forall i | 0 <= i < |places| ::
          && FilesIn(s)[i].name == places[i].0 == Shown(s.w.lossy, places[i].1)
          && Holds(s, places[i].1, FilesIn(s)[i].contents))
    && forall rel, c | Holds(s, rel, c) :: (Shown(s.w.lossy, rel), rel) in places
  }

  /** Below a common root the order of paths is that of relative paths. */
  lemma OrderBelow(root: Path, a: Entry, b: Entry)
    requires EntryLess((a.0, root + a.1), (b.0, root + b.1))
    ensures EntryLess(a, b)
  {
    OrdersAreTotal();
    LexAfterPrefix(NameLess, root, a.1, b.1);
    hide NameLess;
  }

  lemma PlacesOf(s: Scan) returns (places: seq<Entry>)
    requires Succeeds(s)
    ensures Places(s, places)
  {
    hide Collectable, SortedFiles, ReadAll, ReadContents, DisplayName, EntryLess, Increasing, Succeeds, Shown, RootIn;
    hide FilesIn;
    var root := RootIn(s);
    var files, entries := ListOf(s);
    places := seq(|entries|, i requires 0 <= i < |entries| => (entries[i].0, entries[i].1[|root|..]));
    forall i | 0 <= i < |places|
      ensures entries[i] == (places[i].0, root + places[i].1)
      ensures FilesIn(s)[i].name == places[i].0 == Shown(s.w.lossy, places[i].1)
      ensures Holds(s, places[i].1, FilesIn(s)[i].contents)
    {
      assert entries[i] in entries;
      assert entries[i].1 == root + places[i].1;
      ReadAllAt(s.w, root, entries, i);
      DisplayOf(s, places[i].1);
    }
    PlacesIncrease(root, entries, places);
    forall rel, c | Holds(s, rel, c) ensures (Shown(s.w.lossy, rel), rel) in places {
      NotTheRootItself(s, rel, c);
      DisplayOf(s, rel);
      var e: Entry := (Shown(s.w.lossy, rel), root + rel);
      assert e in entries;
      var i :| 0 <= i < |entries| && entries[i] == e;
      assert (root + rel)[|root|..] == rel && places[i] in places;
    }
  }

  lemma PlacesIncrease(root: Path, entries: seq<Entry>, places: seq<Entry>)
    requires Increasing(EntryLess, entries) && |places| == |entries|
    requires forall i | 0 <= i < |places| :: entries[i] == (places[i].0, root + places[i].1)
    ensures Increasing(EntryLess, places)
  {
    hide EntryLess;
    forall i, j | 0 <= i < j < |places| ensures EntryLess(places[i], places[j]) {
      assert EntryLess(entries[i], entries[j]);
      OrderBelow(root, places[i], places[j]);
    }
  }

  lemma PlacesShared(a: Scan, b: Scan, pa: seq<Entry>, pb: seq<Entry>, e: Entry)
    requires Places(a, pa) && Places(b, pb) && SameFiles(a, b) && a.w.lossy == b.w.lossy && e in pa
    ensures e in pb
  {
    hide Holds, FilesIn, Increasing, EntryLess, Shown;
    var i :| 0 <= i < |pa| && pa[i] == e;
    assert Holds(b, e.1, FilesIn(a)[i].contents);
  }

  lemma HoldsOnce(s: Scan, rel: Path, c: Bytes, d: Bytes)
    requires Holds(s, rel, c) && Holds(s, rel, d)
    ensures c == d
  {
    hide Collectable, ReadContents;
  }

  /**
   * On one system the measured list depends on nothing but the relative paths and contents of the files:
   * not on the root, the listing order or anything else in the folder, also where displayed names coincide.
   */
  lemma SameFilesSameList(sha: Hash, a: Scan, b: Scan)
    requires Succeeds(a) && Succeeds(b) && a.w.lossy == b.w.lossy && SameFiles(a, b)
    ensures FilesIn(a) == FilesIn(b) && SameTotal(sha, a, b)
  {
    var pa := PlacesOf(a);
    var pb := PlacesOf(b);
    hide Succeeds, Holds, FilesIn, Increasing, EntryLess, Shown, Stream;
    SameFilesFlips(a, b);
    forall e ensures e in pa <==> e in pb {
      if e in pa {
        PlacesShared(a, b, pa, pb, e);
      }
      if e in pb {
        PlacesShared(b, a, pb, pa, e);
      }
    }
    EntryOrderIsTotal();
    IncreasingIsUnique(EntryLess, pa, pb);
    forall i | 0 <= i < |pa| ensures FilesIn(a)[i] == FilesIn(b)[i] {
      HoldsOnce(b, pa[i].1, FilesIn(a)[i].contents, FilesIn(b)[i].contents);
    }
    assert FilesIn(a) == FilesIn(b);
  }

  /**
   * The whole result of a successful measurement: one item for each file, no more and no fewer, with its
   * displayed name, the digest and the size of its contents, in the order of the raw bytes of the names,
   * and of the paths component by component where names coincide.
   */
  lemma MeasurementLayout(sha: Hash, s: Scan) returns (places: seq<Entry>)
    requires Succeeds(s)
    ensures MeasurementOf(s.w, sha, s.listing, s.path).Ok?
    ensures
      var m := MeasurementOf(s.w, sha, s.listing, s.path).value;
      && m.directory == RootIn(s) && |m.measurement| == |places|
      && (forall i | 0 <= i < |places| ::
            exists c :: Holds(s, places[i].1, c)
                        && m.measurement[i] == MeasuredFile(Shown(s.w.lossy, places[i].1), ToHex(sha(c)), |c|))
      && (forall rel, c | Holds(s, rel, c) :: exists i | 0 <= i < |places| :: places[i].1 == rel)
      && (forall i, j | 0 <= i < j < |places| ::
            || BytesAscend(m.measurement[i].name, m.measurement[j].name)
            || (m.measurement[i].name == m.measurement[j].name && ComponentsAscend(places[i].1, places[j].1)))
  {
    places := PlacesOf(s);
    TotalOf(sha, s);
    ListedOf(sha, s);
    hide Succeeds, Holds, FilesIn, EntryLess, Shown, MeasurementOf, RootIn, BytesAscend, ComponentsAscend;
    var m := MeasurementOf(s.w, sha, s.listing, s.path).value;
    forall i, j | 0 <= i < j < |places|
      ensures || BytesAscend(m.measurement[i].name, m.measurement[j].name)
              || (m.measurement[i].name == m.measurement[j].name && ComponentsAscend(places[i].1, places[j].1))
    {
      EntriesAscend(places[i], places[j]);
    }
    forall rel, c | Holds(s, rel, c) ensures exists i | 0 <= i < |places| :: places[i].1 == rel {
      assert (Shown(s.w.lossy, rel), rel) in places;
    }
  }

  lemma EntriesAscend(a: Entry, b: Entry)
    ensures EntryLess(a, b) <==> BytesAscend(a.0, b.0) || (a.0 == b.0 && ComponentsAscend(a.1, b.1))
  {
    NamesAscend(a.0, b.0);
    PathsAscend(a.1, b.1);
    hide NameLess, PathLess, BytesAscend, ComponentsAscend;
  }

  lemma ListedOf(sha: Hash, s: Scan)
    requires Succeeds(s)
    ensures MeasurementOf(s.w, sha, s.listing, s.path).Ok?
    ensures MeasurementOf(s.w, sha, s.listing, s.path).value.measurement == Listed(sha, FilesIn(s))
  {
    hide RootOf, FilesOf, WellFormed, Lists, Stream, Listed;
  }

  // ----- when a measurement fails -----

  lemma {:induction false} ReadAllFails(w: World, root: Path, entries: seq<Entry>)
    ensures ReadAll(w, root, entries).None? <==>
            exists i | 0 <= i < |entries| :: ReadContents(w, root, entries[i].1).None?
  {
    hide ReadContents;
    if entries != [] {
      ReadAllFails(w, root, entries[1..]);
      assert forall i | 1 <= i < |entries| :: entries[i] == entries[1..][i - 1];
      assert forall i | 0 <= i < |entries| - 1 :: entries[1..][i] == entries[i + 1];
    }
  }

  /** One of the files that are collected cannot be read. */
  ghost predicate UnreadFile(w: World, root: Path) {
    exists p :: root < p && Collectable(w, root, p) && ReadContents(w, root, p).None?
  }

  lemma FilesFail(w: World, listing: Listing, root: Path, files: seq<Path>)
    requires WellFormed(w) && Lists(w, listing) && root in w.nodes && w.nodes[root].Directory?
    requires Walk(w, listing, root, root) == Some(files)
    ensures ReadAll(w, root, SortedFiles(w, root, files)).None? <==> UnreadFile(w, root)
  {
    hide Walk, Collectable, ReadContents, SortedFiles, WellFormed, Lists, DisplayName, EntryLess, PathLess;
    WalkIsExact(w, listing, root);
    var entries := SortedFiles(w, root, files);
    SortedFilesAreCanonical(w, root, files);
    ReadAllFails(w, root, entries);
    hide Increasing, ReadAll;
    if UnreadFile(w, root) {
      var p :| root < p && Collectable(w, root, p) && ReadContents(w, root, p).None?;
      var e: Entry := (DisplayName(w, root, p), p);
      assert e in entries;
      var i :| 0 <= i < |entries| && entries[i] == e;
    }
    if i :| 0 <= i < |entries| && ReadContents(w, root, entries[i].1).None? {
      assert entries[i] in entries;
    }
  }

  /**
   * A measurement fails exactly if the configured path does not lead to a directory, something below it
   * cannot be looked at or listed, or one of the files that belong to it cannot be read; it is always an
   * internal error.
   */
  lemma FailsExactly(sha: Hash, s: Scan)
    requires WellFormed(s.w) && Lists(s.w, s.listing)
    ensures
      var root := Canonicalize(s.w, s.path);
      MeasurementOf(s.w, sha, s.listing, s.path).Err? <==>
      || root.None? || root.value !in s.w.nodes || !s.w.nodes[root.value].Directory?
      || UnreadableBelow(s.w, root.value) || UnreadFile(s.w, root.value)
    ensures MeasurementOf(s.w, sha, s.listing, s.path).Err? ==>
              MeasurementOf(s.w, sha, s.listing, s.path).error == Internal
  {
    hide Canonicalize, WellFormed, Lists, Walk, UnreadableBelow, UnreadFile, ReadAll, SortedFiles, Stream, Listed;
    var root := RootOf(s.w, s.path);
    if root.Some? {
      WalkIsExact(s.w, s.listing, root.value);
      if Walk(s.w, s.listing, root.value, root.value).Some? {
        FilesFail(s.w, s.listing, root.value, Walk(s.w, s.listing, root.value, root.value).value);
      }
    }
    hide Increasing;
  }

  // ----- different systems: where names tell the paths -----

  /** Where names tell the paths, the same files give the same total, wherever the folders are. */
  lemma SameFilesEqualTotals(sha: Hash, a: Scan, r1: iset<Path>, b: Scan, r2: iset<Path>)
    requires Within(a, r1) && Within(b, r2) && Telling(a.w.lossy, r1) && Telling(b.w.lossy, r2)
    requires Matching(a.w.lossy, r1, b.w.lossy, r2) && SameFiles(a, b)
    ensures SameTotal(sha, a, b)
  {
    hide Within, SameFiles, FilesIn, Matching, Telling, NamesUp;
    NamesIncrease(a, r1);
    NamesIncrease(b, r2);
    MatchingFlips(a.w.lossy, r1, b.w.lossy, r2);
    SameFilesFlips(a, b);
    forall f ensures f in FilesIn(a) <==> f in FilesIn(b) {
      if f in FilesIn(a) {
        SharedFile(a, r1, b, r2, f);
      }
      if f in FilesIn(b) {
        SharedFile(b, r2, a, r1, f);
      }
    }
    NamesUpIsUnique(FilesIn(a), FilesIn(b));
  }

  // ----- plain names -----

  /** Relative paths that are valid text without slashes or backslashes in a name. */
  ghost function PlainPaths(lossy: Bytes -> Bytes): iset<Path> {
    iset p: Path | p != [] && PlainPath(p) && lossy(JoinNames(p)) == JoinNames(p) && |JoinNames(p)| < U64_SIZE
  }

  lemma PlainIsShownAsIs(lossy: Bytes -> Bytes, p: Path)
    requires p in PlainPaths(lossy)
    ensures Shown(lossy, p) == JoinNames(p)
  {
    var name := JoinNames(p);
    JoinHasNoBackslash(p);
    assert forall i | 0 <= i < |name| :: name[i] in name;
    assert Slashed(name) == name;
  }

  lemma PlainPathsMatch(l1: Bytes -> Bytes, l2: Bytes -> Bytes)
    ensures Matching(l1, PlainPaths(l1), l2, PlainPaths(l2)) && Short(l1, PlainPaths(l1))
  {
    hide Shown, JoinNames;
    forall p | p in PlainPaths(l1) ensures |Shown(l1, p)| < U64_SIZE {
      PlainIsShownAsIs(l1, p);
    }
    forall p, q | p in PlainPaths(l1) && q in PlainPaths(l2) ensures Shown(l1, p) == Shown(l2, q) <==> p == q {
      PlainIsShownAsIs(l1, p);
      PlainIsShownAsIs(l2, q);
      if JoinNames(p) == JoinNames(q) {
        JoinIsInjective(p, q);
      }
    }
  }

  lemma MatchingTells(lossy: Bytes -> Bytes, paths: iset<Path>)
    ensures Telling(lossy, paths) <==> Matching(lossy, paths, lossy, paths)
  {
    hide Shown;
  }

  /** The measurement succeeds, and the names it meets are plain. */
  ghost predicate PlainlyMeasured(s: Scan) {
    Within(s, PlainPaths(s.w.lossy))
  }

  /**
   * Two measured folders with plain names have the same total digest exactly when they hold the same
   * relative paths with the same contents, as long as the hash does not collide on their data.
   */
  lemma PlainDigestsTell(sha: Hash, a: Scan, b: Scan)
    requires PlainlyMeasured(a) && PlainlyMeasured(b) && GoodHash(sha, a, b)
    ensures SameTotal(sha, a, b) <==> SameFiles(a, b)
  {
    hide Within, PlainPaths, Matching, Short, Telling, GoodHash, SameTotal, SameFiles;
    var (l1, l2) := (a.w.lossy, b.w.lossy);
    PlainPathsMatch(l1, l2);
    PlainPathsMatch(l2, l1);
    PlainPathsMatch(l1, l1);
    PlainPathsMatch(l2, l2);
    MatchingTells(l1, PlainPaths(l1));
    MatchingTells(l2, PlainPaths(l2));
    if SameTotal(sha, a, b) {
      EqualTotalsSameFiles(sha, a, PlainPaths(l1), b, PlainPaths(l2));
    }
    if SameFiles(a, b) {
      SameFilesEqualTotals(sha, a, PlainPaths(l1), b, PlainPaths(l2));
    }
  }

  // ----- folders of one file -----

  /** The path and everything above it. */
  function Prefixes(p: Path): (r: set<Path>)
    ensures forall q :: q in r <==> q <= p
  {
    var r := set k | 0 <= k <= |p| :: p[..k];
    assert forall q | q <= p :: q == p[..|q|];
    r
  }

  /** A file system whose root holds one empty file, at `rel`. */
  function OneFile(lossy: Bytes -> Bytes, rel: Path): Scan {
    Scan(World(map p | p in Prefixes(rel) :: if p == rel then File(Some([])) else Directory(true), 40, lossy),
         dir => if dir < rel then [rel[|dir|]] else [], [])
  }

  lemma OneFileAt(lossy: Bytes -> Bytes, rel: Path, p: Path)
    ensures
      var w := OneFile(lossy, rel).w;
      && w.lossy == lossy && (p in w.nodes <==> p <= rel)
      && (p < rel ==> w.nodes[p] == Directory(true)) && (p == rel ==> p in w.nodes && w.nodes[p] == File(Some([])))
  {
    assert rel <= rel;
  }

  lemma OneFileIsWellFormed(lossy: Bytes -> Bytes, rel: Path)
    requires rel != []
    ensures WellFormed(OneFile(lossy, rel).w)
  {
    var w := OneFile(lossy, rel).w;
    hide OneFile;
    assert [] < rel;
    OneFileAt(lossy, rel, []);
    forall p | p in w.nodes && p != [] ensures p[..|p| - 1] in w.nodes && w.nodes[p[..|p| - 1]].Directory? {
      OneFileAt(lossy, rel, p);
      assert p[..|p| - 1] < rel;
      OneFileAt(lossy, rel, p[..|p| - 1]);
    }
  }

  lemma OneFileEntry(lossy: Bytes -> Bytes, rel: Path, dir: Path, n: Name)
    requires dir < rel
    ensures
      var s := OneFile(lossy, rel);
      (n in s.listing(dir) <==> dir + [n] in s.w.nodes) && s.listing(dir) == [rel[|dir|]]
  {
    var s := OneFile(lossy, rel);
    OneFileAt(lossy, rel, dir + [n]);
    assert s.listing(dir) == [rel[|dir|]];
    assert (dir + [n])[|dir|] == n;
    if n == rel[|dir|] {
      assert dir + [n] == rel[..|dir| + 1];
    }
  }

  lemma OneFileIsListed(lossy: Bytes -> Bytes, rel: Path)
    ensures Lists(OneFile(lossy, rel).w, OneFile(lossy, rel).listing)
  {
    var s := OneFile(lossy, rel);
    hide OneFile;
    forall dir | dir in s.w.nodes && s.w.nodes[dir].Directory?
      ensures forall n :: n in s.listing(dir) <==> dir + [n] in s.w.nodes
      ensures |s.listing(dir)| <= 1
    {
      OneFileAt(lossy, rel, dir);
      assert dir < rel;
      OneFileEntry(lossy, rel, dir, []);
      forall n ensures n in s.listing(dir) <==> dir + [n] in s.w.nodes {
        OneFileEntry(lossy, rel, dir, n);
      }
    }
  }

  lemma OneFileHasRoot(lossy: Bytes -> Bytes, rel: Path)
    requires rel != []
    ensures RootOf(OneFile(lossy, rel).w, OneFile(lossy, rel).path) == Some([]) && OneFile(lossy, rel).path == []
  {
    var s := OneFile(lossy, rel);
    var none: seq<Component> := [];
    assert Components(s.path) == none;
    OneFileAt(lossy, rel, []);
    assert [] < rel;
  }

  lemma OneFileCollects(lossy: Bytes -> Bytes, rel: Path, p: Path)
    requires rel != []
    ensures Collectable(OneFile(lossy, rel).w, [], p) <==> p == rel
    ensures !Unreadable(OneFile(lossy, rel).w, p)
  {
    OneFileAt(lossy, rel, p);
    hide OneFile;
    assert p <= rel ==> p == rel || p < rel;
  }

  lemma OneFileIsWalked(lossy: Bytes -> Bytes, rel: Path)
    requires rel != []
    ensures Walk(OneFile(lossy, rel).w, OneFile(lossy, rel).listing, [], []) == Some([rel])
  {
    var s := OneFile(lossy, rel);
    hide OneFile, WellFormed, Lists, Walk, Collectable, Unreadable, Increasing, PathLess;
    OneFileIsWellFormed(lossy, rel);
    OneFileIsListed(lossy, rel);
    assert [] < rel;
    OneFileAt(lossy, rel, []);
    WalkIsExact(s.w, s.listing, []);
    forall q | q in Below(s.w, []) ensures !Unreadable(s.w, q) {
      OneFileCollects(lossy, rel, q);
    }
    var files := Walk(s.w, s.listing, [], []).value;
    forall q ensures q in files <==> q in [rel] {
      OneFileCollects(lossy, rel, q);
    }
    OrdersAreTotal();
    assert Increasing(PathLess, [rel]) by {
      OneIsIncreasing(rel);
    }
    IncreasingIsUnique(PathLess, files, [rel]);
  }

  lemma OneIsIncreasing(p: Path)
    ensures Increasing(PathLess, [p])
  {
  }

  lemma SortOfOne(entry: Entry)
    ensures Sort(NameLeq, [entry]) == [entry]
  {
    var none: seq<Entry> := [];
    assert [entry][1..] == none && Sort(NameLeq, none) == none && Insert(NameLeq, entry, none) == [entry];
  }

  lemma ReadOfOne(w: World, root: Path, entry: Entry, c: Bytes)
    requires ReadContents(w, root, entry.1) == Some(c)
    ensures ReadAll(w, root, [entry]) == Some([FileData(entry.0, c)])
  {
    hide ReadContents;
    var none: seq<Entry> := [];
    var nothing: seq<FileData> := [];
    assert [entry][1..] == none && ReadAll(w, root, none) == Some(nothing);
    assert [FileData(entry.0, c)] + nothing == [FileData(entry.0, c)];
  }

  /** Its measurement: the one name, and nothing in the file. */
  lemma OneFileIsMeasured(lossy: Bytes -> Bytes, rel: Path)
    requires rel != []
    ensures
      var s := OneFile(lossy, rel);
      && Succeeds(s) && RootIn(s) == [] && FilesIn(s) == [FileData(Shown(lossy, rel), [])] && s.w.lossy == lossy
  {
    var s := OneFile(lossy, rel);
    hide OneFile, WellFormed, Lists, Walk, RootOf, DisplayName, Shown, ReadContents, Sort, ReadAll;
    OneFileIsWellFormed(lossy, rel);
    OneFileIsListed(lossy, rel);
    OneFileHasRoot(lossy, rel);
    OneFileIsWalked(lossy, rel);
    OneFileAt(lossy, rel, rel);
    OneFileReads(lossy, rel);
    DisplayOf(s, rel);
    assert [] + rel == rel;
    var entry: Entry := (DisplayName(s.w, [], rel), rel);
    assert Measurement.Entries(s.w, [], [rel]) == [entry];
    SortOfOne(entry);
    ReadOfOne(s.w, [], entry, []);
  }

  lemma OneFileReads(lossy: Bytes -> Bytes, rel: Path)
    ensures ReadContents(OneFile(lossy, rel).w, [], rel) == Some([])
  {
    OneFileAt(lossy, rel, rel);
  }

  lemma OneFileHolds(lossy: Bytes -> Bytes, rel: Path, q: Path, c: Bytes)
    requires rel != []
    ensures Holds(OneFile(lossy, rel), q, c) <==> q == rel && c == []
  {
    hide OneFile, RootOf, Collectable, ReadContents;
    OneFileHasRoot(lossy, rel);
    assert [] + q == q;
    OneFileCollects(lossy, rel, q);
    OneFileReads(lossy, rel);
  }

  lemma OneFileIsWithin(lossy: Bytes -> Bytes, rel: Path, paths: iset<Path>)
    requires rel in paths && rel != []
    ensures Within(OneFile(lossy, rel), paths)
  {
    var s := OneFile(lossy, rel);
    hide OneFile, Succeeds, FilesIn, Shown, Collectable, RootIn;
    OneFileIsMeasured(lossy, rel);
    forall p | Collectable(s.w, [], p) ensures p[0..] in paths {
      OneFileCollects(lossy, rel, p);
      assert p[0..] == p;
    }
  }

  /**
   * Where two paths share a displayed name, no hash tells them apart: there are two folders with one
   * empty file each, at the one path and at the other, and one total digest.
   */
  lemma SharedNameSharedDigest(sha: Hash, lossy: Bytes -> Bytes, p: Path, q: Path)
    requires p != [] && q != [] && p != q && Shown(lossy, p) == Shown(lossy, q)
    ensures
      var (a, b) := (OneFile(lossy, p), OneFile(lossy, q));
      && Succeeds(a) && Succeeds(b) && SameTotal(sha, a, b) && !SameFiles(a, b)
  {
    var (a, b) := (OneFile(lossy, p), OneFile(lossy, q));
    OneFileIsMeasured(lossy, p);
    OneFileIsMeasured(lossy, q);
    hide Succeeds, FilesIn, Shown, OneFile, Holds, Stream;
    OneFileHolds(lossy, p, p, []);
    OneFileHolds(lossy, q, p, []);
  }

  /** The promise, for paths out of a given set: equal totals, equal folders. */
  ghost predicate Binds(lossy: Bytes -> Bytes, paths: iset<Path>) {
    forall sha: Hash, a: Scan, b: Scan ::
      (Within(a, paths) && Within(b, paths) && a.w.lossy == lossy && b.w.lossy == lossy
       && GoodHash(sha, a, b) && SameTotal(sha, a, b)) ==> SameFiles(a, b)
  }

  lemma TellingNamesBind(lossy: Bytes -> Bytes, paths: iset<Path>)
    requires Short(lossy, paths) && Telling(lossy, paths)
    ensures Binds(lossy, paths)
  {
    hide Within, GoodHash, SameTotal, SameFiles, Matching, Short, Telling;
    MatchingTells(lossy, paths);
    forall sha: Hash, a: Scan, b: Scan
      | Within(a, paths) && Within(b, paths) && a.w.lossy == lossy && b.w.lossy == lossy
        && GoodHash(sha, a, b) && SameTotal(sha, a, b)
      ensures SameFiles(a, b)
    {
      EqualTotalsSameFiles(sha, a, paths, b, paths);
    }
  }

  /** A hash that does not collide on an empty file and a stream of one file. */
  function TwoValued(x: Bytes): Bytes {
    if x == [] then seq(32, _ => 0) else seq(32, _ => 1)
  }

  lemma TwoValuedIsGood(a: Scan, b: Scan, name: Bytes)
    requires FilesIn(a) == [FileData(name, [])] && FilesIn(b) == [FileData(name, [])]
    ensures GoodHash(TwoValued, a, b)
  {
    hide FilesIn;
    var stream := Stream(TwoValued, FilesIn(a));
    StreamParts(TwoValued, FilesIn(a));
    forall x, y | Hashed(TwoValued, FilesIn(a), x) && Hashed(TwoValued, FilesIn(b), y)
      ensures TwoValued(x) == TwoValued(y) ==> x == y
    {
      assert x == stream || x == [];
      assert y == stream || y == [];
      assert TwoValued([])[0] != TwoValued(stream)[0];
    }
  }

  lemma SharedNamesDoNotBind(lossy: Bytes -> Bytes, paths: iset<Path>, p: Path, q: Path)
    requires p in paths && q in paths && p != [] && q != [] && p != q && Shown(lossy, p) == Shown(lossy, q)
    ensures !Binds(lossy, paths)
  {
    hide Within, GoodHash, SameTotal, SameFiles, Shown, OneFile, Succeeds, FilesIn;
    var (a, b) := (OneFile(lossy, p), OneFile(lossy, q));
    SharedNameSharedDigest(TwoValued, lossy, p, q);
    OneFileIsWithin(lossy, p, paths);
    OneFileIsWithin(lossy, q, paths);
    OneFileIsMeasured(lossy, p);
    OneFileIsMeasured(lossy, q);
    TwoValuedIsGood(a, b, Shown(lossy, p));
    assert GoodHash(TwoValued, a, b) && SameTotal(TwoValued, a, b);
  }

  /** The total digest binds the paths out of a set exactly when their displayed names tell them. */
  lemma BindsExactlyTellingNames(lossy: Bytes -> Bytes, paths: iset<Path>)
    requires Short(lossy, paths)
    ensures Binds(lossy, paths) <==> Telling(lossy, paths)
  {
    hide Shown, Binds;
    if Telling(lossy, paths) {
      TellingNamesBind(lossy, paths);
    } else {
      var p, q :| p in paths && q in paths && Shown(lossy, p) == Shown(lossy, q) && p != q;
      SharedNamesDoNotBind(lossy, paths, p, q);
    }
  }

  /** The conversion leaves a text alone. */
  predicate Kept(lossy: Bytes -> Bytes, text: Bytes) {
    lossy(text) == text
  }

  lemma BackslashIsShownAsSlash(lossy: Bytes -> Bytes, x: Name, y: Name)
    requires SLASH !in x + y && BACKSLASH !in x + y
    requires Kept(lossy, x + [BACKSLASH] + y) && Kept(lossy, x + [SLASH] + y)
    ensures [x + [BACKSLASH] + y] != [x, y] && Shown(lossy, [x + [BACKSLASH] + y]) == Shown(lossy, [x, y])
  {
    var one, two := [x + [BACKSLASH] + y], [x, y];
    assert two[1..] == [y] && |one| != |two|;
    var joined := x + [SLASH] + y;
    assert JoinNames([y]) == y && JoinNames(two) == two[0] + [SLASH] + JoinNames(two[1..]) == joined;
    assert JoinNames(one) == x + [BACKSLASH] + y;
    assert forall i | 0 <= i < |x + y| :: (x + y)[i] in x + y;
    assert forall i | 0 <= i < |x| :: x[i] == (x + y)[i];
    assert forall i | 0 <= i < |y| :: y[i] == (x + y)[|x| + i];
    assert Slashed(JoinNames(one)) == joined && Slashed(joined) == joined;
  }

  /**
   * So the digest does not bind every relative path, whatever the hash: a folder with a file `x\y` and a
   * folder with a file `y` in a directory `x` have the same `total_hash`. All that is asked of the
   * conversion is that it shows these two texts as they are.
   */
  lemma BackslashHidesThePath(sha: Hash, lossy: Bytes -> Bytes, x: Name, y: Name) returns (a: Scan, b: Scan)
    requires SLASH !in x + y && BACKSLASH !in x + y
    requires Kept(lossy, x + [BACKSLASH] + y) && Kept(lossy, x + [SLASH] + y)
    ensures Succeeds(a) && Succeeds(b) && a.w.lossy == b.w.lossy == lossy
    ensures MeasurementOf(a.w, sha, a.listing, a.path).Ok? && MeasurementOf(b.w, sha, b.listing, b.path).Ok?
    ensures MeasurementOf(a.w, sha, a.listing, a.path).value.totalHash
            == MeasurementOf(b.w, sha, b.listing, b.path).value.totalHash
    ensures Holds(a, [x + [BACKSLASH] + y], []) && !Holds(b, [x + [BACKSLASH] + y], [])
    ensures Holds(b, [x, y], []) && !Holds(a, [x, y], [])
  {
    var one, two := [x + [BACKSLASH] + y], [x, y];
    BackslashIsShownAsSlash(lossy, x, y);
    a, b := OneFile(lossy, one), OneFile(lossy, two);
    OneFileIsMeasured(lossy, one);
    OneFileIsMeasured(lossy, two);
    hide Shown, OneFile, Succeeds, Holds;
    SharedNameSharedDigest(sha, lossy, one, two);
    TotalOf(sha, a);
    TotalOf(sha, b);
    OneFileHolds(lossy, one, one, []);
    OneFileHolds(lossy, one, two, []);
    OneFileHolds(lossy, two, one, []);
    OneFileHolds(lossy, two, two, []);
  }
}
