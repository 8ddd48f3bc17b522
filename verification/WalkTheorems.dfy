/** What the walk collects, when it fails, and that the listing order does not matter. */
module WalkTheorems {
  import opened Wrappers
  import opened Text
  import opened Order
  import opened Folder

  /** A regular file, or a symlink that ends at one inside the root. */
  predicate Collectable(w: World, root: Path, p: Path) {
    && p in w.nodes
    && (w.nodes[p].File? || (w.nodes[p].Link? && LinkTarget(w, root, p).Some?))
  }

  /** An entry the walk cannot look at, or a directory it cannot list. */
  predicate Unreadable(w: World, p: Path) {
    p in w.nodes && (w.nodes[p].NoMetadata? || w.nodes[p] == Directory(false))
  }

  ghost predicate UnreadableBelow(w: World, p: Path) {
    exists q :: q in Below(w, p) && Unreadable(w, q)
  }

  /** `files` is the increasing list of everything collectable at or below `p`. */
  ghost predicate CollectedBelow(w: World, root: Path, p: Path, files: seq<Path>) {
    Increasing(PathLess, files) && forall q :: q in files <==> (p <= q && Collectable(w, root, q))
  }

  ghost predicate WalkedRight(w: World, root: Path, p: Path, r: Option<seq<Path>>) {
    && (r.None? <==> UnreadableBelow(w, p))
    && (r.Some? ==> CollectedBelow(w, root, p, r.value))
  }

  lemma {:induction false} Ancestors(w: World, p: Path, k: nat)
    requires WellFormed(w) && p in w.nodes && k <= |p|
    ensures p[..k] in w.nodes && (k < |p| ==> w.nodes[p[..k]].Directory?)
    decreases |p|
  {
    if k == |p| {
      assert p[..k] == p;
    } else {
      var up := p[..|p| - 1];
      Ancestors(w, up, k);
      assert up[..k] == p[..k];
    }
  }

  lemma OnlyDirectoriesHaveEntries(w: World, p: Path, q: Path)
    requires WellFormed(w) && p in w.nodes && q in w.nodes && p < q
    ensures w.nodes[p].Directory?
  {
    Ancestors(w, q, |p|);
    assert q[..|p|] == p;
  }

  /** A single file or link, walked on its own. */
  lemma LeafRight(w: World, listing: Listing, root: Path, dir: Path, p: Path)
    requires WellFormed(w) && dir in w.nodes && dir < p && p in w.nodes && !w.nodes[p].Directory?
    ensures WalkedRight(w, root, p, WalkEntry(w, listing, root, dir, p))
  {
    hide LinkTarget, WellFormed, PathLess, Walk, Increasing;
    forall q | q in w.nodes && p <= q ensures q == p {
      if q != p {
        OnlyDirectoriesHaveEntries(w, p, q);
      }
    }
    assert p in Below(w, p);
    assert Increasing(PathLess, [p]) && Increasing(PathLess, []) by {
      OneIncreases(p);
    }
  }

  lemma OneIncreases(p: Path)
    ensures Increasing(PathLess, [p]) && Increasing(PathLess, [])
  {
  }

  lemma {:induction false} WalkRight(w: World, listing: Listing, root: Path, dir: Path)
    requires WellFormed(w) && Lists(w, listing) && dir in w.nodes && w.nodes[dir].Directory?
    ensures WalkedRight(w, root, dir, Walk(w, listing, root, dir))
    decreases Below(w, dir), 1, 0
  {
    assert dir in Below(w, dir);
    if w.nodes[dir].readable {
      var children := SortedEntries(dir, listing(dir));
      ChildrenOfDirectory(w, listing, dir);
      WalkAllRight(w, listing, root, dir, children);
      DirectoryFromChildren(w, listing, root, dir);
      hide Collectable, UnreadableBelow, UnreadableUnder, Under, Increasing, WellFormed, Lists, WalkAll;
    } else {
      assert Unreadable(w, dir);
    }
  }

  lemma UnderTheChildren(w: World, listing: Listing, dir: Path, q: Path)
    requires WellFormed(w) && Lists(w, listing) && dir in w.nodes && w.nodes[dir].Directory? && q in w.nodes
    ensures Under(SortedEntries(dir, listing(dir)), q) <==> dir < q
  {
    var children := SortedEntries(dir, listing(dir));
    if dir < q {
      ChildAbove(w, listing, dir, q);
    }
    hide SortedEntries, WellFormed, Lists;
    if Under(children, q) {
      var c :| c in children && c <= q;
      assert |c| == |dir| + 1 && dir <= c;
      PrefixOfPrefix(dir, c, q);
    }
  }

  /** Below a readable directory is what is below its children. */
  lemma DirectoryFromChildren(w: World, listing: Listing, root: Path, dir: Path)
    requires WellFormed(w) && Lists(w, listing) && dir in w.nodes && w.nodes[dir] == Directory(true)
    ensures
      var children := SortedEntries(dir, listing(dir));
      && (UnreadableBelow(w, dir) <==> UnreadableUnder(w, children))
      && forall q :: (dir <= q && Collectable(w, root, q) <==> Under(children, q) && Collectable(w, root, q))
  {
    var children := SortedEntries(dir, listing(dir));
    forall q | q in w.nodes ensures Under(children, q) <==> dir < q {
      UnderTheChildren(w, listing, dir, q);
    }
    assert !Unreadable(w, dir) && !Collectable(w, root, dir);
    hide SortedEntries, WellFormed, Lists, Unreadable, LinkTarget;
    forall q ensures dir <= q && Collectable(w, root, q) <==> Under(children, q) && Collectable(w, root, q) {
      if Collectable(w, root, q) {
        assert dir <= q <==> dir < q || q == dir;
      }
    }
    BrokenUnderTheChildren(w, children, dir);
  }

  lemma BrokenUnderTheChildren(w: World, children: seq<Path>, dir: Path)
    requires dir in w.nodes && !Unreadable(w, dir)
    requires forall q | q in w.nodes :: Under(children, q) <==> dir < q
    ensures UnreadableBelow(w, dir) <==> UnreadableUnder(w, children)
  {
    hide Unreadable;
    if UnreadableBelow(w, dir) {
      var q :| q in Below(w, dir) && Unreadable(w, q);
      assert dir <= q && q != dir;
      assert dir < q;
      assert Under(children, q);
      var c :| c in children && c <= q;
      assert q in Below(w, c);
    }
    if UnreadableUnder(w, children) {
      var c :| c in children && UnreadableBelow(w, c);
      var q :| q in Below(w, c) && Unreadable(w, q);
      assert Under(children, q);
      assert q in Below(w, dir);
    }
  }

  lemma PrefixOfPrefix(a: Path, b: Path, c: Path)
    requires a <= b <= c
    ensures a <= c
  {
    assert c[..|a|] == b[..|a|];
  }

  lemma ChildIsListed(w: World, listing: Listing, dir: Path, n: Name)
    requires Lists(w, listing) && dir in w.nodes && w.nodes[dir].Directory? && dir + [n] in w.nodes
    ensures dir + [n] in SortedEntries(dir, listing(dir))
  {
    assert n in listing(dir);
    hide Lists;
    var i :| 0 <= i < |listing(dir)| && listing(dir)[i] == n;
    assert Entries(dir, listing(dir))[i] == dir + [n];
    SortMembers(PathLeq, Entries(dir, listing(dir)));
  }

  lemma ChildAbove(w: World, listing: Listing, dir: Path, q: Path)
    requires WellFormed(w) && Lists(w, listing) && dir in w.nodes && w.nodes[dir].Directory?
    requires q in w.nodes && dir < q
    ensures q[..|dir| + 1] in SortedEntries(dir, listing(dir)) && q[..|dir| + 1] <= q
  {
    hide WellFormed, Lists, SortedEntries;
    var c := q[..|dir| + 1];
    Ancestors(w, q, |dir| + 1);
    assert c == dir + [q[|dir|]];
    ChildIsListed(w, listing, dir, q[|dir|]);
  }

  lemma SiblingsDiffer(dir: Path, a: Name, b: Name)
    ensures dir + [a] == dir + [b] ==> a == b
  {
    assert (dir + [a])[|dir|] == a && (dir + [b])[|dir|] == b;
  }

  predicate Different(a: Path, b: Path) { a != b }

  /** The sorted children are the entries of the directory in increasing order. */
  lemma ChildrenOfDirectory(w: World, listing: Listing, dir: Path)
    requires WellFormed(w) && Lists(w, listing) && dir in w.nodes && w.nodes[dir].Directory?
    ensures
      var children := SortedEntries(dir, listing(dir));
      && Increasing(PathLess, children)
      && forall c | c in children :: c in w.nodes
  {
    var names := listing(dir);
    assert forall n :: n in names <==> dir + [n] in w.nodes;
    assert forall i, j | 0 <= i < j < |names| :: names[i] != names[j];
    hide WellFormed, Lists, PathLess, PathLeq, Sort;
    SortedSiblings(dir, names);
    forall c | c in SortedEntries(dir, names) ensures c in w.nodes {
      var i :| 0 <= i < |names| && dir + [names[i]] == c;
      assert names[i] in names;
    }
  }

  /** Sorting different names below a directory gives the same paths in increasing order. */
  lemma SortedSiblings(dir: Path, names: seq<Name>)
    requires forall i, j | 0 <= i < j < |names| :: names[i] != names[j]
    ensures Increasing(PathLess, SortedEntries(dir, names))
    ensures forall c | c in SortedEntries(dir, names) :: exists i :: 0 <= i < |names| && dir + [names[i]] == c
  {
    OrdersAreTotal();
    hide PathLess, NameLess, StrictTotal, Sort;
    var entries := Entries(dir, names);
    forall i, j | 0 <= i < j < |entries| ensures Different(entries[i], entries[j]) {
      SiblingsDiffer(dir, names[i], names[j]);
    }
    DifferentIsEnough();
    SortIncreases(PathLeq, Different, PathLess, entries);
    SortMembers(PathLeq, entries);
    forall c | c in SortedEntries(dir, names) ensures exists i :: 0 <= i < |names| && dir + [names[i]] == c {
      assert c in entries;
    }
  }

  lemma DifferentIsEnough()
    ensures forall a, b :: PathLeq(a, b) && Different(a, b) ==> PathLess(a, b)
    ensures forall a, b :: !PathLeq(a, b) ==> PathLess(b, a)
  {
    OrdersAreTotal();
    hide PathLess;
  }

  /** What lies below one entry comes before what lies below a later one. */
  lemma SubtreesAreOrdered(dir: Path, c: Path, d: Path, p: Path, q: Path)
    requires |c| == |d| == |dir| + 1 && dir <= c <= p && dir <= d <= q && PathLess(c, d)
    ensures PathLess(p, q)
  {
    OrdersAreTotal();
    var k := |dir|;
    assert c == dir + [c[k]] && d == dir + [d[k]];
    LexAfterPrefix(NameLess, dir, [c[k]], [d[k]]);
    assert p == dir + p[k..] && q == dir + q[k..];
    assert p[k..][0] == c[k] && q[k..][0] == d[k];
    var none: Path := [];
    assert [c[k]][1..] == none && [d[k]][1..] == none;
    LexAfterPrefix(NameLess, dir, p[k..], q[k..]);
  }

  ghost predicate Under(children: seq<Path>, q: Path) {
    exists c :: c in children && c <= q
  }

  ghost predicate UnreadableUnder(w: World, children: seq<Path>) {
    exists c :: c in children && UnreadableBelow(w, c)
  }

  lemma UnderCons(w: World, children: seq<Path>)
    requires children != []
    ensures UnreadableUnder(w, children) <==> UnreadableBelow(w, children[0]) || UnreadableUnder(w, children[1..])
    ensures forall q :: Under(children, q) <==> children[0] <= q || Under(children[1..], q)
  {
    hide UnreadableBelow;
    assert children[0] in children;
    assert forall c :: c in children <==> c == children[0] || c in children[1..];
  }

  ghost predicate AllRight(w: World, root: Path, children: seq<Path>, r: Option<seq<Path>>) {
    && (r.None? <==> UnreadableUnder(w, children))
    && (r.Some? ==> Increasing(PathLess, r.value)
                    && forall q :: q in r.value <==> Under(children, q) && Collectable(w, root, q))
  }

  /** The files of the first child come before those of all others. */
  lemma FirstComesFirst(w: World, root: Path, dir: Path, children: seq<Path>, here: seq<Path>, later: seq<Path>)
    requires children != [] && Siblings(dir, children) && Increasing(PathLess, children)
    requires WalkedRight(w, root, children[0], Some(here)) && AllRight(w, root, children[1..], Some(later))
    ensures AllRight(w, root, children, Some(here + later))
  {
    hide Collectable, UnreadableBelow, UnreadableUnder;
    UnderCons(w, children);
    forall p, q | p in here && q in later ensures PathLess(p, q) {
      assert Under(children[1..], q);
      var d :| d in children[1..] && d <= q;
      var i :| 0 <= i < |children[1..]| && children[1..][i] == d;
      assert PathLess(children[0], children[i + 1]);
      SubtreesAreOrdered(dir, children[0], d, p, q);
    }
    JoinIncreasing(here, later);
    hide Under, Increasing, PathLess;
  }

  lemma {:induction false} WalkAllRight(w: World, listing: Listing, root: Path, dir: Path, children: seq<Path>)
    requires WellFormed(w) && Lists(w, listing) && dir in w.nodes && Siblings(dir, children)
    requires Increasing(PathLess, children) && forall c | c in children :: c in w.nodes
    ensures AllRight(w, root, children, WalkAll(w, listing, root, dir, children))
    decreases Below(w, dir), 0, |children| + 1
  {
    if children != [] {
      hide WalkEntry, UnreadableBelow;
      WalkEntryRight(w, listing, root, dir, children[0]);
      WalkAllRight(w, listing, root, dir, children[1..]);
      UnderCons(w, children);
      var here, later := WalkEntry(w, listing, root, dir, children[0]), WalkAll(w, listing, root, dir, children[1..]);
      if here.Some? && later.Some? {
        FirstComesFirst(w, root, dir, children, here.value, later.value);
      }
      hide CollectedBelow, Collectable, Under, Increasing, WellFormed, Lists, UnreadableUnder;
    }
  }

  lemma JoinIncreasing(a: seq<Path>, b: seq<Path>)
    requires Increasing(PathLess, a) && Increasing(PathLess, b)
    requires forall p, q | p in a && q in b :: PathLess(p, q)
    ensures Increasing(PathLess, a + b) && forall p :: p in a + b <==> p in a || p in b
  {
  }

  lemma {:induction false} WalkEntryRight(w: World, listing: Listing, root: Path, dir: Path, p: Path)
    requires WellFormed(w) && Lists(w, listing) && dir in w.nodes && dir < p && p in w.nodes
    ensures WalkedRight(w, root, p, WalkEntry(w, listing, root, dir, p))
    decreases Below(w, dir), 0, 0
  {
    if w.nodes[p].Directory? {
      BelowShrinks(w, dir, p);
      WalkRight(w, listing, root, p);
    } else {
      LeafRight(w, listing, root, dir, p);
    }
  }

  /**
   * On every finite file system, with any symlinks: the walk fails exactly when something below
   * the root is unreadable; otherwise it collects, once each and in path order, exactly the
   * regular files below the root and the symlinks that end at a regular file below the root.
   */
  lemma WalkIsExact(w: World, listing: Listing, root: Path)
    requires WellFormed(w) && Lists(w, listing) && root in w.nodes && w.nodes[root].Directory?
    ensures Walk(w, listing, root, root).None? <==> UnreadableBelow(w, root)
    ensures Walk(w, listing, root, root).Some? ==>
      var files := Walk(w, listing, root, root).value;
      && Increasing(PathLess, files)
      && (forall p :: p in files <==> root < p && Collectable(w, root, p))
  {
    WalkRight(w, listing, root, root);
    NotTheRoot(w, listing, root);
    hide Collectable, Walk, UnreadableBelow, Increasing, WellFormed, Lists;
  }

  /** So the collected paths ascend, component by component and byte by byte. */
  lemma CollectedAscend(w: World, listing: Listing, root: Path, i: nat, j: nat)
    requires WellFormed(w) && Lists(w, listing) && root in w.nodes && w.nodes[root].Directory?
    requires Walk(w, listing, root, root).Some? && i < j < |Walk(w, listing, root, root).value|
    ensures ComponentsAscend(Walk(w, listing, root, root).value[i], Walk(w, listing, root, root).value[j])
  {
    WalkIsExact(w, listing, root);
    hide Walk, Collectable, WellFormed, Lists, PathLess, ComponentsAscend;
    PathsAscend(Walk(w, listing, root, root).value[i], Walk(w, listing, root, root).value[j]);
  }

  lemma NotTheRoot(w: World, listing: Listing, root: Path)
    requires root in w.nodes && w.nodes[root].Directory?
    ensures forall p :: (root <= p && Collectable(w, root, p) <==> root < p && Collectable(w, root, p))
  {
    hide LinkTarget;
    forall p ensures root <= p && Collectable(w, root, p) <==> root < p && Collectable(w, root, p) {
      if p == root {
        assert !Collectable(w, root, p);
      }
    }
  }

  /** No symlink takes a measurement out of the root: what is read is a real file below it. */
  lemma NothingLeavesTheRoot(w: World, root: Path, p: Path)
    requires WellFormed(w) && Collectable(w, root, p) && root <= p
    ensures w.nodes[p].Link? ==>
      var t := LinkTarget(w, root, p);
      t.Some? && root <= t.value && Real(w, t.value) && w.nodes[t.value].File?
    ensures w.nodes[p].File? ==> Real(w, p)
  {
    if w.nodes[p].Link? {
      ResolvedIsReal(w, [], Components(p), w.maxLinks);
    } else {
      forall k | 0 <= k < |p| ensures p[..k] in w.nodes && w.nodes[p[..k]].Directory? {
        Ancestors(w, p, k);
      }
    }
  }

  /** The order in which directories list their entries does not show. */
  lemma ListingOrderIsIrrelevant(w: World, l1: Listing, l2: Listing, root: Path)
    requires WellFormed(w) && Lists(w, l1) && Lists(w, l2) && root in w.nodes && w.nodes[root].Directory?
    ensures Walk(w, l1, root, root) == Walk(w, l2, root, root)
  {
    WalkIsExact(w, l1, root);
    WalkIsExact(w, l2, root);
    hide Walk, Collectable;
    if Walk(w, l1, root, root).Some? {
      OrdersAreTotal();
      IncreasingIsUnique(PathLess, Walk(w, l1, root, root).value, Walk(w, l2, root, root).value);
    }
  }

  const EXAMPLE_FILE: Name := [97]
  const EXAMPLE_LOOP: Name := [98]

  /** A file, and a symlink to itself. */
  function ExampleNodes(): map<Path, Node> {
    map[[] := Directory(true), [EXAMPLE_FILE] := File(Some([1])),
        [EXAMPLE_LOOP] := Link(false, [Named(EXAMPLE_LOOP)])]
  }

  lemma ExampleNodesAre(p: Path)
    ensures p in ExampleNodes() <==> p == [] || p == [EXAMPLE_FILE] || p == [EXAMPLE_LOOP]
    ensures ExampleNodes()[[]] == Directory(true)
    ensures p in ExampleNodes() ==>
              ExampleNodes()[p] == Directory(true) || ExampleNodes()[p].File? || ExampleNodes()[p].Link?
    ensures p in ExampleNodes() && p != [] ==> !ExampleNodes()[p].Directory? && p[..|p| - 1] == []
  {
    assert EXAMPLE_FILE[0] != EXAMPLE_LOOP[0];
    assert [EXAMPLE_FILE][0] != [EXAMPLE_LOOP][0];
  }

  function ExampleListing(dir: Path): seq<Name> {
    if dir == [] then [EXAMPLE_FILE, EXAMPLE_LOOP] else []
  }

  lemma ExampleIsListed(n: Name)
    ensures n in ExampleListing([]) <==> [] + [n] in ExampleNodes()
  {
    ExampleNodesAre([n]);
    assert [] + [n] == [n];
    assert [n][0] == n;
  }

  function ExampleWorld(): World {
    World(ExampleNodes(), 40, b => b)
  }

  lemma ExampleIsWellFormed()
    ensures WellFormed(ExampleWorld())
  {
    var w := ExampleWorld();
    hide ExampleNodes;
    ExampleNodesAre([]);
    forall p | p in w.nodes && p != [] ensures p[..|p| - 1] in w.nodes && w.nodes[p[..|p| - 1]].Directory? {
      ExampleNodesAre(p);
    }
  }

  lemma ExampleListsAll()
    ensures Lists(ExampleWorld(), ExampleListing)
  {
    var w := ExampleWorld();
    hide ExampleNodes;
    assert EXAMPLE_FILE[0] != EXAMPLE_LOOP[0];
    forall dir | dir in w.nodes && w.nodes[dir].Directory?
      ensures dir == [] && forall n: Name :: n in ExampleListing(dir) <==> dir + [n] in w.nodes
    {
      ExampleNodesAre(dir);
      forall n: Name ensures n in ExampleListing(dir) <==> dir + [n] in w.nodes {
        ExampleIsListed(n);
      }
    }
  }

  /** File systems and listings as required exist: here one with a file and a cyclic symlink. */
  lemma FileSystemsExist() returns (w: World, listing: Listing)
    ensures WellFormed(w) && Lists(w, listing) && [] in w.nodes && w.nodes[[]].Directory?
    ensures Walk(w, listing, [], []).Some?
  {
    hide ExampleNodes, Walk, WellFormed, Lists;
    w, listing := ExampleWorld(), ExampleListing;
    ExampleNodesAre([]);
    ExampleIsWellFormed();
    ExampleListsAll();
    WalkIsExact(w, listing, []);
    forall q | q in Below(w, []) ensures !Unreadable(w, q) {
      ExampleNodesAre(q);
    }
  }
}
