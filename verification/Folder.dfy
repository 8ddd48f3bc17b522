/**
 * The recursive walk of `measure_folder`. A file system is a finite set of absolute paths with
 * what is found there; the order in which a directory lists its entries is left to the system.
 */
module Folder {
  import opened Wrappers
  import opened Text
  import opened Order

  /** A file name is a byte string, a path the names from `/` downwards. */
  type Name = Bytes
  type Path = seq<Name>

  datatype Component = Named(name: Name) | Parent

  datatype Node =
    | File(content: Option<Bytes>)                           // None: `fs::read` fails
    | Directory(readable: bool)                              // false: `read_dir` or an entry fails
    | Link(absolute: bool, target: seq<Component>)
    | Special                                                // FIFO, socket, device
    | NoMetadata                                             // `symlink_metadata` fails

  /** `maxLinks`: how many symlinks the system follows; `lossy`: `to_string_lossy` on raw names. */
  datatype World = World(nodes: map<Path, Node>, maxLinks: nat, lossy: Bytes -> Bytes)

  type Listing = Path -> seq<Name>

  /** Everything but `/` lies in a directory. */
  ghost predicate WellFormed(w: World) {
    && [] in w.nodes && w.nodes[[]].Directory?
    && forall p | p in w.nodes && p != [] ::
         p[..|p| - 1] in w.nodes && w.nodes[p[..|p| - 1]].Directory?
  }

  /** `read_dir` yields every entry once, in any order. */
  ghost predicate Lists(w: World, listing: Listing) {
    forall dir | dir in w.nodes && w.nodes[dir].Directory? ::
      && (forall n :: n in listing(dir) <==> dir + [n] in w.nodes)
      && forall i, j | 0 <= i < j < |listing(dir)| :: listing(dir)[i] != listing(dir)[j]
  }

  // ----- symlinks -----

  /** `canonicalize`: `done` is resolved, `todo` is not, `links` symlinks may still be followed. */
  function Resolve(w: World, done: Path, todo: seq<Component>, links: nat): Option<Path>
    decreases links, |todo|
  {
    if todo == [] then Some(done)
    else
      match todo[0]
      case Parent => Resolve(w, if done == [] then [] else done[..|done| - 1], todo[1..], links)
      case Named(n) =>
        var p := done + [n];
        if p !in w.nodes then None
        else
          match w.nodes[p]
          case Directory(_) => Resolve(w, p, todo[1..], links)
          case Link(absolute, target) =>
            if links == 0 then None
            else Resolve(w, if absolute then [] else done, target + todo[1..], links - 1)
          case NoMetadata => None
          case _ => if |todo| == 1 then Some(p) else None
  }

  function Components(p: Path): seq<Component> {
    seq(|p|, i requires 0 <= i < |p| => Named(p[i]))
  }

  function Canonicalize(w: World, p: Path): Option<Path> {
    Resolve(w, [], Components(p), w.maxLinks)
  }

  /** No component of the path is a symlink, and the path exists. */
  predicate Real(w: World, p: Path) {
    && p in w.nodes && (w.nodes[p].Directory? || w.nodes[p].File? || w.nodes[p].Special?)
    && forall k | 0 <= k < |p| :: p[..k] in w.nodes && w.nodes[p[..k]].Directory?
  }

  lemma RealUp(w: World, p: Path)
    requires Real(w, p) && p != []
    ensures Real(w, p[..|p| - 1]) && w.nodes[p[..|p| - 1]].Directory?
  {
    var up := p[..|p| - 1];
    forall k | 0 <= k < |up| ensures up[..k] in w.nodes && w.nodes[up[..k]].Directory? {
      assert up[..k] == p[..k];
    }
  }

  lemma RealDown(w: World, p: Path, n: Name)
    requires Real(w, p) && w.nodes[p].Directory? && p + [n] in w.nodes
    requires w.nodes[p + [n]].Directory? || w.nodes[p + [n]].File? || w.nodes[p + [n]].Special?
    ensures Real(w, p + [n])
  {
    var down := p + [n];
    forall k | 0 <= k < |down| ensures down[..k] in w.nodes && w.nodes[down[..k]].Directory? {
      assert down[..k] == if k == |p| then p else p[..k];
    }
  }

  lemma RootIsReal(w: World)
    requires WellFormed(w)
    ensures Real(w, []) && w.nodes[[]].Directory?
  {
  }

  /** A resolved path goes through directories only: there is no way out of it left. */
  lemma {:induction false} ResolvedIsReal(w: World, done: Path, todo: seq<Component>, links: nat)
    requires WellFormed(w) && Real(w, done) && w.nodes[done].Directory?
    requires Resolve(w, done, todo, links).Some?
    ensures Real(w, Resolve(w, done, todo, links).value)
    decreases links, |todo|
  {
    RootIsReal(w);
    if todo != [] {
      if todo[0].Parent? {
        if done != [] {
          RealUp(w, done);
        }
        hide Real, WellFormed;
        ResolvedIsReal(w, if done == [] then [] else done[..|done| - 1], todo[1..], links);
      } else {
        NameIsReal(w, done, todo, links);
      }
    }
  }

  lemma {:induction false} NameIsReal(w: World, done: Path, todo: seq<Component>, links: nat)
    requires WellFormed(w) && Real(w, done) && w.nodes[done].Directory?
    requires todo != [] && todo[0].Named? && Resolve(w, done, todo, links).Some?
    ensures Real(w, Resolve(w, done, todo, links).value)
    decreases links, |todo|, 0
  {
    var p := done + [todo[0].name];
    RootIsReal(w);
    assert p in w.nodes;
    if w.nodes[p].Link? {
      hide Real, WellFormed;
      var Link(absolute, target) := w.nodes[p];
      ResolvedIsReal(w, if absolute then [] else done, target + todo[1..], links - 1);
    } else {
      RealDown(w, done, todo[0].name);
      hide Real, WellFormed;
      if w.nodes[p].Directory? {
        ResolvedIsReal(w, p, todo[1..], links);
      }
    }
  }

  /** The regular file a symlink inside `root` stands for, if it stays inside. */
  function LinkTarget(w: World, root: Path, p: Path): Option<Path> {
    match Canonicalize(w, p)
    case None => None
    case Some(t) => if root <= t && t in w.nodes && w.nodes[t].File? then Some(t) else None
  }

  // ----- the walk -----

  datatype Visit = Skip | Take | Descend | Broken

  /** What the walk does with one entry. */
  function VisitOf(w: World, root: Path, p: Path): Visit {
    if p !in w.nodes then Broken
    else
      match w.nodes[p]
      case File(_) => Take
      case Directory(_) => Descend
      case Link(_, _) => if LinkTarget(w, root, p).Some? then Take else Skip
      case Special => Skip
      case NoMetadata => Broken
  }

  predicate ByteLess(a: byte, b: byte) { a < b }

  predicate NameLess(a: Name, b: Name) { Lex(ByteLess, a, b) }

  /** `Ord` of `PathBuf`: component by component, not byte by byte. */
  predicate PathLess(a: Path, b: Path) { Lex(NameLess, a, b) }

  lemma OrdersAreTotal()
    ensures StrictTotal(ByteLess) && StrictTotal(NameLess) && StrictTotal(PathLess)
  {
    LexStrictTotal(ByteLess);
    forall a, b, c
      ensures (NameLess(a, b) ==> !NameLess(b, a) && a != b) && (a != b ==> NameLess(a, b) || NameLess(b, a))
      ensures NameLess(a, b) && NameLess(b, c) ==> NameLess(a, c)
    {
      assert NameLess(a, b) == LexOf(ByteLess)(a, b) && NameLess(b, a) == LexOf(ByteLess)(b, a);
      assert NameLess(b, c) == LexOf(ByteLess)(b, c) && NameLess(a, c) == LexOf(ByteLess)(a, c);
    }
    LexStrictTotal(NameLess);
    forall a, b, c
      ensures (PathLess(a, b) ==> !PathLess(b, a) && a != b) && (a != b ==> PathLess(a, b) || PathLess(b, a))
      ensures PathLess(a, b) && PathLess(b, c) ==> PathLess(a, c)
    {
      assert PathLess(a, b) == LexOf(NameLess)(a, b) && PathLess(b, a) == LexOf(NameLess)(b, a);
      assert PathLess(b, c) == LexOf(NameLess)(b, c) && PathLess(a, c) == LexOf(NameLess)(a, c);
    }
  }

  /** Raw bytes ascending, a proper prefix first. */
  predicate BytesAscend(a: Name, b: Name) {
    exists k | 0 <= k <= |a| && k < |b| :: a[..k] == b[..k] && (k == |a| || (a[k] as int) < (b[k] as int))
  }

  /** Component by component, each by its raw bytes, a directory before what is in it. */
  predicate ComponentsAscend(p: Path, q: Path) {
    exists k | 0 <= k <= |p| && k < |q| :: p[..k] == q[..k] && (k == |p| || BytesAscend(p[k], q[k]))
  }

  lemma NamesAscend(a: Name, b: Name)
    ensures NameLess(a, b) <==> BytesAscend(a, b)
  {
    LexExactly(ByteLess, a, b);
    if NameLess(a, b) {
      var k: nat :| DiffersAt(ByteLess, a, b, k);
      assert a[..k] == b[..k] && (k == |a| || (a[k] as int) < (b[k] as int));
    }
    if BytesAscend(a, b) {
      var k :| 0 <= k <= |a| && k < |b| && a[..k] == b[..k] && (k == |a| || (a[k] as int) < (b[k] as int));
      assert DiffersAt(ByteLess, a, b, k);
    }
  }

  /** What the two orders are. */
  lemma PathsAscend(p: Path, q: Path)
    ensures PathLess(p, q) <==> ComponentsAscend(p, q)
  {
    LexExactly(NameLess, p, q);
    hide NameLess, BytesAscend, Lex;
    forall a, b ensures NameLess(a, b) <==> BytesAscend(a, b) {
      NamesAscend(a, b);
    }
    assert PathLess(p, q) <==> exists k: nat :: DiffersAt(NameLess, p, q, k) by {
      PathLessIsLex(p, q);
    }
    if PathLess(p, q) {
      var k: nat :| DiffersAt(NameLess, p, q, k);
      assert p[..k] == q[..k] && (k == |p| || BytesAscend(p[k], q[k]));
    }
    if ComponentsAscend(p, q) {
      var k :| 0 <= k <= |p| && k < |q| && p[..k] == q[..k] && (k == |p| || BytesAscend(p[k], q[k]));
      assert DiffersAt(NameLess, p, q, k);
    }
  }

  lemma PathLessIsLex(p: Path, q: Path)
    ensures PathLess(p, q) <==> Lex(NameLess, p, q)
  {
  }

  predicate PathLeq(a: Path, b: Path) { !PathLess(b, a) }

  function Entries(dir: Path, names: seq<Name>): (r: seq<Path>)
    ensures |r| == |names| && forall i | 0 <= i < |r| :: r[i] == dir + [names[i]]
  {
    seq(|names|, i requires 0 <= i < |names| => dir + [names[i]])
  }

  predicate Siblings(dir: Path, ps: seq<Path>) {
    forall i | 0 <= i < |ps| :: |ps[i]| == |dir| + 1 && dir <= ps[i]
  }

  /** `children.sort()`. */
  function SortedEntries(dir: Path, names: seq<Name>): (r: seq<Path>)
    ensures Siblings(dir, r)
  {
    var entries := Entries(dir, names);
    SortMembers(PathLeq, entries);
    assert forall p | p in entries :: |p| == |dir| + 1 && dir <= p;
    Sort(PathLeq, entries)
  }

  /** All paths at or below `p`. */
  function Below(w: World, p: Path): set<Path> {
    set q | q in w.nodes && p <= q
  }

  /** `collect_regular_files`: the files below `dir` in the order they are pushed. */
  function Walk(w: World, listing: Listing, root: Path, dir: Path): Option<seq<Path>>
    decreases Below(w, dir), 1, 0
  {
    if dir !in w.nodes || !w.nodes[dir].Directory? || !w.nodes[dir].readable then None
    else
      WalkAll(w, listing, root, dir, SortedEntries(dir, listing(dir)))
  }

  function WalkAll(w: World, listing: Listing, root: Path, dir: Path, children: seq<Path>): Option<seq<Path>>
    requires dir in w.nodes
    requires Siblings(dir, children)
    decreases Below(w, dir), 0, |children| + 1
  {
    if children == [] then Some([])
    else
      match WalkEntry(w, listing, root, dir, children[0])
      case None => None
      case Some(files) => Prepend(files, WalkAll(w, listing, root, dir, children[1..]))
  }

  function WalkEntry(w: World, listing: Listing, root: Path, dir: Path, p: Path): Option<seq<Path>>
    requires dir in w.nodes && dir < p
    decreases Below(w, dir), 0, 0
  {
    match VisitOf(w, root, p)
    case Skip => Some([])
    case Take => Some([p])
    case Descend => (BelowShrinks(w, dir, p); Walk(w, listing, root, p))
    case Broken => None
  }

  function Prepend(files: seq<Path>, rest: Option<seq<Path>>): Option<seq<Path>> {
    match rest case None => None case Some(more) => Some(files + more)
  }

  lemma PrependPrepend(a: seq<Path>, b: seq<Path>, rest: Option<seq<Path>>)
    ensures Prepend(a, Prepend(b, rest)) == Prepend(a + b, rest)
    ensures Prepend([], rest) == rest && Prepend(a, Some([])) == Some(a)
  {
    if rest.Some? {
      assert a + (b + rest.value) == a + b + rest.value && [] + rest.value == rest.value;
    }
    assert a + [] == a;
  }

  lemma BelowShrinks(w: World, dir: Path, p: Path)
    requires dir in w.nodes && dir < p
    ensures Below(w, p) < Below(w, dir)
  {
    assert dir in Below(w, dir) && dir !in Below(w, p);
    forall q | q in Below(w, p) ensures q in Below(w, dir) {
      assert dir <= p <= q;
      assert q[..|dir|] == p[..|dir|] == dir;
    }
  }

  /** The `&mut Vec<PathBuf>` the walk pushes into. */
  class FileList {
    var items: seq<Path>

    constructor ()
      ensures items == []
    {
      items := [];
    }

    method Push(p: Path)
      modifies this
      ensures items == old(items) + [p]
    {
      items := items + [p];
    }
  }

  /** The body of the loop over the children. */
  method CollectEntry(w: World, listing: Listing, root: Path, dir: Path, p: Path, out: FileList) returns (ok: bool)
    requires dir in w.nodes && dir < p
    modifies out
    ensures ok <==> WalkEntry(w, listing, root, dir, p).Some?
    ensures ok ==> out.items == old(out.items) + WalkEntry(w, listing, root, dir, p).value
    decreases Below(w, dir), 0, 0
  {
    match VisitOf(w, root, p) {
      case Skip =>
        return true;
      case Take =>
        out.Push(p);
        return true;
      case Descend =>
        BelowShrinks(w, dir, p);
        ok := CollectRegularFiles(w, listing, root, p, out);
      case Broken =>
        return false;
    }
  }

  /** The loop over `read_dir`. */
  method ReadEntries(listing: Listing, dir: Path) returns (children: seq<Path>)
    ensures children == Entries(dir, listing(dir))
  {
    children := [];
    var names := listing(dir);
    for i := 0 to |names|
      invariant children == Entries(dir, names)[..i]
    {
      children := children + [dir + [names[i]]];
    }
  }

  lemma WalkAllStep(w: World, listing: Listing, root: Path, dir: Path, children: seq<Path>, k: nat)
    requires dir in w.nodes && Siblings(dir, children) && k < |children|
    ensures Siblings(dir, children[k..]) && Siblings(dir, children[k + 1..]) && dir < children[k]
    ensures
      var here := WalkEntry(w, listing, root, dir, children[k]);
      WalkAll(w, listing, root, dir, children[k..])
      == if here.None? then None else Prepend(here.value, WalkAll(w, listing, root, dir, children[k + 1..]))
  {
    hide WalkEntry;
    assert children[k..][0] == children[k] && children[k..][1..] == children[k + 1..];
  }

  method CollectRegularFiles(w: World, listing: Listing, root: Path, dir: Path, out: FileList) returns (ok: bool)
    modifies out
    ensures ok <==> Walk(w, listing, root, dir).Some?
    ensures ok ==> out.items == old(out.items) + Walk(w, listing, root, dir).value
    decreases Below(w, dir), 1, 0
  {
    if dir !in w.nodes || !w.nodes[dir].Directory? || !w.nodes[dir].readable {
      return false;
    }
    var entries := ReadEntries(listing, dir);
    var children := Sort(PathLeq, entries);
    assert children == SortedEntries(dir, listing(dir));
    ok := CollectAll(w, listing, root, dir, children, out);
  }

  /** The loop over the sorted children. */
  method CollectAll(w: World, listing: Listing, root: Path, dir: Path, children: seq<Path>, out: FileList)
    returns (ok: bool)
    requires dir in w.nodes && Siblings(dir, children)
    modifies out
    ensures ok <==> WalkAll(w, listing, root, dir, children).Some?
    ensures ok ==> out.items == old(out.items) + WalkAll(w, listing, root, dir, children).value
    decreases Below(w, dir), 0, 1
  {
    ghost var all := WalkAll(w, listing, root, dir, children);
    ghost var pushed: seq<Path> := [];
    PrependPrepend([], [], all);
    assert children[0..] == children;
    assert WalkAll(w, listing, root, dir, []) == Some([]);
    hide WalkAll, WalkEntry, Siblings;
    var k := 0;
    while k < |children|
      invariant 0 <= k <= |children| && Siblings(dir, children[k..])
      invariant out.items == old(out.items) + pushed
      invariant all == Prepend(pushed, WalkAll(w, listing, root, dir, children[k..]))
    {
      WalkAllStep(w, listing, root, dir, children, k);
      ghost var here := WalkEntry(w, listing, root, dir, children[k]);
      var fine := CollectEntry(w, listing, root, dir, children[k], out);
      if !fine {
        return false;
      }
      PrependPrepend(pushed, here.value, WalkAll(w, listing, root, dir, children[k + 1..]));
      assert old(out.items) + pushed + here.value == old(out.items) + (pushed + here.value);
      pushed := pushed + here.value;
      k := k + 1;
    }
    assert children[k..] == [];
    PrependPrepend(pushed, [], Some([]));
    return true;
  }
}
