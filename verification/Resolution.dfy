/** What a path with symlinks leads to, as a relation, and that resolving finds exactly that. */
module Resolution {
  import opened Wrappers
  import opened Text
  import opened Folder

  /** Where the resolution of a path stands: what is resolved and what is still to be. */
  datatype Place = Place(done: Path, todo: seq<Component>)

  /** Going up, into a directory, or to the file or special file at the end. */
  ghost predicate Goes(w: World, a: Place, b: Place) {
    && a.todo != [] && b.todo == a.todo[1..]
    && match a.todo[0]
       case Parent => if a.done == [] then b.done == [] else exists n :: a.done == b.done + [n]
       case Named(n) =>
         && b.done == a.done + [n] && b.done in w.nodes
         && (w.nodes[b.done].Directory? || ((w.nodes[b.done].File? || w.nodes[b.done].Special?) && b.todo == []))
  }

  /** Following the symlink in front: from where it lies, or from the root. */
  ghost predicate Follows(w: World, a: Place, b: Place) {
    && a.todo != [] && a.todo[0].Named?
    && var p := a.done + [a.todo[0].name];
    && p in w.nodes && w.nodes[p].Link?
    && b.todo == w.nodes[p].target + a.todo[1..] && b.done == if w.nodes[p].absolute then [] else a.done
  }

  /** There is a way from `a` to `b` that follows at most `links` symlinks. */
  ghost predicate Way(w: World, a: Place, b: Place, links: nat)
    decreases links, |a.todo|
  {
    || a == b
    || (exists c :: Goes(w, a, c) && |c.todo| < |a.todo| && Way(w, c, b, links))
    || (links > 0 && exists c :: Follows(w, a, c) && Way(w, c, b, links - 1))
  }

  lemma GoingResolves(w: World, a: Place, b: Place, links: nat)
    requires Goes(w, a, b)
    ensures Resolve(w, a.done, a.todo, links) == Resolve(w, b.done, b.todo, links) && |b.todo| < |a.todo|
  {
    if a.todo[0].Parent? && a.done != [] {
      assert b.done == a.done[..|a.done| - 1];
    }
  }

  lemma FollowingResolves(w: World, a: Place, b: Place, links: nat)
    requires Follows(w, a, b) && links > 0
    ensures Resolve(w, a.done, a.todo, links) == Resolve(w, b.done, b.todo, links - 1)
  {
  }

  /** Where the resolution succeeds there is a next place. */
  lemma NextPlace(w: World, a: Place, links: nat) returns (b: Place)
    requires a.todo != [] && Resolve(w, a.done, a.todo, links).Some?
    ensures Goes(w, a, b) || (links > 0 && Follows(w, a, b))
  {
    var rest := a.todo[1..];
    match a.todo[0]
    case Parent =>
      b := Place(if a.done == [] then [] else a.done[..|a.done| - 1], rest);
      if a.done != [] {
        assert a.done == b.done + [a.done[|a.done| - 1]];
      }
    case Named(n) =>
      var p := a.done + [n];
      if w.nodes[p].Link? {
        b := Place(if w.nodes[p].absolute then [] else a.done, w.nodes[p].target + rest);
      } else {
        b := Place(p, rest);
      }
  }

  lemma {:induction false} ResolvedHasWay(w: World, a: Place, links: nat)
    requires Resolve(w, a.done, a.todo, links).Some?
    ensures Way(w, a, Place(Resolve(w, a.done, a.todo, links).value, []), links)
    decreases links, |a.todo|
  {
    if a.todo != [] {
      var b := NextPlace(w, a, links);
      if Goes(w, a, b) {
        GoingResolves(w, a, b, links);
        ResolvedHasWay(w, b, links);
      } else {
        FollowingResolves(w, a, b, links);
        ResolvedHasWay(w, b, links - 1);
      }
      hide Resolve, Goes, Follows;
    }
  }

  lemma {:induction false} WayIsResolved(w: World, a: Place, t: Path, links: nat)
    requires Way(w, a, Place(t, []), links)
    ensures Resolve(w, a.done, a.todo, links) == Some(t)
    decreases links, |a.todo|
  {
    if a != Place(t, []) {
      if c :| Goes(w, a, c) && |c.todo| < |a.todo| && Way(w, c, Place(t, []), links) {
        WayIsResolved(w, c, t, links);
        GoingResolves(w, a, c, links);
      } else {
        var c :| links > 0 && Follows(w, a, c) && Way(w, c, Place(t, []), links - 1);
        WayIsResolved(w, c, t, links - 1);
        FollowingResolves(w, a, c, links);
      }
      hide Resolve, Goes, Follows, Way;
    }
  }

  /** `canonicalize` succeeds exactly where there is a way, following no more symlinks than the system does. */
  lemma ResolvedExactly(w: World, p: Path, t: Path)
    ensures Canonicalize(w, p) == Some(t) <==> Way(w, Place([], Components(p)), Place(t, []), w.maxLinks)
  {
    hide Resolve, Way;
    var a := Place([], Components(p));
    if Canonicalize(w, p) == Some(t) {
      ResolvedHasWay(w, a, w.maxLinks);
    }
    if Way(w, a, Place(t, []), w.maxLinks) {
      WayIsResolved(w, a, t, w.maxLinks);
    }
  }

  /** A symlink is measured exactly if there is such a way to a regular file at or below the root, and as that file. */
  lemma LinksExactly(w: World, root: Path, p: Path, t: Path)
    ensures LinkTarget(w, root, p) == Some(t) <==>
            && Way(w, Place([], Components(p)), Place(t, []), w.maxLinks)
            && root <= t && t in w.nodes && w.nodes[t].File?
  {
    ResolvedExactly(w, p, t);
    hide Canonicalize, Way;
  }
}
