/** What `remove_watches` of src/server/linux/workspace.c achieves on tables
    that describe a tree of watched directories: exactly the records at or
    below the removed directory leave both tables, the handle leaves its
    parent's child lists, and nothing else changes. */
module EngineRemoval {
  import opened Wrappers
  import opened Paths
  import opened WatchTables
  import opened EngineSpec

  /** The reference for a removal of `w`: every record at or below `w`'s
      directory is gone from both tables and `w` leaves every child list. */
  function Erase(t: Tables, w: int): Tables
    requires w in t.byHandle
  {
    var p := t.byHandle[w].absPath;
    Tables(
      map v | v in t.byHandle && !Under(p, t.byHandle[v].absPath) :: Strip(t.byHandle[v], w),
      map q | q in t.byPath && !Under(p, q) :: Strip(t.byPath[q], w),
      t.nextWd)
  }

  /** Every child list with `w` spliced out. */
  function StripAll(t: Tables, w: int): Tables {
    Tables(
      map v | v in t.byHandle :: Strip(t.byHandle[v], w),
      map q | q in t.byPath :: Strip(t.byPath[q], w),
      t.nextWd)
  }

  /** The tables once every child of (detached) `w` has been removed: the
      records strictly below `w`'s directory are gone and `w`'s own list is
      empty. */
  function PruneBelow(u: Tables, w: int): Tables
    requires w in u.byHandle
  {
    var p := u.byHandle[w].absPath;
    Tables(
      map v | v in u.byHandle && !StrictlyUnder(p, u.byHandle[v].absPath) ::
        if v == w then u.byHandle[v].(subdirs := []) else u.byHandle[v],
      map q | q in u.byPath && !StrictlyUnder(p, q) ::
        if q == p then u.byPath[q].(subdirs := []) else u.byPath[q],
      u.nextWd)
  }

  /** No record in `detached` other than `w` lies at or below `w`'s
      directory. */
  predicate DetachedOutside(t: Tables, detached: set<int>, w: int)
    requires w in t.byHandle
  {
    forall d :: d in detached && d in t.byHandle && d != w ==>
      !Under(t.byHandle[w].absPath, t.byHandle[d].absPath)
  }

  /** In a tree, the only record that can list `c` is the record of its
      parent directory. */
  lemma ListedOnlyByParent(t: Tables, v: int, x: int, c: int)
    requires Mirrored(t) && ChildrenBelow(t)
    requires v in t.byHandle && x in t.byHandle && c in t.byHandle[v].subdirs && c in t.byHandle[x].subdirs
    ensures v == x
  {
    assert ParentPath(Some(t.byHandle[c].absPath)) == Ok(Some(t.byHandle[v].absPath));
    assert ParentPath(Some(t.byHandle[c].absPath)) == Ok(Some(t.byHandle[x].absPath));
    PathNamesOneHandle(t, v, x);
  }

  // ----------------------------------------------------- erasing keeps a tree

  lemma EraseMirrored(t: Tables, w: int)
    requires Mirrored(t) && w in t.byHandle
    ensures Mirrored(Erase(t, w))
  {
    var e := Erase(t, w);
    forall v | v in e.byHandle
      ensures e.byHandle[v].absPath in e.byPath && e.byPath[e.byHandle[v].absPath].wd == v
    {
      assert t.byHandle[v].absPath in t.byPath;
    }
    forall q | q in e.byPath
      ensures e.byPath[q].wd in e.byHandle && e.byHandle[e.byPath[q].wd] == e.byPath[q]
    {
      var x := t.byPath[q].wd;
      assert t.byHandle[x].absPath == q;
    }
  }

  /** A child that survives in a surviving list of `Erase(t, w)` survives
      itself, at the same path. */
  lemma EraseChild(t: Tables, w: int, v: int, c: int)
    requires Mirrored(t) && ChildrenBelow(t) && w in t.byHandle && v in t.byHandle
    requires NoDup(t.byHandle[v].subdirs)
    requires !Under(t.byHandle[w].absPath, t.byHandle[v].absPath)
    requires c in RemoveFirst(t.byHandle[v].subdirs, w)
    ensures c in t.byHandle && !Under(t.byHandle[w].absPath, t.byHandle[c].absPath)
    ensures ParentPath(Some(t.byHandle[c].absPath)) == Ok(Some(t.byHandle[v].absPath))
  {
    RemoveFirstKeeps(t.byHandle[v].subdirs, w, c);
    ListedChild(t, v, c);
    PathNamesOneHandle(t, c, w);
    OutsideBelowOutside(t.byHandle[w].absPath, t.byHandle[c].absPath, t.byHandle[v].absPath);
  }

  /** A directory other than `p` whose parent lies outside `p` lies outside
      `p` too. */
  lemma OutsideBelowOutside(p: string, q: string, pp: string)
    requires ParentPath(Some(q)) == Ok(Some(pp)) && !Under(p, pp) && q != p
    ensures !Under(p, q)
  {
    if StrictlyUnder(p, q) {
      ParentOfStrictlyUnder(p, q, pp);
    }
  }

  lemma ErasedChild(t: Tables, w: int, v: int, c: int)
    requires Mirrored(t) && ChildrenBelow(t) && ListsNoDup(t) && w in t.byHandle
    requires v in Erase(t, w).byHandle && c in Erase(t, w).byHandle[v].subdirs
    ensures c in Erase(t, w).byHandle
    ensures ParentPath(Some(Erase(t, w).byHandle[c].absPath)) == Ok(Some(Erase(t, w).byHandle[v].absPath))
  {
    assert NoDup(t.byHandle[v].subdirs);
    EraseChild(t, w, v, c);
  }

  lemma EraseChildrenBelow(t: Tables, w: int)
    requires Mirrored(t) && ChildrenBelow(t) && ListsNoDup(t) && w in t.byHandle
    ensures ChildrenBelow(Erase(t, w))
  {
    forall v, c | v in Erase(t, w).byHandle && c in Erase(t, w).byHandle[v].subdirs
      ensures c in Erase(t, w).byHandle
      ensures ParentPath(Some(Erase(t, w).byHandle[c].absPath)) == Ok(Some(Erase(t, w).byHandle[v].absPath))
    {
      ErasedChild(t, w, v, c);
    }
  }

  lemma EraseListsNoDup(t: Tables, w: int)
    requires ListsNoDup(t) && w in t.byHandle
    ensures ListsNoDup(Erase(t, w))
  {
    var e := Erase(t, w);
    forall v | v in e.byHandle ensures NoDup(e.byHandle[v].subdirs) {
      RemoveFirstNoDup(t.byHandle[v].subdirs, w);
    }
  }

  lemma EraseLinked(t: Tables, root: string, detached: set<int>, w: int)
    requires Mirrored(t) && LinkedExcept(t, root, detached) && w in t.byHandle
    ensures LinkedExcept(Erase(t, w), root, detached)
  {
    var e := Erase(t, w);
    var p := t.byHandle[w].absPath;
    forall v | v in e.byHandle && v !in detached && |e.byHandle[v].absPath| > |root|
      ensures var parent := ParentPath(Some(e.byHandle[v].absPath));
        && parent.Ok? && parent.value.Some?
        && parent.value.value in e.byPath
        && v in e.byPath[parent.value.value].subdirs
    {
      var pv := t.byHandle[v].absPath;
      var pp := ParentPath(Some(pv)).value.value;
      if Under(p, pp) {
        StrictlyUnderOfParent(p, pv, pp);
      }
      assert v != w;
      assert v in t.byPath[pp].subdirs;
    }
  }

  lemma EraseKeepsTree(t: Tables, root: string, detached: set<int>, w: int)
    requires Tree(t, root, detached) && w in t.byHandle
    ensures Tree(Erase(t, w), root, detached)
  {
    EraseMirrored(t, w);
    EraseChildrenBelow(t, w);
    EraseListsNoDup(t, w);
    EraseLinked(t, root, detached, w);
  }

  // ------------------------------------------------------ unlinking detaches

  /** A record that lists `w` is the record of `w`'s parent directory, and
      `w` then lies strictly below the root. */
  lemma ListerIsParent(t: Tables, root: string, detached: set<int>, w: int)
    requires Tree(t, root, detached) && w in t.byHandle
    ensures forall v :: v in t.byHandle && w in t.byHandle[v].subdirs ==>
      |t.byHandle[w].absPath| > |root| && ParentPath(Some(t.byHandle[w].absPath)) == Ok(Some(t.byHandle[v].absPath))
  {
    forall v | v in t.byHandle && w in t.byHandle[v].subdirs
      ensures |t.byHandle[w].absPath| > |root|
    {
      ParentPrefix(t.byHandle[w].absPath, t.byHandle[v].absPath);
      assert Under(root, t.byHandle[v].absPath);
    }
  }

  /** `Unlink` of a record below the root splices it out of its parent's
      record in both tables. */
  lemma UnlinkBelowRoot(t: Tables, root: string, detached: set<int>, w: int)
    requires Tree(t, root, detached) && w in t.byHandle && w !in detached
    requires |t.byHandle[w].absPath| > |root|
    ensures ParentPath(Some(t.byHandle[w].absPath)).Ok?
    ensures ParentPath(Some(t.byHandle[w].absPath)).value.Some?
    ensures var pp := ParentPath(Some(t.byHandle[w].absPath)).value.value;
      && pp in t.byPath && t.byPath[pp].wd in t.byHandle
      && t.byHandle[t.byPath[pp].wd].absPath == pp
      && Unlink(t, root, w) == Ok(t.(byPath := t.byPath[pp := Strip(t.byPath[pp], w)],
                                   byHandle := t.byHandle[t.byPath[pp].wd := Strip(t.byHandle[t.byPath[pp].wd], w)]))
  {
  }

  /** Only the parent's record lists `w`, so splicing it out there splices
      it out everywhere. */
  lemma StripParentHandles(t: Tables, root: string, detached: set<int>, w: int, p: int)
    requires Tree(t, root, detached) && w in t.byHandle && p in t.byHandle
    requires |t.byHandle[w].absPath| > |root|
    requires ParentPath(Some(t.byHandle[w].absPath)) == Ok(Some(t.byHandle[p].absPath))
    ensures t.byHandle[p := Strip(t.byHandle[p], w)] == StripAll(t, w).byHandle
  {
    ListerIsParent(t, root, detached, w);
    forall v | v in t.byHandle ensures StripAll(t, w).byHandle[v] == t.byHandle[p := Strip(t.byHandle[p], w)][v] {
      PathNamesOneHandle(t, v, p);
    }
  }

  /** One path `q`: splicing `w` out of the list of its parent `pp` alone
      leaves `q` as splicing it out of every list does. */
  lemma StripParentPathAt(t: Tables, root: string, detached: set<int>, w: int, pp: string, q: string)
    requires Tree(t, root, detached) && w in t.byHandle && pp in t.byPath
    requires |t.byHandle[w].absPath| > |root|
    requires ParentPath(Some(t.byHandle[w].absPath)) == Ok(Some(pp))
    ensures q in StripAll(t, w).byPath <==> q in t.byPath[pp := Strip(t.byPath[pp], w)]
    ensures q in t.byPath ==> StripAll(t, w).byPath[q] == t.byPath[pp := Strip(t.byPath[pp], w)][q]
  {
    if q in t.byPath {
      ListerIsParent(t, root, detached, w);
      var x := t.byPath[q].wd;
      assert t.byHandle[x].absPath == q;
    }
  }

  lemma StripParentPaths(t: Tables, root: string, detached: set<int>, w: int, pp: string)
    requires Tree(t, root, detached) && w in t.byHandle && pp in t.byPath
    requires |t.byHandle[w].absPath| > |root|
    requires ParentPath(Some(t.byHandle[w].absPath)) == Ok(Some(pp))
    ensures t.byPath[pp := Strip(t.byPath[pp], w)] == StripAll(t, w).byPath
  {
    var a := StripAll(t, w).byPath;
    var b := t.byPath[pp := Strip(t.byPath[pp], w)];
    forall q ensures (q in a <==> q in b) && (q in b ==> a[q] == b[q]) {
      StripParentPathAt(t, root, detached, w, pp, q);
    }
  }

  /** At the root nothing lists `w`, and splicing it out changes nothing. */
  lemma StripRoot(t: Tables, root: string, detached: set<int>, w: int)
    requires Tree(t, root, detached) && w in t.byHandle
    requires |t.byHandle[w].absPath| <= |root|
    ensures StripAll(t, w) == t
  {
    ListerIsParent(t, root, detached, w);
    forall v | v in t.byHandle ensures StripAll(t, w).byHandle[v] == t.byHandle[v] {
    }
    forall q | q in t.byPath ensures StripAll(t, w).byPath[q] == t.byPath[q] {
      var x := t.byPath[q].wd;
      assert t.byHandle[x].absPath == q;
    }
    assert StripAll(t, w).byHandle == t.byHandle;
    assert StripAll(t, w).byPath == t.byPath;
  }

  /** Splicing `w` out of the one list that holds it is splicing it out of
      every list. */
  lemma StripAllIsUnlink(t: Tables, root: string, detached: set<int>, w: int)
    requires Tree(t, root, detached) && w in t.byHandle && w !in detached
    ensures Unlink(t, root, w) == Ok(StripAll(t, w))
  {
    if |t.byHandle[w].absPath| > |root| {
      UnlinkBelowRoot(t, root, detached, w);
      var pp := ParentPath(Some(t.byHandle[w].absPath)).value.value;
      StripParentHandles(t, root, detached, w, t.byPath[pp].wd);
      StripParentPaths(t, root, detached, w, pp);
    } else {
      StripRoot(t, root, detached, w);
    }
  }

  lemma StripAllMirrored(t: Tables, w: int)
    requires Mirrored(t)
    ensures Mirrored(StripAll(t, w))
  {
    var s := StripAll(t, w);
    forall q | q in s.byPath
      ensures s.byPath[q].wd in s.byHandle && s.byHandle[s.byPath[q].wd] == s.byPath[q]
    {
    }
  }

  lemma StripAllLists(t: Tables, w: int)
    requires ChildrenBelow(t) && ListsNoDup(t) && FreshCounter(t)
    ensures ChildrenBelow(StripAll(t, w)) && ListsNoDup(StripAll(t, w)) && FreshCounter(StripAll(t, w))
  {
    var s := StripAll(t, w);
    forall v | v in s.byHandle ensures NoDup(s.byHandle[v].subdirs) {
      RemoveFirstNoDup(t.byHandle[v].subdirs, w);
    }
  }

  lemma StripAllLinked(t: Tables, root: string, detached: set<int>, w: int)
    requires LinkedExcept(t, root, detached)
    ensures LinkedExcept(StripAll(t, w), root, detached + {w})
  {
  }

  lemma UnlinkDetaches(t: Tables, root: string, detached: set<int>, w: int)
    requires Tree(t, root, detached) && w in t.byHandle && w !in detached
    ensures Unlink(t, root, w) == Ok(StripAll(t, w))
    ensures Tree(StripAll(t, w), root, detached + {w})
    ensures StripAll(t, w).byHandle[w].subdirs == t.byHandle[w].subdirs
  {
    StripAllIsUnlink(t, root, detached, w);
    StripAllMirrored(t, w);
    StripAllLists(t, w);
    StripAllLinked(t, root, detached, w);
    TreeIsSound(t, root, detached);
  }

  // ------------------------------------------------- nothing left below `w`

  /** When the record of `w` lists no child and no detached record lies
      below it, no record lies strictly below `w`'s directory: every such
      record would be listed by its parent, which lies at or below `w`. */
  lemma {:induction false} NothingBelow(u: Tables, root: string, detached: set<int>, w: int, x: int)
    requires Tree(u, root, detached) && w in u.byHandle && u.byHandle[w].subdirs == []
    requires DetachedOutside(u, detached, w)
    requires x in u.byHandle
    ensures !StrictlyUnder(u.byHandle[w].absPath, u.byHandle[x].absPath)
    decreases |u.byHandle[x].absPath|
  {
    var p := u.byHandle[w].absPath;
    var px := u.byHandle[x].absPath;
    if StrictlyUnder(p, px) {
      assert Under(root, p) && |px| > |p|;
      assert x != w && x !in detached;
      var pp := ParentPath(Some(px)).value.value;
      ParentPrefix(px, pp);
      ParentOfStrictlyUnder(p, px, pp);
      var y := u.byPath[pp].wd;
      assert u.byHandle[y].absPath == pp;
      NothingBelow(u, root, detached, w, y);
      PathNamesOneHandle(u, y, w);
      assert false;
    }
  }

  lemma PruneNothing(u: Tables, root: string, detached: set<int>, w: int)
    requires Tree(u, root, detached) && w in u.byHandle && u.byHandle[w].subdirs == []
    requires DetachedOutside(u, detached, w)
    ensures PruneBelow(u, w) == u
  {
    var pr := PruneBelow(u, w);
    var p := u.byHandle[w].absPath;
    forall x | x in u.byHandle ensures x in pr.byHandle && pr.byHandle[x] == u.byHandle[x] {
      NothingBelow(u, root, detached, w, x);
    }
    forall q | q in u.byPath ensures q in pr.byPath && pr.byPath[q] == u.byPath[q] {
      var x := u.byPath[q].wd;
      NothingBelow(u, root, detached, w, x);
      PathNamesOneHandle(u, x, w);
    }
    assert pr.byHandle == u.byHandle;
    assert pr.byPath == u.byPath;
  }

  /** The first listed child `c` of `w` lies strictly below `w`, and so does
      everything at or below `c`. */
  lemma ChildBelow(u: Tables, w: int, c: int)
    requires Mirrored(u) && ChildrenBelow(u) && w in u.byHandle
    requires c in u.byHandle[w].subdirs
    ensures c in u.byHandle && c != w
    ensures StrictlyUnder(u.byHandle[w].absPath, u.byHandle[c].absPath)
    ensures forall x :: x in u.byHandle && Under(u.byHandle[c].absPath, u.byHandle[x].absPath) ==>
      StrictlyUnder(u.byHandle[w].absPath, u.byHandle[x].absPath)
  {
    var p := u.byHandle[w].absPath;
    var pc := u.byHandle[c].absPath;
    ParentPrefix(pc, p);
    StrictlyUnderOfParent(p, pc, p);
    forall x | x in u.byHandle && Under(pc, u.byHandle[x].absPath)
      ensures StrictlyUnder(p, u.byHandle[x].absPath)
    {
      UnderTransitive(p, pc, u.byHandle[x].absPath);
      assert |u.byHandle[x].absPath| >= |pc|;
    }
  }

  /** One handle `x`: removing the first child `c` and then pruning below
      `w` leaves `x` exactly as pruning below `w` does. */
  lemma PruneAfterEraseHandleAt(u: Tables, w: int, c: int, x: int)
    requires Mirrored(u) && ChildrenBelow(u) && w in u.byHandle
    requires c in u.byHandle[w].subdirs
    ensures c in u.byHandle && w in Erase(u, c).byHandle
    ensures x in PruneBelow(Erase(u, c), w).byHandle <==> x in PruneBelow(u, w).byHandle
    ensures x in PruneBelow(u, w).byHandle ==> PruneBelow(Erase(u, c), w).byHandle[x] == PruneBelow(u, w).byHandle[x]
  {
    ChildBelow(u, w, c);
    if x in u.byHandle {
      if x != w && c in u.byHandle[x].subdirs {
        ListedOnlyByParent(u, x, w, c);
      }
    }
  }

  lemma PruneAfterEraseHandles(u: Tables, w: int, c: int)
    requires Mirrored(u) && ChildrenBelow(u) && w in u.byHandle
    requires |u.byHandle[w].subdirs| > 0 && u.byHandle[w].subdirs[0] == c
    ensures c in u.byHandle && w in Erase(u, c).byHandle
    ensures PruneBelow(Erase(u, c), w).byHandle == PruneBelow(u, w).byHandle
  {
    PruneAfterEraseHandleAt(u, w, c, w);
    var a := PruneBelow(Erase(u, c), w).byHandle;
    var b := PruneBelow(u, w).byHandle;
    forall x ensures (x in a <==> x in b) && (x in b ==> a[x] == b[x]) {
      PruneAfterEraseHandleAt(u, w, c, x);
    }
  }

  /** One path `q`: removing the first child `c` and then pruning below `w`
      leaves `q` exactly as pruning below `w` does. */
  lemma PruneAfterErasePathAt(u: Tables, w: int, c: int, q: string)
    requires Mirrored(u) && ChildrenBelow(u) && w in u.byHandle
    requires c in u.byHandle[w].subdirs
    ensures c in u.byHandle && w in Erase(u, c).byHandle
    ensures q in PruneBelow(Erase(u, c), w).byPath <==> q in PruneBelow(u, w).byPath
    ensures q in PruneBelow(u, w).byPath ==> PruneBelow(Erase(u, c), w).byPath[q] == PruneBelow(u, w).byPath[q]
  {
    ChildBelow(u, w, c);
    if q in u.byPath {
      var x := u.byPath[q].wd;
      assert u.byHandle[x].absPath == q;
      if q != u.byHandle[w].absPath && c in u.byPath[q].subdirs {
        ListedOnlyByParent(u, x, w, c);
      }
    }
  }

  lemma PruneAfterErasePaths(u: Tables, w: int, c: int)
    requires Mirrored(u) && ChildrenBelow(u) && w in u.byHandle
    requires |u.byHandle[w].subdirs| > 0 && u.byHandle[w].subdirs[0] == c
    ensures c in u.byHandle && w in Erase(u, c).byHandle
    ensures PruneBelow(Erase(u, c), w).byPath == PruneBelow(u, w).byPath
  {
    PruneAfterErasePathAt(u, w, c, "");
    var a := PruneBelow(Erase(u, c), w).byPath;
    var b := PruneBelow(u, w).byPath;
    forall q ensures (q in a <==> q in b) && (q in b ==> a[q] == b[q]) {
      PruneAfterErasePathAt(u, w, c, q);
    }
  }

  /** Removing the first listed child of detached `w` and then pruning below
      `w` gives what pruning alone gives. */
  lemma PruneAfterErase(u: Tables, w: int, c: int)
    requires Mirrored(u) && ChildrenBelow(u) && w in u.byHandle
    requires |u.byHandle[w].subdirs| > 0 && u.byHandle[w].subdirs[0] == c
    ensures c in u.byHandle && w in Erase(u, c).byHandle
    ensures PruneBelow(Erase(u, c), w) == PruneBelow(u, w)
  {
    PruneAfterEraseHandles(u, w, c);
    PruneAfterErasePaths(u, w, c);
  }

  /** One handle `v`: stripping and pruning below `w` and then deleting `w`
      leaves `v` exactly as erasing `w` does. */
  lemma FinalDeleteHandleAt(t: Tables, w: int, v: int)
    requires Mirrored(t) && w in t.byHandle
    ensures v in PruneBelow(StripAll(t, w), w).byHandle - {w} <==> v in Erase(t, w).byHandle
    ensures v in Erase(t, w).byHandle ==> (PruneBelow(StripAll(t, w), w).byHandle - {w})[v] == Erase(t, w).byHandle[v]
  {
    if v in t.byHandle {
      PathNamesOneHandle(t, v, w);
    }
  }

  lemma FinalDeleteHandles(t: Tables, w: int)
    requires Mirrored(t) && w in t.byHandle
    ensures PruneBelow(StripAll(t, w), w).byHandle - {w} == Erase(t, w).byHandle
  {
    var a := PruneBelow(StripAll(t, w), w).byHandle - {w};
    var e := Erase(t, w).byHandle;
    forall v ensures (v in a <==> v in e) && (v in e ==> a[v] == e[v]) {
      FinalDeleteHandleAt(t, w, v);
    }
  }

  lemma FinalDeletePaths(t: Tables, w: int)
    requires Mirrored(t) && w in t.byHandle
    ensures var p := t.byHandle[w].absPath;
      && p in PruneBelow(StripAll(t, w), w).byPath
      && PruneBelow(StripAll(t, w), w).byPath - {p} == Erase(t, w).byPath
  {
    var p := t.byHandle[w].absPath;
    assert p in t.byPath;
    var a := PruneBelow(StripAll(t, w), w).byPath - {p};
    var e := Erase(t, w).byPath;
    forall q | q in a ensures q in e && a[q] == e[q] {
    }
    assert a == e;
  }

  /** Deleting `w` and its path once everything below it is pruned leaves
      exactly `Erase(t, w)`. */
  lemma FinalDelete(t: Tables, w: int)
    requires Mirrored(t) && w in t.byHandle
    ensures var t2 := PruneBelow(StripAll(t, w), w);
      var p := t.byHandle[w].absPath;
      && p in t2.byPath
      && t2.(byPath := t2.byPath - {p}, byHandle := t2.byHandle - {w}) == Erase(t, w)
  {
    FinalDeleteHandles(t, w);
    FinalDeletePaths(t, w);
  }

  // ---------------------------------------------------------- the theorem

  /** Removing the children of detached `w` one after the other prunes
      everything below `w`. */
  lemma {:induction false} RemoveAllPrunes(u: Tables, root: string, detached: set<int>, w: int, children: seq<int>, bound: nat)
    requires Tree(u, root, detached) && w in detached && w in u.byHandle
    requires u.byHandle[w].subdirs == children
    requires DetachedOutside(u, detached, w)
    requires forall c :: c in children ==> Rank(u, c) < bound
    ensures Sound(u) && RemoveAll(u, root, children, bound) == Ok(PruneBelow(u, w))
    ensures Tree(PruneBelow(u, w), root, detached)
    decreases bound, 0, |children|
  {
    TreeIsSound(u, root, detached);
    var p := u.byHandle[w].absPath;
    if children == [] {
      PruneNothing(u, root, detached, w);
    } else {
      var c := children[0];
      ChildBelow(u, w, c);
      var pc := u.byHandle[c].absPath;
      assert c !in detached;
      assert forall d :: d in detached && d in u.byHandle && d != c ==> !Under(pc, u.byHandle[d].absPath);
      RemoveErases(u, root, detached, c);
      var e := Erase(u, c);
      PruneAfterErase(u, w, c);
      assert e.byHandle[w].subdirs == children[1..];
      RanksStayBelow(u, e, children[1..], bound);
      RemoveAllPrunes(e, root, detached, w, children[1..], bound);
    }
  }

  /** Removal on a tree erases exactly the subtree, and the tables remain a
      tree. */
  lemma {:induction false} RemoveErases(t: Tables, root: string, detached: set<int>, w: int)
    requires Tree(t, root, detached) && w in t.byHandle && w !in detached
    requires forall d :: d in detached && d in t.byHandle ==> !Under(t.byHandle[w].absPath, t.byHandle[d].absPath)
    ensures Sound(t) && Remove(t, root, w) == Ok(Erase(t, w))
    ensures Tree(Erase(t, w), root, detached)
    decreases Rank(t, w), 1, 0
  {
    TreeIsSound(t, root, detached);
    UnlinkDetaches(t, root, detached, w);
    var t1 := StripAll(t, w);
    UnlinkKeepsSound(t, root, w);
    RankShrinks(t, t1, w);
    var children := t1.byHandle[w].subdirs;
    ChildrenRankLower(t1, w, Rank(t, w));
    RemoveAllPrunes(t1, root, detached + {w}, w, children, Rank(t, w));
    FinalDelete(t, w);
    EraseKeepsTree(t, root, detached, w);
  }

  /** `remove_watches` on the tree of watched directories: it never fails,
      no record at or below the removed directory stays in either table,
      every other record stays, and the tables remain a tree. */
  lemma RemoveSubtree(t: Tables, root: string, w: int)
    requires Tree(t, root, {}) && w in t.byHandle
    ensures Sound(t) && Remove(t, root, w).Ok?
    ensures var r := Remove(t, root, w).value;
      var p := t.byHandle[w].absPath;
      && r == Erase(t, w)
      && Tree(r, root, {})
      && (forall q :: q in r.byPath ==> !Under(p, q))
      && (forall v :: v in r.byHandle ==> !Under(p, r.byHandle[v].absPath))
      && (forall v :: v in t.byHandle && !Under(p, t.byHandle[v].absPath) ==> v in r.byHandle)
  {
    RemoveErases(t, root, {}, w);
  }
}
