/** `register_watches` of src/server/linux/workspace.c builds a tree of
    watches: on tables that describe a tree, registering a directory that
    is not yet watched, whose parent is, never fails, keeps both tables
    describing the same tree, and lists the new handle once in both copies
    of its parent's record. The record of a directory is inserted before
    its subdirectories are registered, so every parent lookup of the
    recursion finds its record. */
module EngineTree {
  import opened Wrappers
  import opened Paths
  import opened WatchTables
  import opened EngineSpec

  /** What a real directory listing guarantees at every level: every name
      is non-empty, holds no '/' and differs from its siblings' names, and
      every visible entry can be `stat`ed. */
  predicate Walkable(d: Dir) {
    && (forall i :: 0 <= i < |d.entries| ==> d.entries[i].name != [] && '/' !in d.entries[i].name)
    && (forall i, j :: 0 <= i < j < |d.entries| ==> d.entries[i].name != d.entries[j].name)
    && (forall i :: 0 <= i < |d.entries| && !Hidden(d.entries[i].name) ==> !d.entries[i].node.Unstatable?)
    && (forall i :: 0 <= i < |d.entries| && d.entries[i].node.DirNode? ==> Walkable(d.entries[i].node.dir))
  }

  /** No watched path lies at or below `abs`. */
  predicate Unwatched(t: Tables, abs: string) {
    forall q :: q in t.byPath ==> !Under(abs, q)
  }

  /** No watched path lies strictly below `abs`. */
  predicate NoneBelow(t: Tables, abs: string) {
    forall q :: q in t.byPath ==> !StrictlyUnder(abs, q)
  }

  /** Every record of `t` not at path `skip` is in `u`, unchanged, in both
      tables. */
  predicate KeepsExcept(t: Tables, u: Tables, skip: string) {
    && (forall q :: q in t.byPath && q != skip ==> q in u.byPath && u.byPath[q] == t.byPath[q])
    && (forall v :: v in t.byHandle && t.byHandle[v].absPath != skip ==> v in u.byHandle && u.byHandle[v] == t.byHandle[v])
  }

  /** `u` watches no new path outside `abs`, and its counter has not moved
      back. */
  predicate AddsBelow(t: Tables, u: Tables, abs: string) {
    && u.nextWd >= t.nextWd
    && forall q :: q in u.byPath && q !in t.byPath ==> Under(abs, q)
  }

  /** When `register_watches` may be called for the directory at `rel`: it
      is walkable, nothing at or below it is watched yet, and, below the
      root, its parent directory is watched. */
  predicate Registrable(t: Tables, root: string, rel: Option<string>, dir: Dir) {
    && Walkable(dir) && Unwatched(t, Join(root, rel))
    && (rel.Some? ==>
          var parent := ParentPath(Some(Join(root, rel)));
          parent.Ok? && parent.value.Some? && parent.value.value in t.byPath)
  }

  /** The facts about a subdirectory of the directory at `abs` that its own
      registration needs. */
  predicate ChildReady(t: Tables, root: string, abs: string, s: Subdir) {
    && s.name != [] && '/' !in s.name
    && Join(root, Some(s.relPath)) == abs + "/" + s.name
    && Walkable(s.dir)
    && Unwatched(t, abs + "/" + s.name)
  }

  // ------------------------------------------------------------- the listing

  /** Sibling names stay distinct in the listing. */
  lemma {:induction false} ListingNamesDistinct(rel: Option<string>, entries: seq<Entry>)
    requires SubdirsOf(rel, entries).Ok?
    requires forall i, j :: 0 <= i < j < |entries| ==> entries[i].name != entries[j].name
    ensures var l := SubdirsOf(rel, entries).value;
      forall a, b :: 0 <= a < b < |l| ==> l[a].name != l[b].name
  {
    if entries != [] {
      var rest := entries[1..];
      assert forall i, j :: 0 <= i < j < |rest| ==> rest[i].name != rest[j].name by {
        assert forall i :: 0 <= i < |rest| ==> rest[i] == entries[i + 1];
      }
      ListingNamesDistinct(rel, rest);
      var e := entries[0];
      if !Hidden(e.name) && e.node.DirNode? {
        var lr := SubdirsOf(rel, rest).value;
        SubdirsOfExactly(rel, rest);
        forall s | s in lr ensures s.name != e.name {
          var i :| 0 <= i < |rest| && !Hidden(rest[i].name) && rest[i].node.DirNode? &&
            s == Subdir(rest[i].name, SubdirPath(rel, rest[i].name), rest[i].node.dir);
          assert rest[i] == entries[i + 1];
        }
        var l := SubdirsOf(rel, entries).value;
        forall a, b | 0 <= a < b < |l| ensures l[a].name != l[b].name {
          assert l[b] == lr[b - 1];
          if a > 0 {
            assert l[a] == lr[a - 1];
          }
        }
      }
    }
  }

  /** The listing of a walkable directory at `rel` below `root` succeeds,
      and every element is ready to be registered below it. */
  lemma ListingReady(t: Tables, root: string, rel: Option<string>, d: Dir)
    requires Walkable(d) && NoneBelow(t, Join(root, rel))
    ensures SubdirsOf(rel, d.entries).Ok?
    ensures var subs := SubdirsOf(rel, d.entries).value;
      && (forall k :: 0 <= k < |subs| ==> ChildReady(t, root, Join(root, rel), subs[k]))
      && (forall a, b :: 0 <= a < b < |subs| ==> subs[a].name != subs[b].name)
  {
    var abs := Join(root, rel);
    SubdirsOfExactly(rel, d.entries);
    var subs := SubdirsOf(rel, d.entries).value;
    ListingNamesDistinct(rel, d.entries);
    forall k | 0 <= k < |subs| ensures ChildReady(t, root, abs, subs[k]) {
      var s := subs[k];
      assert s in subs;
      var i :| 0 <= i < |d.entries| && !Hidden(d.entries[i].name) && d.entries[i].node.DirNode? &&
        s == Subdir(d.entries[i].name, SubdirPath(rel, d.entries[i].name), d.entries[i].node.dir);
      JoinChild(root, rel, s.name);
      UnwatchedBelow(t, abs, s.name);
    }
  }

  /** The absolute path of child `name` of the directory at `rel`. */
  lemma JoinChild(root: string, rel: Option<string>, name: string)
    ensures Join(root, Some(SubdirPath(rel, name))) == Join(root, rel) + "/" + name
  {
    if rel.Some? {
      assert root + "/" + (rel.value + "/" + name) == (root + "/" + rel.value) + "/" + name;
    }
  }

  /** Nothing watched lies at or below a child of a directory with nothing
      watched below it. */
  lemma UnwatchedBelow(t: Tables, abs: string, name: string)
    requires NoneBelow(t, abs)
    ensures Unwatched(t, abs + "/" + name)
  {
    forall q | q in t.byPath ensures !Under(abs + "/" + name, q) {
      if Under(abs + "/" + name, q) {
        assert StrictlyUnder(abs, abs + "/" + name);
        UnderTransitive(abs, abs + "/" + name, q);
      }
    }
  }

  /** Once the record of an unwatched directory is inserted, nothing is
      watched strictly below it. */
  lemma InsertedNoneBelow(t: Tables, abs: string, rel: Option<string>)
    requires Unwatched(t, abs)
    ensures NoneBelow(Inserted(t, abs, rel), abs)
  {
  }

  // ------------------------------------------------------------- one step

  /** Inserting the record of an unwatched directory below the root keeps a
      tree, with the new handle not yet linked to its parent. */
  lemma InsertKeepsTree(t: Tables, root: string, abs: string, rel: Option<string>, detached: set<int>)
    requires Tree(t, root, detached) && abs !in t.byPath && Under(root, abs)
    ensures var t0 := Inserted(t, abs, rel);
      && Tree(t0, root, detached + {t.nextWd})
      && KeepsExcept(t, t0, abs) && AddsBelow(t, t0, abs)
      && t.nextWd in t0.byHandle && t0.byHandle[t.nextWd].absPath == abs
  {
    var t0 := Inserted(t, abs, rel);
    assert t.nextWd !in t.byHandle;
    InsertMirrored(t, abs, rel);
    InsertChildrenBelow(t, abs, rel);
    InsertLinked(t, root, abs, rel, detached);
  }

  lemma InsertChildrenBelow(t: Tables, abs: string, rel: Option<string>)
    requires ChildrenBelow(t) && t.nextWd !in t.byHandle
    ensures ChildrenBelow(Inserted(t, abs, rel))
  {
    var t0 := Inserted(t, abs, rel);
    forall v, c | v in t0.byHandle && c in t0.byHandle[v].subdirs
      ensures c in t0.byHandle && ParentPath(Some(t0.byHandle[c].absPath)) == Ok(Some(t0.byHandle[v].absPath))
    {
      assert v != t.nextWd;
      ListedChild(t, v, c);
    }
  }

  lemma InsertLinked(t: Tables, root: string, abs: string, rel: Option<string>, detached: set<int>)
    requires LinkedExcept(t, root, detached) && abs !in t.byPath
    ensures LinkedExcept(Inserted(t, abs, rel), root, detached + {t.nextWd})
  {
    var t0 := Inserted(t, abs, rel);
    forall v | v in t0.byHandle && v !in detached + {t.nextWd} && |t0.byHandle[v].absPath| > |root|
      ensures var parent := ParentPath(Some(t0.byHandle[v].absPath));
        && parent.Ok? && parent.value.Some?
        && parent.value.value in t0.byPath
        && v in t0.byPath[parent.value.value].subdirs
    {
      assert t0.byHandle[v] == t.byHandle[v];
    }
  }

  lemma InsertMirrored(t: Tables, abs: string, rel: Option<string>)
    requires Mirrored(t) && FreshCounter(t) && abs !in t.byPath
    ensures Mirrored(Inserted(t, abs, rel)) && FreshCounter(Inserted(t, abs, rel))
  {
    var t0 := Inserted(t, abs, rel);
    forall q | q in t0.byPath
      ensures t0.byPath[q].wd in t0.byHandle && t0.byHandle[t0.byPath[q].wd] == t0.byPath[q]
    {
      if q != abs {
        assert t.byPath[q].wd in t.byHandle;
      }
    }
  }

  /** Linking the handle of a registered directory to its parent's record
      ends its detachment. Only the parent's two copies change: each gets
      the handle appended. At the root, nothing changes. */
  lemma LinkKeepsTree(t: Tables, root: string, abs: string, wd: int, detached: set<int>)
    requires Tree(t, root, detached + {wd}) && wd in t.byHandle && t.byHandle[wd].absPath == abs && Under(root, abs)
    requires |abs| > |root| ==>
      var parent := ParentPath(Some(abs));
      && parent.Ok? && parent.value.Some? && parent.value.value in t.byPath
      && wd !in t.byPath[parent.value.value].subdirs
    ensures LinkToParent(t, root, abs, wd).Ok?
    ensures var u := LinkToParent(t, root, abs, wd).value;
      && Tree(u, root, detached) && u.nextWd == t.nextWd && u.byPath.Keys == t.byPath.Keys
    ensures |abs| <= |root| ==> LinkToParent(t, root, abs, wd).value == t
    ensures |abs| > |root| ==>
      var u := LinkToParent(t, root, abs, wd).value;
      var pp := ParentPath(Some(abs)).value.value;
      && KeepsExcept(t, u, pp)
      && u.byPath[pp] == Append(t.byPath[pp], wd)
      && u.byHandle[t.byPath[pp].wd] == Append(t.byPath[pp], wd)
  {
    if |abs| > |root| {
      var pp := ParentPath(Some(abs)).value.value;
      var p := t.byPath[pp].wd;
      var u := LinkToParent(t, root, abs, wd).value;
      assert p in t.byHandle && t.byHandle[p] == t.byPath[pp];
      LinkTree(t, root, pp, p, abs, wd, detached);
    } else {
      assert abs == root;
    }
  }

  lemma LinkTree(t: Tables, root: string, pp: string, p: int, abs: string, wd: int, detached: set<int>)
    requires Tree(t, root, detached + {wd}) && wd in t.byHandle && t.byHandle[wd].absPath == abs
    requires pp in t.byPath && t.byPath[pp].wd == p && p in t.byHandle && t.byHandle[p] == t.byPath[pp]
    requires ParentPath(Some(abs)) == Ok(Some(pp)) && wd !in t.byPath[pp].subdirs
    ensures var u := t.(byPath := t.byPath[pp := Append(t.byPath[pp], wd)],
                        byHandle := t.byHandle[p := Append(t.byHandle[p], wd)]);
      Tree(u, root, detached) && KeepsExcept(t, u, pp)
  {
    var u := t.(byPath := t.byPath[pp := Append(t.byPath[pp], wd)],
                byHandle := t.byHandle[p := Append(t.byHandle[p], wd)]);
    assert t.byHandle[p].absPath == pp;
    LinkMirrored(t, pp, p, wd);
    LinkChildrenBelow(t, u, pp, p, abs, wd);
    LinkNoDup(t, u, p, wd);
    LinkLinked(t, u, root, pp, p, abs, wd, detached);
  }

  lemma LinkChildrenBelow(t: Tables, u: Tables, pp: string, p: int, abs: string, wd: int)
    requires ChildrenBelow(t) && wd in t.byHandle && t.byHandle[wd].absPath == abs
    requires p in t.byHandle && t.byHandle[p].absPath == pp && ParentPath(Some(abs)) == Ok(Some(pp))
    requires u.byHandle == t.byHandle[p := Append(t.byHandle[p], wd)]
    ensures ChildrenBelow(u)
  {
    forall v, c | v in u.byHandle && c in u.byHandle[v].subdirs
      ensures c in u.byHandle && ParentPath(Some(u.byHandle[c].absPath)) == Ok(Some(u.byHandle[v].absPath))
    {
      if v != p || c != wd {
        assert c in t.byHandle[v].subdirs;
        ListedChild(t, v, c);
      }
    }
  }

  lemma LinkNoDup(t: Tables, u: Tables, p: int, wd: int)
    requires ListsNoDup(t) && p in t.byHandle && wd !in t.byHandle[p].subdirs
    requires u.byHandle == t.byHandle[p := Append(t.byHandle[p], wd)]
    ensures ListsNoDup(u)
  {
    forall v | v in u.byHandle ensures NoDup(u.byHandle[v].subdirs) {
      if v == p {
        assert NoDup(t.byHandle[p].subdirs);
      }
    }
  }

  lemma LinkLinked(t: Tables, u: Tables, root: string, pp: string, p: int, abs: string, wd: int, detached: set<int>)
    requires LinkedExcept(t, root, detached + {wd}) && wd in t.byHandle && t.byHandle[wd].absPath == abs
    requires pp in t.byPath && p in t.byHandle && ParentPath(Some(abs)) == Ok(Some(pp))
    requires u.byPath == t.byPath[pp := Append(t.byPath[pp], wd)]
    requires u.byHandle == t.byHandle[p := Append(t.byHandle[p], wd)]
    ensures LinkedExcept(u, root, detached)
  {
    forall v | v in u.byHandle && v !in detached && |u.byHandle[v].absPath| > |root|
      ensures var parent := ParentPath(Some(u.byHandle[v].absPath));
        && parent.Ok? && parent.value.Some?
        && parent.value.value in u.byPath
        && v in u.byPath[parent.value.value].subdirs
    {
      assert u.byHandle[v].absPath == t.byHandle[v].absPath;
      if v != wd {
        var q := ParentPath(Some(t.byHandle[v].absPath)).value.value;
        assert v in t.byPath[q].subdirs;
      }
    }
  }

  lemma LinkMirrored(t: Tables, pp: string, p: int, wd: int)
    requires Mirrored(t) && FreshCounter(t) && wd in t.byHandle
    requires pp in t.byPath && t.byPath[pp].wd == p && p in t.byHandle && t.byHandle[p] == t.byPath[pp]
    ensures var u := t.(byPath := t.byPath[pp := Append(t.byPath[pp], wd)],
                        byHandle := t.byHandle[p := Append(t.byHandle[p], wd)]);
      Mirrored(u) && FreshCounter(u)
  {
  }

  // ---------------------------------------------------- composing the steps

  lemma KeepsTransitive(t: Tables, u: Tables, w: Tables, skip: string)
    requires KeepsExcept(t, u, skip) && KeepsExcept(u, w, skip)
    ensures KeepsExcept(t, w, skip)
  {
  }

  lemma AddsTransitive(t: Tables, u: Tables, w: Tables, a: string, b: string)
    requires AddsBelow(t, u, a) && AddsBelow(u, w, b) && Under(a, b)
    requires forall q :: q in t.byPath ==> q in u.byPath
    ensures AddsBelow(t, w, a)
  {
    forall q | q in w.byPath && q !in t.byPath ensures Under(a, q) {
      if q !in u.byPath {
        UnderTransitive(a, b, q);
      }
    }
  }

  // ------------------------------------------------------------ registration

  /** Registering a walkable directory that is not yet watched, below the
      root, into tables that describe a tree never fails. The result
      describes a tree again, with the same records detached. The new
      handle is the one that was next, and its record is in both tables at
      the joined path. Every record outside the parent directory is kept
      as it was, and the parent's two copies each get the handle appended
      once. Only paths at or below the new directory are added. */
  lemma {:induction false} RegisterKeepsTree(t: Tables, root: string, rel: Option<string>, dir: Dir, detached: set<int>)
    requires Tree(t, root, detached) && Registrable(t, root, rel, dir)
    ensures Register(t, root, rel, dir).Ok?
    ensures var u := Register(t, root, rel, dir).value;
      var abs := Join(root, rel);
      && Tree(u, root, detached) && AddsBelow(t, u, abs)
      && t.nextWd in u.byHandle && u.byHandle[t.nextWd].absPath == abs
      && abs in u.byPath && u.byPath[abs].wd == t.nextWd
    ensures rel.None? ==> KeepsExcept(t, Register(t, root, rel, dir).value, Join(root, rel))
    ensures rel.Some? ==>
      var u := Register(t, root, rel, dir).value;
      var pp := ParentPath(Some(Join(root, rel))).value.value;
      && KeepsExcept(t, u, pp)
      && u.byPath[pp] == Append(t.byPath[pp], t.nextWd)
      && t.byPath[pp].wd in u.byHandle && u.byHandle[t.byPath[pp].wd] == Append(t.byPath[pp], t.nextWd)
    decreases Size(dir), 1, 0
  {
    var abs := Join(root, rel);
    var wd := t.nextWd;
    assert Under(abs, abs);
    assert Under(root, abs);
    InsertKeepsTree(t, root, abs, rel, detached);
    var t0 := Inserted(t, abs, rel);
    InsertedNoneBelow(t, abs, rel);
    ListingReady(t0, root, rel, dir);
    var subs := SubdirsOf(rel, dir.entries).value;
    SubdirsSmaller(rel, dir);
    RegisterAllKeepsTree(t0, root, abs, wd, subs, Size(dir), detached + {wd});
    var t1 := RegisterAll(t0, root, subs, Size(dir)).value;
    KeepsTransitive(t, t0, t1, abs);
    AddsTransitive(t, t0, t1, abs, abs);
    if rel.Some? {
      var pp := ParentPath(Some(abs)).value.value;
      assert pp != abs;
      assert t1.byPath[pp] == t.byPath[pp];
      assert wd !in t.byPath[pp].subdirs by {
        assert t.byPath[pp].wd in t.byHandle;
      }
    }
    LinkKeepsTree(t1, root, abs, wd, detached);
    var u := LinkToParent(t1, root, abs, wd).value;
    if rel.Some? {
      var pp := ParentPath(Some(abs)).value.value;
      KeepsAcross(t, t1, u, abs, pp);
    }
  }

  /** The registrations of the listing of the directory at `abs` (handle
      `wd`), one after the other: none fails, the tree is kept, and only
      the directory's own record and paths below it change. */
  lemma {:induction false} RegisterAllKeepsTree(t: Tables, root: string, abs: string, wd: int,
                                                subs: seq<Subdir>, bound: nat, detached: set<int>)
    requires Tree(t, root, detached) && wd in t.byHandle && t.byHandle[wd].absPath == abs
    requires forall i :: 0 <= i < |subs| ==> Size(subs[i].dir) < bound
    requires forall i :: 0 <= i < |subs| ==> ChildReady(t, root, abs, subs[i])
    requires forall i, j :: 0 <= i < j < |subs| ==> subs[i].name != subs[j].name
    ensures RegisterAll(t, root, subs, bound).Ok?
    ensures var u := RegisterAll(t, root, subs, bound).value;
      && Tree(u, root, detached) && KeepsExcept(t, u, abs) && AddsBelow(t, u, abs)
      && wd in u.byHandle && u.byHandle[wd].absPath == abs
    decreases bound, 0, |subs|
  {
    if subs != [] {
      var s := subs[0];
      ChildParent(t, root, abs, wd, s);
      RegisterKeepsTree(t, root, Some(s.relPath), s.dir, detached);
      var t1 := Register(t, root, Some(s.relPath), s.dir).value;
      FirstChildDone(t, t1, root, abs, wd, s);
      RestReady(t, t1, root, abs, subs);
      RegisterAllKeepsTree(t1, root, abs, wd, subs[1..], bound, detached);
      var u := RegisterAll(t1, root, subs[1..], bound).value;
      AddsTransitive(t, t1, u, abs, abs);
      KeepsTransitive(t, t1, u, abs);
    }
  }

  /** The parent lookup of a child of the directory at `abs` finds that
      directory's record. */
  lemma ChildParent(t: Tables, root: string, abs: string, wd: int, s: Subdir)
    requires Mirrored(t) && wd in t.byHandle && t.byHandle[wd].absPath == abs
    requires ChildReady(t, root, abs, s)
    ensures ParentPath(Some(Join(root, Some(s.relPath)))) == Ok(Some(abs))
    ensures abs in t.byPath && t.byPath[abs].wd == wd
  {
    ParentOfJoin(abs, s.name);
  }

  /** After the first child is registered, the directory's record is still
      at its path, records elsewhere are kept, and only paths below the
      directory were added. */
  lemma FirstChildDone(t: Tables, t1: Tables, root: string, abs: string, wd: int, s: Subdir)
    requires ChildReady(t, root, abs, s) && Keyed(t)
    requires abs in t.byPath && t.byPath[abs].wd == wd
    requires AddsBelow(t, t1, Join(root, Some(s.relPath)))
    requires wd in t1.byHandle && t1.byHandle[wd] == Append(t.byPath[abs], t.nextWd)
    ensures AddsBelow(t, t1, abs)
    ensures t1.byHandle[wd].absPath == abs
  {
    assert StrictlyUnder(abs, abs + "/" + s.name);
    AddsBelowWider(t, t1, abs, abs + "/" + s.name);
  }

  /** Once the first child is registered, the remaining children are still
      ready, and their names still distinct. */
  lemma RestReady(t: Tables, t1: Tables, root: string, abs: string, subs: seq<Subdir>)
    requires |subs| > 0
    requires forall i :: 0 <= i < |subs| ==> ChildReady(t, root, abs, subs[i])
    requires forall i, j :: 0 <= i < j < |subs| ==> subs[i].name != subs[j].name
    requires AddsBelow(t, t1, abs + "/" + subs[0].name)
    ensures forall i :: 0 <= i < |subs[1..]| ==> ChildReady(t1, root, abs, subs[1..][i])
    ensures forall i, j :: 0 <= i < j < |subs[1..]| ==> subs[1..][i].name != subs[1..][j].name
  {
    var rest := subs[1..];
    forall i | 0 <= i < |rest| ensures ChildReady(t1, root, abs, rest[i]) {
      assert rest[i] == subs[i + 1];
      SiblingStaysUnwatched(t, t1, abs, subs[0].name, rest[i].name);
    }
    assert forall i :: 0 <= i < |rest| ==> rest[i] == subs[i + 1];
  }

  /** A sibling stays unwatched while another sibling, with a different
      name, is registered. */
  lemma SiblingStaysUnwatched(t: Tables, u: Tables, abs: string, n1: string, n2: string)
    requires Unwatched(t, abs + "/" + n2) && AddsBelow(t, u, abs + "/" + n1)
    requires '/' !in n1 && '/' !in n2 && n1 != n2
    ensures Unwatched(u, abs + "/" + n2)
  {
    forall q | q in u.byPath ensures !Under(abs + "/" + n2, q) {
      SiblingsDisjoint(abs, n1, n2, q);
    }
  }

  lemma AddsBelowWider(t: Tables, u: Tables, a: string, b: string)
    requires AddsBelow(t, u, b) && Under(a, b)
    ensures AddsBelow(t, u, a)
  {
    forall q | q in u.byPath && q !in t.byPath ensures Under(a, q) {
      UnderTransitive(a, b, q);
    }
  }

  /** Records kept outside `abs` (which `t` does not hold) and then outside
      `pp` were kept outside `pp`. */
  lemma KeepsAcross(t: Tables, t1: Tables, u: Tables, abs: string, pp: string)
    requires Mirrored(t) && abs !in t.byPath
    requires KeepsExcept(t, t1, abs) && KeepsExcept(t1, u, pp)
    ensures KeepsExcept(t, u, pp)
  {
    forall v | v in t.byHandle && t.byHandle[v].absPath != pp
      ensures v in u.byHandle && u.byHandle[v] == t.byHandle[v]
    {
      assert t.byHandle[v].absPath in t.byPath;
    }
  }
}
