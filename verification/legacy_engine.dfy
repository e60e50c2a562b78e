/** The earlier watch-tree engine of server/workspace.c: the same two tables,
    but a new handle is appended only to the path table's copy of its
    parent's record, removal recurses over the handle table's copy, every
    anomaly is fatal, and nothing is ever synced. */
module LegacyEngine {
  import opened Wrappers
  import opened Paths
  import opened WatchTables
  import opened EngineSpec
  import opened EngineRemoval
  import opened EngineTree

  /** Every record of the handle table lists no child: what the earlier
      engine's registration leaves, since it never appends to that copy. */
  predicate HandleListsEmpty(t: Tables) {
    forall v :: v in t.byHandle ==> t.byHandle[v].subdirs == []
  }

  /** The handle table of `u` is that of `t` with some records deleted. */
  predicate HandlesKept(t: Tables, u: Tables) {
    && u.nextWd == t.nextWd
    && forall v :: v in u.byHandle ==> v in t.byHandle && u.byHandle[v] == t.byHandle[v]
  }

  /** What the removal of the earlier engine relies on to terminate: every
      listed child in the handle table is deeper than its parent. */
  predicate Ordered(t: Tables) {
    FreshCounter(t) && Deeper(t)
  }

  // ------------------------------------------------------- register_watches

  /** The earlier `register_watches`: the record goes into both tables, the
      subdirectories are registered, and the new handle is appended to the
      path table's copy of the parent only. */
  function LegacyRegister(t: Tables, root: string, rel: Option<string>, dir: Dir): Result<Tables>
    decreases Size(dir), 1, 0
  {
    var abs := Join(root, rel);
    var wd := t.nextWd;
    var rec := WatchRecord(wd, abs, rel, []);
    var t0 := Tables(t.byHandle[wd := rec], t.byPath[abs := rec], wd + 1);
    match SubdirsOf(rel, dir.entries)
    case Fatal(m) => Fatal(m)
    case Ok(subs) =>
      SubdirsSmaller(rel, dir);
      match LegacyRegisterAll(t0, root, subs, Size(dir))
      case Fatal(m) => Fatal(m)
      case Ok(t1) => LegacyLink(t1, root, abs, wd)
  }

  function LegacyRegisterAll(t: Tables, root: string, subs: seq<Subdir>, bound: nat): Result<Tables>
    requires forall i :: 0 <= i < |subs| ==> Size(subs[i].dir) < bound
    decreases bound, 0, |subs|
  {
    if subs == [] then Ok(t)
    else match LegacyRegister(t, root, Some(subs[0].relPath), subs[0].dir)
      case Fatal(m) => Fatal(m)
      case Ok(t1) => LegacyRegisterAll(t1, root, subs[1..], bound)
  }

  /** The earlier link step: only the path table's copy of the parent gets
      the new handle; a parent missing from the path table is fatal. */
  function LegacyLink(t: Tables, root: string, abs: string, wd: int): (r: Result<Tables>)
    ensures r.Ok? ==> r.value.byHandle == t.byHandle && r.value.nextWd == t.nextWd
  {
    if |abs| > |root| then
      match ParentPath(Some(abs))
      case Fatal(m) => Fatal(m)
      case Ok(None) => Ok(t)
      case Ok(Some(pp)) =>
        if pp !in t.byPath then Fatal("No metadata stored for directory '" + pp + "'.")
        else Ok(t.(byPath := t.byPath[pp := Append(t.byPath[pp], wd)]))
    else Ok(t)
  }

  /** Linking touches the path table only, and appends the handle to the
      parent's record there. */
  lemma LegacyLinkPathTableOnly(t: Tables, root: string, abs: string, wd: int)
    ensures LegacyLink(t, root, abs, wd).Ok? && |abs| > |root| && ParentPath(Some(abs)).value.Some? ==>
      var pp := ParentPath(Some(abs)).value.value;
      pp in t.byPath && LegacyLink(t, root, abs, wd).value.byPath == t.byPath[pp := Append(t.byPath[pp], wd)]
    ensures LegacyLink(t, root, abs, wd).Fatal? <==>
      |abs| > |root| && (ParentPath(Some(abs)).Fatal? ||
        (ParentPath(Some(abs)).value.Some? && ParentPath(Some(abs)).value.value !in t.byPath))
  {
  }

  /** The earlier registration never lists a child in the handle table, so
      every record there keeps an empty list. */
  lemma {:induction false} LegacyRegisterHandleListsEmpty(t: Tables, root: string, rel: Option<string>, dir: Dir)
    requires HandleListsEmpty(t) && FreshCounter(t)
    ensures LegacyRegister(t, root, rel, dir).Ok? ==>
      var u := LegacyRegister(t, root, rel, dir).value;
      HandleListsEmpty(u) && u.nextWd > t.nextWd
      && (forall v :: v in t.byHandle ==> v in u.byHandle && u.byHandle[v] == t.byHandle[v])
      && t.nextWd in u.byHandle && u.byHandle[t.nextWd].absPath == Join(root, rel)
    decreases Size(dir), 1, 0
  {
    var abs := Join(root, rel);
    var wd := t.nextWd;
    var rec := WatchRecord(wd, abs, rel, []);
    var t0 := Tables(t.byHandle[wd := rec], t.byPath[abs := rec], wd + 1);
    if SubdirsOf(rel, dir.entries).Ok? {
      var subs := SubdirsOf(rel, dir.entries).value;
      SubdirsSmaller(rel, dir);
      assert FreshCounter(t0) && HandleListsEmpty(t0);
      LegacyRegisterAllHandleListsEmpty(t0, root, subs, Size(dir));
      if LegacyRegisterAll(t0, root, subs, Size(dir)).Ok? {
        var t1 := LegacyRegisterAll(t0, root, subs, Size(dir)).value;
        assert LegacyRegister(t, root, rel, dir) == LegacyLink(t1, root, abs, wd);
        assert wd in t0.byHandle;
      }
    }
  }

  lemma {:induction false} LegacyRegisterAllHandleListsEmpty(t: Tables, root: string, subs: seq<Subdir>, bound: nat)
    requires HandleListsEmpty(t) && FreshCounter(t)
    requires forall i :: 0 <= i < |subs| ==> Size(subs[i].dir) < bound
    ensures LegacyRegisterAll(t, root, subs, bound).Ok? ==>
      var u := LegacyRegisterAll(t, root, subs, bound).value;
      HandleListsEmpty(u) && u.nextWd >= t.nextWd
      && (forall v :: v in t.byHandle ==> v in u.byHandle && u.byHandle[v] == t.byHandle[v])
    decreases bound, 0, |subs|
  {
    if subs != [] {
      LegacyRegisterHandleListsEmpty(t, root, Some(subs[0].relPath), subs[0].dir);
      LegacyRegisterCounter(t, root, Some(subs[0].relPath), subs[0].dir);
      if LegacyRegister(t, root, Some(subs[0].relPath), subs[0].dir).Ok? {
        var t1 := LegacyRegister(t, root, Some(subs[0].relPath), subs[0].dir).value;
        LegacyRegisterAllHandleListsEmpty(t1, root, subs[1..], bound);
      }
    }
  }

  // --------------------------------------------------------- remove_watches

  /** The earlier splice: `w` leaves the path table's copy of its parent's
      list only; a parent missing from the path table is fatal. */
  function LegacyUnlink(t: Tables, root: string, w: int): (r: Result<Tables>)
    requires w in t.byHandle
    ensures r.Ok? ==> r.value.byHandle == t.byHandle && r.value.nextWd == t.nextWd
  {
    var rec := t.byHandle[w];
    if |rec.absPath| > |root| then
      match ParentPath(Some(rec.absPath))
      case Fatal(m) => Fatal(m)
      case Ok(None) => Ok(t)
      case Ok(Some(pp)) =>
        if pp !in t.byPath then Fatal("No metadata stored for parent descriptor '" + pp + "'.")
        else Ok(t.(byPath := t.byPath[pp := Strip(t.byPath[pp], rec.wd)]))
    else Ok(t)
  }

  lemma HandlesKeptShrinks(t: Tables, u: Tables)
    requires Ordered(t) && HandlesKept(t, u)
    ensures Ordered(u) && Shrinks(t, u)
  {
  }

  lemma HandlesKeptTransitive(t: Tables, u: Tables, v: Tables)
    requires HandlesKept(t, u) && HandlesKept(u, v)
    ensures HandlesKept(t, v)
  {
  }

  /** The earlier `remove_watches(w)`: unknown handles are fatal; the splice
      above, then every child listed in the HANDLE table's record of `w` is
      removed, then the record leaves both tables. The handle table's
      records are never changed, only deleted. */
  function LegacyRemove(t: Tables, root: string, w: int): (r: Result<Tables>)
    requires Ordered(t)
    ensures r.Ok? ==> Ordered(r.value) && HandlesKept(t, r.value)
    decreases Rank(t, w), 1, 0
  {
    if w !in t.byHandle then Fatal("no metadata is stored for watch descriptor '" + IntText(w) + "'.")
    else match LegacyUnlink(t, root, w)
      case Fatal(m) => Fatal(m)
      case Ok(t1) =>
        HandlesKeptShrinks(t, t1);
        RankShrinks(t, t1, w);
        var children := t1.byHandle[w].subdirs;
        ChildrenRankLower(t1, w, Rank(t, w));
        match LegacyRemoveAll(t1, root, children, Rank(t, w))
        case Fatal(m) => Fatal(m)
        case Ok(t2) =>
          var path := t.byHandle[w].absPath;
          if path !in t2.byPath then Fatal("No metadata stored for '" + path + "'")
          else
            var t3 := t2.(byPath := t2.byPath - {path}, byHandle := t2.byHandle - {w});
            HandlesKeptTransitive(t, t1, t2);
            Ok(t3)
  }

  function LegacyRemoveAll(t: Tables, root: string, children: seq<int>, bound: nat): (r: Result<Tables>)
    requires Ordered(t)
    requires forall c :: c in children ==> Rank(t, c) < bound
    ensures r.Ok? ==> Ordered(r.value) && HandlesKept(t, r.value)
    decreases bound, 0, |children|
  {
    if children == [] then Ok(t)
    else match LegacyRemove(t, root, children[0])
      case Fatal(m) => Fatal(m)
      case Ok(t1) =>
        HandlesKeptShrinks(t, t1);
        RanksStayBelow(t, t1, children[1..], bound);
        match LegacyRemoveAll(t1, root, children[1..], bound)
        case Fatal(m) => Fatal(m)
        case Ok(t2) =>
          HandlesKeptTransitive(t, t1, t2);
          Ok(t2)
  }

  /** With empty lists in the handle table, removing `w` deletes the record
      of `w` and no other: whatever lies below `w`'s directory stays. */
  lemma LegacyRemoveOnlyItself(t: Tables, root: string, w: int)
    requires Ordered(t) && HandleListsEmpty(t) && w in t.byHandle
    ensures LegacyRemove(t, root, w).Ok? ==>
      LegacyRemove(t, root, w).value.byHandle == t.byHandle - {w}
  {
  }

  // ---------------------------------------------------- handle_inotify_event

  /** The earlier `handle_inotify_event`: an unknown handle, a failed
      `stat` and the deletion of an untracked directory are fatal; self
      events fall through; nothing is synced. */
  function LegacyHandle(t: Tables, root: string, ev: Event, stat: Node): Result<Tables>
    requires Ordered(t) && HandleListsEmpty(t)
  {
    if InIgnored in ev.mask then Ok(t)
    else if ev.wd !in t.byHandle then Fatal("No metadata stored for watch descriptor '" + IntText(ev.wd) + "'.")
    else
      var rec := t.byHandle[ev.wd];
      var directoryAbs := Join(root, rec.relPath);
      var resourceAbs := directoryAbs + "/" + ev.name;
      var resourceRel := SubdirPath(rec.relPath, ev.name);
      if Created(ev) && stat.Unstatable? then Fatal("'stat' failed for resource '" + resourceAbs + "'")
      else if Created(ev) && stat.FileNode? && InCreate in ev.mask then Ok(t)
      else
        var registered := if Created(ev) && stat.DirNode? then LegacyRegister(t, root, Some(resourceRel), stat.dir) else Ok(t);
        match registered
        case Fatal(m) => Fatal(m)
        case Ok(t1) =>
          LegacyOrderedAfterRegister(t, root, Some(resourceRel), if stat.DirNode? then stat.dir else Dir([]));
          if DirectoryGone(ev) then
            if resourceAbs !in t1.byPath then Fatal("No metadata stored for '" + directoryAbs + "'")
            else LegacyRemove(t1, root, t1.byPath[resourceAbs].wd)
          else Ok(t1)
  }

  /** The earlier registration keeps the handle table ordered. */
  lemma LegacyOrderedAfterRegister(t: Tables, root: string, rel: Option<string>, dir: Dir)
    requires Ordered(t) && HandleListsEmpty(t)
    ensures LegacyRegister(t, root, rel, dir).Ok? ==>
      var u := LegacyRegister(t, root, rel, dir).value;
      Ordered(u) && HandleListsEmpty(u)
  {
    LegacyRegisterHandleListsEmpty(t, root, rel, dir);
    LegacyRegisterCounter(t, root, rel, dir);
  }

  lemma {:induction false} LegacyRegisterCounter(t: Tables, root: string, rel: Option<string>, dir: Dir)
    requires FreshCounter(t)
    ensures LegacyRegister(t, root, rel, dir).Ok? ==> FreshCounter(LegacyRegister(t, root, rel, dir).value)
    decreases Size(dir), 1, 0
  {
    var abs := Join(root, rel);
    var wd := t.nextWd;
    var rec := WatchRecord(wd, abs, rel, []);
    var t0 := Tables(t.byHandle[wd := rec], t.byPath[abs := rec], wd + 1);
    if SubdirsOf(rel, dir.entries).Ok? {
      var subs := SubdirsOf(rel, dir.entries).value;
      SubdirsSmaller(rel, dir);
      LegacyRegisterAllCounter(t0, root, subs, Size(dir));
    }
  }

  lemma {:induction false} LegacyRegisterAllCounter(t: Tables, root: string, subs: seq<Subdir>, bound: nat)
    requires FreshCounter(t)
    requires forall i :: 0 <= i < |subs| ==> Size(subs[i].dir) < bound
    ensures LegacyRegisterAll(t, root, subs, bound).Ok? ==> FreshCounter(LegacyRegisterAll(t, root, subs, bound).value)
    decreases bound, 0, |subs|
  {
    if subs != [] {
      LegacyRegisterCounter(t, root, Some(subs[0].relPath), subs[0].dir);
      if LegacyRegister(t, root, Some(subs[0].relPath), subs[0].dir).Ok? {
        var t1 := LegacyRegister(t, root, Some(subs[0].relPath), subs[0].dir).value;
        LegacyRegisterAllCounter(t1, root, subs[1..], bound);
      }
    }
  }

  /** Unknown handles, failed `stat`s and untracked deletions end the
      process, where the current engine ignores them. */
  lemma LegacyAnomaliesFatal(t: Tables, root: string, ev: Event, stat: Node)
    requires Ordered(t) && HandleListsEmpty(t) && InIgnored !in ev.mask
    ensures ev.wd !in t.byHandle ==> LegacyHandle(t, root, ev, stat).Fatal?
    ensures ev.wd in t.byHandle && Created(ev) && stat.Unstatable? ==> LegacyHandle(t, root, ev, stat).Fatal?
    ensures (ev.wd in t.byHandle && !Created(ev) && DirectoryGone(ev)
             && Join(root, t.byHandle[ev.wd].relPath) + "/" + ev.name !in t.byPath)
            ==> LegacyHandle(t, root, ev, stat).Fatal?
  {
  }

  // ------------------------------------------------------------ the finding

  /** The workspace "/w" holding directory "a", which holds directory "b". */
  function SampleTree(): Dir {
    Dir([Entry("a", DirNode(Dir([Entry("b", DirNode(Dir([])))])))])
  }

  function SampleRoot(): WatchRecord { WatchRecord(1, "/w", None, []) }
  function SampleA(): WatchRecord { WatchRecord(2, "/w/a", Some("a"), []) }
  function SampleB(): WatchRecord { WatchRecord(3, "/w/a/b", Some("a/b"), []) }
  function SampleInner(): Dir { Dir([Entry("b", DirNode(Dir([])))]) }

  /** The tables the earlier engine builds for the sample: handle 1 for
      "/w", 2 for "/w/a", 3 for "/w/a/b". Only the path table records the
      children. */
  function SampleTables(): Tables {
    Tables(
      map[1 := SampleRoot(), 2 := SampleA(), 3 := SampleB()],
      map["/w" := SampleRoot().(subdirs := [2]), "/w/a" := SampleA().(subdirs := [3]), "/w/a/b" := SampleB()],
      4)
  }

  lemma SampleLeaf()
    ensures LegacyRegister(Tables(map[1 := SampleRoot(), 2 := SampleA()], map["/w" := SampleRoot(), "/w/a" := SampleA()], 3), "/w", Some("a/b"), Dir([]))
      == Ok(Tables(map[1 := SampleRoot(), 2 := SampleA(), 3 := SampleB()],
                   map["/w" := SampleRoot(), "/w/a" := SampleA().(subdirs := [3]), "/w/a/b" := SampleB()], 4))
  {
    assert SubdirsOf(Some("a/b"), []) == Ok([]);
    assert Join("/w", Some("a/b")) == "/w/a/b";
    ParentOfJoin("/w/a", "b");
    assert "/w/a" + "/" + "b" == "/w/a/b";
    var t := Tables(map[1 := SampleRoot(), 2 := SampleA()], map["/w" := SampleRoot(), "/w/a" := SampleA()], 3);
    var t0 := Tables(t.byHandle[3 := SampleB()], t.byPath["/w/a/b" := SampleB()], 4);
    assert LegacyRegisterAll(t0, "/w", [], Size(Dir([]))) == Ok(t0);
    assert Append(SampleA(), 3) == SampleA().(subdirs := [3]);
    assert "/w/a/b" != "/w/a" && "/w/a/b" != "/w";
    assert LegacyLink(t0, "/w", "/w/a/b", 3) == Ok(t0.(byPath := t0.byPath["/w/a" := SampleA().(subdirs := [3])]));
    assert t0.byPath["/w/a" := SampleA().(subdirs := [3])]
      == map["/w" := SampleRoot(), "/w/a" := SampleA().(subdirs := [3]), "/w/a/b" := SampleB()];
  }

  /** The tables once "/w/a" is recorded and before its listing is read. */
  function SampleWithA(): Tables {
    Tables(map[1 := SampleRoot(), 2 := SampleA()], map["/w" := SampleRoot(), "/w/a" := SampleA()], 3)
  }

  /** The tables once "/w/a/b" is registered and linked below "/w/a". */
  function SampleWithB(): Tables {
    Tables(map[1 := SampleRoot(), 2 := SampleA(), 3 := SampleB()],
           map["/w" := SampleRoot(), "/w/a" := SampleA().(subdirs := [3]), "/w/a/b" := SampleB()], 4)
  }

  lemma SampleInnerListing()
    ensures SubdirsOf(Some("a"), SampleInner().entries) == Ok([Subdir("b", "a/b", Dir([]))])
  {
    var es := SampleInner().entries;
    assert es[1..] == [];
    assert SubdirsOf(Some("a"), es[1..]) == Ok([]);
    assert !Hidden(es[0].name);
    assert SubdirPath(Some("a"), "b") == "a/b";
    assert [Subdir("b", "a/b", Dir([]))] + [] == [Subdir("b", "a/b", Dir([]))];
  }

  lemma SampleInnerRegistered()
    ensures LegacyRegisterAll(SampleWithA(), "/w", [Subdir("b", "a/b", Dir([]))], Size(SampleInner())) == Ok(SampleWithB())
  {
    SampleLeaf();
    assert [Subdir("b", "a/b", Dir([]))][1..] == [];
  }

  lemma SampleALinked()
    ensures LegacyLink(SampleWithB(), "/w", "/w/a", 2) == Ok(SampleTables())
  {
    var leaf := SampleWithB();
    SampleParents();
    assert Append(SampleRoot(), 2) == SampleRoot().(subdirs := [2]);
    assert LegacyLink(leaf, "/w", "/w/a", 2) == Ok(leaf.(byPath := leaf.byPath["/w" := SampleRoot().(subdirs := [2])]));
    assert leaf.byPath["/w" := SampleRoot().(subdirs := [2])] == SampleTables().byPath;
  }

  lemma SampleMiddle()
    ensures LegacyRegister(Tables(map[1 := SampleRoot()], map["/w" := SampleRoot()], 2), "/w", Some("a"), SampleInner())
      == Ok(SampleTables())
  {
    SampleInnerListing();
    SampleInnerRegistered();
    SampleALinked();
    assert Join("/w", Some("a")) == "/w/a";
    var t := Tables(map[1 := SampleRoot()], map["/w" := SampleRoot()], 2);
    assert Tables(t.byHandle[2 := SampleA()], t.byPath["/w/a" := SampleA()], 3) == SampleWithA();
  }

  lemma LegacySample()
    ensures LegacyRegister(NO_WATCHES, "/w", None, SampleTree()) == Ok(SampleTables())
  {
    SampleMiddle();
    var es := SampleTree().entries;
    assert es[1..] == [];
    assert SubdirsOf(None, es[1..]) == Ok([]);
    assert !Hidden(es[0].name);
    var x := Subdir("a", "a", SampleInner());
    assert [x] + [] == [x];
    assert SubdirsOf(None, es) == Ok([x]);
    var t0 := Tables(map[1 := SampleRoot()], map["/w" := SampleRoot()], 2);
    assert t0 == Tables(NO_WATCHES.byHandle[1 := SampleRoot()], NO_WATCHES.byPath["/w" := SampleRoot()], 2);
    assert [x][1..] == [];
    assert LegacyRegisterAll(t0, "/w", [x], Size(SampleTree())) == Ok(SampleTables());
  }

  lemma SampleOrdered()
    ensures Ordered(SampleTables()) && HandleListsEmpty(SampleTables())
  {
  }

  /** The tables once handle 2 is spliced out of the path table's copy of
      "/w". */
  function SampleUnlinked(): Tables {
    SampleTables().(byPath := SampleTables().byPath["/w" := Strip(SampleTables().byPath["/w"], 2)])
  }

  lemma SampleUnlinkA()
    ensures LegacyUnlink(SampleTables(), "/w", 2) == Ok(SampleUnlinked())
  {
    ParentOfJoin("/w", "a");
    assert "/w" + "/" + "a" == "/w/a";
  }

  /** The discrepancy: deleting "a" in the earlier engine removes the
      record of "/w/a" and leaves the record of "/w/a/b" in both tables,
      although its directory is gone. */
  lemma LegacyRemoveLeavesDescendant()
    ensures Ordered(SampleTables())
    ensures LegacyRemove(SampleTables(), "/w", 2).Ok?
    ensures var r := LegacyRemove(SampleTables(), "/w", 2).value;
      && 3 in r.byHandle && "/w/a/b" in r.byPath
      && StrictlyUnder("/w/a", r.byHandle[3].absPath)
  {
    var t := SampleTables();
    SampleOrdered();
    SampleUnlinkA();
    var t1 := SampleUnlinked();
    assert t1.byHandle[2].subdirs == [];
    assert LegacyRemoveAll(t1, "/w", [], Rank(t, 2)) == Ok(t1);
    assert LegacyRemove(t, "/w", 2) == Ok(t1.(byPath := t1.byPath - {"/w/a"}, byHandle := t1.byHandle - {2}));
    assert "/w/a/" <= "/w/a/b";
  }


  /** The tables the current engine builds for the sample: the same
      records, with each child listed in both copies of its parent. */
  function ConsistentSample(): Tables {
    Tables(
      map[1 := SampleRoot().(subdirs := [2]), 2 := SampleA().(subdirs := [3]), 3 := SampleB()],
      map["/w" := SampleRoot().(subdirs := [2]), "/w/a" := SampleA().(subdirs := [3]), "/w/a/b" := SampleB()],
      4)
  }

  /** The tables of the current engine once "/w/a/b" is registered and
      linked in both copies of "/w/a". */
  function ConsistentWithB(): Tables {
    Tables(map[1 := SampleRoot(), 2 := SampleA().(subdirs := [3]), 3 := SampleB()],
           map["/w" := SampleRoot(), "/w/a" := SampleA().(subdirs := [3]), "/w/a/b" := SampleB()], 4)
  }

  lemma SampleJoins()
    ensures Join("/w", Some("a")) == "/w/a" && Join("/w", Some("a/b")) == "/w/a/b"
  {
  }

  /** All three records present, before "/w/a/b" is linked. */
  function SampleAllInserted(): Tables {
    Tables(map[1 := SampleRoot(), 2 := SampleA(), 3 := SampleB()],
           map["/w" := SampleRoot(), "/w/a" := SampleA(), "/w/a/b" := SampleB()], 4)
  }

  lemma ConsistentLeafLinked()
    ensures LinkToParent(SampleAllInserted(), "/w", "/w/a/b", 3) == Ok(ConsistentWithB())
  {
    SampleParents();
    var t0 := SampleAllInserted();
    assert Append(SampleA(), 3) == SampleA().(subdirs := [3]);
    assert t0.byPath["/w/a"].wd == 2;
    var u := t0.(byPath := t0.byPath["/w/a" := SampleA().(subdirs := [3])],
                 byHandle := t0.byHandle[2 := SampleA().(subdirs := [3])]);
    assert LinkToParent(t0, "/w", "/w/a/b", 3) == Ok(u);
    assert u.byPath == ConsistentWithB().byPath;
    assert u.byHandle == ConsistentWithB().byHandle;
  }

  lemma ConsistentLeaf()
    ensures Register(SampleWithA(), "/w", Some("a/b"), Dir([])) == Ok(ConsistentWithB())
  {
    assert SubdirsOf(Some("a/b"), []) == Ok([]);
    SampleJoins();
    var t0 := Inserted(SampleWithA(), "/w/a/b", Some("a/b"));
    assert t0 == SampleAllInserted();
    assert RegisterAll(t0, "/w", [], Size(Dir([]))) == Ok(t0);
    ConsistentLeafLinked();
  }

  lemma ConsistentInnerRegistered()
    ensures RegisterAll(SampleWithA(), "/w", [Subdir("b", "a/b", Dir([]))], Size(SampleInner())) == Ok(ConsistentWithB())
  {
    ConsistentLeaf();
    assert [Subdir("b", "a/b", Dir([]))][1..] == [];
  }

  lemma ConsistentALinked()
    ensures LinkToParent(ConsistentWithB(), "/w", "/w/a", 2) == Ok(ConsistentSample())
  {
    SampleParents();
    var t := ConsistentWithB();
    assert Append(SampleRoot(), 2) == SampleRoot().(subdirs := [2]);
    assert t.byPath["/w"].wd == 1;
    var u := t.(byPath := t.byPath["/w" := SampleRoot().(subdirs := [2])],
                byHandle := t.byHandle[1 := SampleRoot().(subdirs := [2])]);
    assert LinkToParent(t, "/w", "/w/a", 2) == Ok(u);
    assert u.byPath == ConsistentSample().byPath;
    assert u.byHandle == ConsistentSample().byHandle;
  }

  lemma ConsistentMiddle()
    ensures Register(Tables(map[1 := SampleRoot()], map["/w" := SampleRoot()], 2), "/w", Some("a"), SampleInner())
      == Ok(ConsistentSample())
  {
    SampleInnerListing();
    ConsistentInnerRegistered();
    ConsistentALinked();
    SampleJoins();
    var t := Tables(map[1 := SampleRoot()], map["/w" := SampleRoot()], 2);
    assert Inserted(t, "/w/a", Some("a")) == SampleWithA();
  }

  /** The current engine's registration of the sample workspace computes
      exactly `ConsistentSample`: each child in both copies of its parent. */
  lemma ConsistentSampleRegistered()
    ensures Register(NO_WATCHES, "/w", None, SampleTree()) == Ok(ConsistentSample())
  {
    ConsistentMiddle();
    var es := SampleTree().entries;
    assert es[1..] == [];
    assert SubdirsOf(None, es[1..]) == Ok([]);
    assert !Hidden(es[0].name);
    var x := Subdir("a", "a", SampleInner());
    assert [x] + [] == [x];
    assert SubdirsOf(None, es) == Ok([x]);
    var t0 := Tables(map[1 := SampleRoot()], map["/w" := SampleRoot()], 2);
    assert Inserted(NO_WATCHES, "/w", None) == t0;
    assert [x][1..] == [];
    assert RegisterAll(t0, "/w", [x], Size(SampleTree())) == Ok(ConsistentSample());
  }

  lemma SampleParents()
    ensures ParentPath(Some("/w/a")) == Ok(Some("/w"))
    ensures ParentPath(Some("/w/a/b")) == Ok(Some("/w/a"))
  {
    ParentOfJoin("/w", "a");
    ParentOfJoin("/w/a", "b");
    assert "/w" + "/" + "a" == "/w/a" && "/w/a" + "/" + "b" == "/w/a/b";
  }

  /** The sample is a walkable directory. */
  lemma SampleWalkable()
    ensures Walkable(SampleTree())
  {
    assert Walkable(Dir([]));
    assert Walkable(SampleInner());
  }

  /** What the current engine registers for the sample forms a tree. */
  lemma ConsistentSampleIsTree()
    ensures Tree(ConsistentSample(), "/w", {})
  {
    SampleWalkable();
    ConsistentSampleRegistered();
    RegisterKeepsTree(NO_WATCHES, "/w", None, SampleTree(), {});
  }

  lemma ErasedSampleKeys()
    ensures 2 in ConsistentSample().byHandle
    ensures Erase(ConsistentSample(), 2).byHandle.Keys == {1}
    ensures Erase(ConsistentSample(), 2).byPath.Keys == {"/w"}
  {
    var e := Erase(ConsistentSample(), 2);
    assert "/w/a/" <= "/w/a/b";
    assert !("/w/a/" <= "/w");
    assert 1 in e.byHandle && "/w" in e.byPath;
  }

  /** The corrected removal on the same directories erases "/w/a/b" along
      with "/w/a" and keeps only the root. */
  lemma RemoveSampleErasesDescendant()
    ensures Sound(ConsistentSample())
    ensures Remove(ConsistentSample(), "/w", 2).Ok?
    ensures var r := Remove(ConsistentSample(), "/w", 2).value;
      && r.byHandle.Keys == {1} && r.byPath.Keys == {"/w"}
  {
    ConsistentSampleIsTree();
    RemoveSubtree(ConsistentSample(), "/w", 2);
    ErasedSampleKeys();
  }
}
