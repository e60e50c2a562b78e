/** The current watch-tree engine of src/server/linux/workspace.c as the
    process state it mutates: the two uthash tables (`absolute_path_to_metadata`
    and `watch_descriptor_to_metadata`), the handle the next
    `inotify_add_watch` returns, the workspace information, and the rsync
    command lines launched so far. Each method is proved to leave exactly the
    state the corresponding function of `EngineSpec` computes. */
module Engine {
  import opened Wrappers
  import opened Paths
  import opened WatchTables
  import opened EngineSpec
  import opened EngineTree
  import EngineEvents

  /** The `LL_FOREACH_SAFE` loop of `remove_watches` that deletes the first
      entry equal to `x` from a child list and breaks. */
  method SpliceOut(s: seq<int>, x: int) returns (r: seq<int>)
    ensures r == RemoveFirst(s, x)
  {
    var i := 0;
    while i < |s| && s[i] != x
      invariant 0 <= i <= |s|
      invariant forall k :: 0 <= k < i ==> s[k] != x
    {
      i := i + 1;
    }
    RemoveFirstAt(s, x, i);
    if i < |s| {
      r := s[..i] + s[i + 1..];
    } else {
      r := s;
    }
  }

  /** One step of the registration loop: the listing from position `i` on
      is the registration of entry `i`, then of the rest. */
  /** One unfolding of `Register` once the listing is known. */
  lemma RegisterUnfold(t: Tables, root: string, rel: Option<string>, dir: Dir, subs: seq<Subdir>)
    requires SubdirsOf(rel, dir.entries) == Ok(subs)
    requires forall k :: 0 <= k < |subs| ==> Size(subs[k].dir) < Size(dir)
    ensures Register(t, root, rel, dir) ==
      match RegisterAll(Inserted(t, Join(root, rel), rel), root, subs, Size(dir))
      case Fatal(m) => Fatal(m)
      case Ok(t1) => LinkToParent(t1, root, Join(root, rel), t.nextWd)
  {
  }

  lemma RegisterAllStep(t: Tables, root: string, subs: seq<Subdir>, i: nat, bound: nat)
    requires i < |subs| && forall k :: 0 <= k < |subs| ==> Size(subs[k].dir) < bound
    ensures RegisterAll(t, root, subs[i..], bound) ==
      match Register(t, root, Some(subs[i].relPath), subs[i].dir)
      case Fatal(m) => Fatal(m)
      case Ok(t1) => RegisterAll(t1, root, subs[i + 1..], bound)
  {
    assert subs[i..][1..] == subs[i + 1..];
  }

  class WatchEngine {
    /** `ws_info->absolute_ws_root_path`. */
    const root: string
    /** `ws_info->remote_systems`. */
    const remotes: seq<RemoteSystem>
    /** `watch_descriptor_to_metadata`. */
    var byHandle: map<int, WatchRecord>
    /** `absolute_path_to_metadata`. */
    var byPath: map<string, WatchRecord>
    /** The handle the next `inotify_add_watch` returns. */
    var nextWd: int
    /** The argument vectors of the rsync processes forked so far. */
    var launched: seq<seq<string>>

    function State(): Tables
      reads this
    {
      Tables(byHandle, byPath, nextWd)
    }

    constructor (root: string, remotes: seq<RemoteSystem>)
      ensures this.root == root && this.remotes == remotes
      ensures State() == NO_WATCHES && launched == []
    {
      this.root := root;
      this.remotes := remotes;
      byHandle := map[];
      byPath := map[];
      nextWd := 1;
      launched := [];
    }

    /** `register_watches(root, rel)` for the directory whose contents are
        `dir`: the handle it returns, or the fatal error that ends the
        process. */
    method RegisterWatches(rel: Option<string>, dir: Dir) returns (r: Result<int>)
      modifies this
      ensures r.Ok? <==> Register(old(State()), root, rel, dir).Ok?
      ensures r.Ok? ==> State() == Register(old(State()), root, rel, dir).value && r.value == old(nextWd)
      ensures r.Fatal? ==> r.reason == Register(old(State()), root, rel, dir).reason
      ensures old(Tree(State(), root, {}) && Registrable(State(), root, rel, dir)) ==> r.Ok? && Tree(State(), root, {})
      ensures launched == old(launched)
      decreases Size(dir), 1
    {
      ghost var t := State();
      if Tree(t, root, {}) && Registrable(t, root, rel, dir) {
        RegisterKeepsTree(t, root, rel, dir, {});
      }
      var abs := Join(root, rel);
      var wd := nextWd;
      var rec := WatchRecord(wd, abs, rel, []);
      byHandle := byHandle[wd := rec];
      byPath := byPath[abs := rec];
      nextWd := wd + 1;
      assert State() == Inserted(t, abs, rel);
      var listing := SubdirectoriesOf(rel, dir);
      if listing.Fatal? {
        return Fatal(listing.reason);
      }
      SubdirsSmaller(rel, dir);
      RegisterUnfold(t, root, rel, dir, listing.value);
      var children := RegisterSubdirectories(listing.value, Size(dir));
      if children.Fatal? {
        return Fatal(children.reason);
      }
      var linked := AddToParent(abs, wd);
      if linked.Fatal? {
        return Fatal(linked.reason);
      }
      return Ok(wd);
    }

    /** The `LL_FOREACH` of `register_watches` over the listing. */
    method RegisterSubdirectories(subs: seq<Subdir>, ghost bound: nat) returns (r: Result<()>)
      requires forall i :: 0 <= i < |subs| ==> Size(subs[i].dir) < bound
      modifies this
      ensures r.Ok? <==> RegisterAll(old(State()), root, subs, bound).Ok?
      ensures r.Ok? ==> State() == RegisterAll(old(State()), root, subs, bound).value
      ensures r.Fatal? ==> r.reason == RegisterAll(old(State()), root, subs, bound).reason
      ensures launched == old(launched)
      decreases bound, 0
    {
      var i := 0;
      while i < |subs|
        invariant 0 <= i <= |subs|
        invariant RegisterAll(old(State()), root, subs, bound) == RegisterAll(State(), root, subs[i..], bound)
        invariant launched == old(launched)
      {
        RegisterAllStep(State(), root, subs, i, bound);
        var sub := RegisterWatches(Some(subs[i].relPath), subs[i].dir);
        if sub.Fatal? {
          return Fatal(sub.reason);
        }
        i := i + 1;
      }
      return Ok(());
    }

    /** The end of `register_watches`: the new handle appended to both
        copies of its parent's child list. */
    method AddToParent(abs: string, wd: int) returns (r: Result<()>)
      modifies this
      ensures r.Ok? <==> LinkToParent(old(State()), root, abs, wd).Ok?
      ensures r.Ok? ==> State() == LinkToParent(old(State()), root, abs, wd).value
      ensures r.Fatal? ==> r.reason == LinkToParent(old(State()), root, abs, wd).reason
      ensures launched == old(launched)
    {
      if |abs| > |root| {
        var parent := ParentPath(Some(abs));
        if parent.Fatal? {
          return Fatal(parent.reason);
        }
        if parent.value.Some? {
          var pp := parent.value.value;
          if pp !in byPath {
            return Fatal("Missing entry in 'absolute path -> metadata' table");
          }
          var p := byPath[pp].wd;
          if p !in byHandle {
            return Fatal("Missing entry in 'descriptor -> metadata' table");
          }
          byPath := byPath[pp := Append(byPath[pp], wd)];
          byHandle := byHandle[p := Append(byHandle[p], wd)];
        }
      }
      return Ok(());
    }

    /** `remove_watches(w)`: success, or the fatal error that ends the
        process. */
    method RemoveWatches(w: int) returns (r: Result<()>)
      requires Sound(State())
      modifies this
      ensures r.Ok? <==> Remove(old(State()), root, w).Ok?
      ensures r.Ok? ==> State() == Remove(old(State()), root, w).value
      ensures launched == old(launched)
      decreases Rank(State(), w), 1
    {
      ghost var t := State();
      if w !in byHandle {
        return Fatal("no metadata is stored for watch descriptor '" + IntText(w) + "'.");
      }
      var path := byHandle[w].absPath;
      var unlinked := RemoveFromParent(w);
      if unlinked.Fatal? {
        return Fatal(unlinked.reason);
      }
      UnlinkKeepsSound(t, root, w);
      RankShrinks(t, State(), w);
      ChildrenRankLower(State(), w, Rank(t, w));
      var children := RemoveSubdirectories(byHandle[w].subdirs, Rank(t, w));
      if children.Fatal? {
        return Fatal(children.reason);
      }
      if path !in byPath {
        return Fatal("No metadata stored for '" + path + "'");
      }
      byPath := byPath - {path};
      byHandle := byHandle - {w};
      return Ok(());
    }

    /** The start of `remove_watches`: `w` spliced out of both copies of its
        parent's child list. */
    method RemoveFromParent(w: int) returns (r: Result<()>)
      requires w in byHandle
      modifies this
      ensures r.Ok? <==> Unlink(old(State()), root, w).Ok?
      ensures r.Ok? ==> State() == Unlink(old(State()), root, w).value
      ensures r.Fatal? ==> r.reason == Unlink(old(State()), root, w).reason
      ensures launched == old(launched)
    {
      var rec := byHandle[w];
      if |rec.absPath| > |root| {
        var parent := ParentPath(Some(rec.absPath));
        if parent.Fatal? {
          return Fatal(parent.reason);
        }
        if parent.value.Some? {
          var pp := parent.value.value;
          if pp !in byPath {
            return Fatal("No absolute path -> metadata entry stored for parent '" + pp + "'.");
          }
          var p := byPath[pp].wd;
          if p !in byHandle {
            return Fatal("No watch descriptor -> metadata entry stored for parent '" + pp + "'.");
          }
          var fromPath := SpliceOut(byPath[pp].subdirs, rec.wd);
          byPath := byPath[pp := byPath[pp].(subdirs := fromPath)];
          var fromHandle := SpliceOut(byHandle[p].subdirs, rec.wd);
          byHandle := byHandle[p := byHandle[p].(subdirs := fromHandle)];
        }
      }
      return Ok(());
    }

    /** The `LL_FOREACH` of `remove_watches` over (a snapshot of) the child
        list. */
    method RemoveSubdirectories(children: seq<int>, ghost bound: nat) returns (r: Result<()>)
      requires Sound(State())
      requires forall c :: c in children ==> Rank(State(), c) < bound
      modifies this
      ensures r.Ok? <==> RemoveAll(old(State()), root, children, bound).Ok?
      ensures r.Ok? ==> State() == RemoveAll(old(State()), root, children, bound).value
      ensures launched == old(launched)
      decreases bound, 0
    {
      var i := 0;
      while i < |children|
        invariant 0 <= i <= |children|
        invariant Sound(State()) && Shrinks(old(State()), State())
        invariant forall c :: c in children[i..] ==> Rank(State(), c) < bound
        invariant RemoveAll(old(State()), root, children, bound) == RemoveAll(State(), root, children[i..], bound)
        invariant launched == old(launched)
      {
        assert children[i..][1..] == children[i + 1..];
        ghost var before := State();
        var sub := RemoveWatches(children[i]);
        if sub.Fatal? {
          return Fatal(sub.reason);
        }
        RanksStayBelow(before, State(), children[i + 1..], bound);
        i := i + 1;
      }
      return Ok(());
    }

    /** `sync_remote_systems(rel)`: one rsync process per remote, in list
        order. */
    method SyncRemoteSystems(rel: Option<string>)
      modifies this
      ensures launched == old(launched) + SyncCommands(root, remotes, rel)
      ensures State() == old(State())
    {
      var i := 0;
      while i < |remotes|
        invariant 0 <= i <= |remotes|
        invariant launched + SyncCommands(root, remotes[i..], rel) == old(launched) + SyncCommands(root, remotes, rel)
        invariant State() == old(State())
      {
        assert remotes[i..][1..] == remotes[i + 1..];
        var command := RsyncCommand(root, remotes[i], rel);
        ghost var rest := SyncCommands(root, remotes[i + 1..], rel);
        assert SyncCommands(root, remotes[i..], rel) == [command] + rest;
        assert launched + ([command] + rest) == (launched + [command]) + rest;
        launched := launched + [command];
        i := i + 1;
      }
    }

    /** `handle_inotify_event(ev)`, where `stat` is what `stat` reports for
        the event's child: the new tables and the syncs launched. */
    method HandleEvent(ev: Event, stat: Node) returns (r: Result<()>)
      requires Sound(State())
      modifies this
      ensures r.Ok? <==> Handle(old(State()), root, ev, stat).Ok?
      ensures r.Ok? ==>
        var reaction := Handle(old(State()), root, ev, stat).value;
        && State() == reaction.tables
        && launched == old(launched) + Launches(reaction.sync)
      ensures old(Tree(State(), root, {}) && EngineEvents.CreationReady(State(), root, ev, stat)) ==> r.Ok? && Tree(State(), root, {})
    {
      ghost var t := State();
      if Tree(t, root, {}) && EngineEvents.CreationReady(t, root, ev, stat) {
        EngineEvents.HandleKeepsTree(t, root, ev, stat);
      }
      if InIgnored in ev.mask || ev.wd !in byHandle {
        return Ok(());
      }
      var rec := byHandle[ev.wd];
      var resourceAbs := Join(root, rec.relPath) + "/" + ev.name;
      var resourceRel := SubdirPath(rec.relPath, ev.name);
      if InDeleteSelf in ev.mask || InMoveSelf in ev.mask {
        return Ok(());
      }
      if Created(ev) {
        if stat.Unstatable? {
          return Ok(());
        }
        if stat.DirNode? {
          var registered := RegisterWatches(Some(resourceRel), stat.dir);
          if registered.Fatal? {
            return Fatal(registered.reason);
          }
          RegisterKeepsSound(t, root, Some(resourceRel), stat.dir);
        } else if InCreate in ev.mask {
          return Ok(());
        }
      }
      if DirectoryGone(ev) {
        if resourceAbs !in byPath {
          return Ok(());
        }
        var removed := RemoveWatches(byPath[resourceAbs].wd);
        if removed.Fatal? {
          return Fatal(removed.reason);
        }
      }
      SyncRemoteSystems(rec.relPath);
      return Ok(());
    }

    /** The commands a sync request launches. */
    function Launches(sync: SyncRequest): seq<seq<string>>
    {
      match sync
      case NoSync => []
      case SyncDir(rel) => SyncCommands(root, remotes, rel)
    }
  }
}
