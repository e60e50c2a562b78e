/** What `handle_inotify_event` of src/server/linux/workspace.c does with
    each kind of event, and the rsync commands `sync_remote_systems` runs. */
module EngineEvents {
  import opened Wrappers
  import opened Paths
  import opened WatchTables
  import opened EngineSpec
  import opened EngineRemoval
  import opened EngineTree

  /** The absolute path of the event's child. */
  function ResourcePath(t: Tables, root: string, ev: Event): string
    requires ev.wd in t.byHandle
  {
    Join(root, t.byHandle[ev.wd].relPath) + "/" + ev.name
  }

  /** The events the engine reacts to with neither a change of the tables
      nor a sync. */
  predicate Ignored(t: Tables, root: string, ev: Event, stat: Node) {
    || InIgnored in ev.mask
    || ev.wd !in t.byHandle
    || InDeleteSelf in ev.mask || InMoveSelf in ev.mask
    || (Created(ev) && stat.Unstatable?)
    || (InCreate in ev.mask && stat.FileNode?)
    || (!Created(ev) && DirectoryGone(ev) && ResourcePath(t, root, ev) !in t.byPath)
  }

  /** Stale handles, self events, vanished children, created files (whose
      contents arrive with the close-write event) and the loss of an
      untracked directory leave everything as it was. */
  lemma HandleIgnores(t: Tables, root: string, ev: Event, stat: Node)
    requires Sound(t) && Ignored(t, root, ev, stat)
    ensures Handle(t, root, ev, stat) == Ok(Reaction(t, NoSync))
  {
  }

  /** A sync is always for the directory whose watch reported the event. */
  lemma HandleSyncsWatchedDirectory(t: Tables, root: string, ev: Event, stat: Node)
    requires Sound(t)
    ensures Handle(t, root, ev, stat).Ok? && Handle(t, root, ev, stat).value.sync.SyncDir? ==>
      && InIgnored !in ev.mask && ev.wd in t.byHandle
      && Handle(t, root, ev, stat).value.sync.rel == t.byHandle[ev.wd].relPath
  {
  }

  /** A change to a file (written and closed, deleted, moved in or out) in
      a watched directory syncs that directory and changes no table. */
  lemma HandleFileChange(t: Tables, root: string, ev: Event, stat: Node)
    requires Sound(t) && !Ignored(t, root, ev, stat)
    requires !DirectoryGone(ev) && (Created(ev) ==> stat.FileNode?)
    ensures Handle(t, root, ev, stat) == Ok(Reaction(t, SyncDir(t.byHandle[ev.wd].relPath)))
  {
  }

  /** A directory created or moved into a watched directory is registered
      with everything below it under a fresh handle, and the parent is
      synced. */
  lemma HandleDirectoryCreated(t: Tables, root: string, ev: Event, stat: Node)
    requires Sound(t) && !Ignored(t, root, ev, stat)
    requires Created(ev) && stat.DirNode? && !DirectoryGone(ev)
    ensures var rel := SubdirPath(t.byHandle[ev.wd].relPath, ev.name);
      && (Handle(t, root, ev, stat).Ok? <==> Register(t, root, Some(rel), stat.dir).Ok?)
      && (Handle(t, root, ev, stat).Ok? ==>
            var u := Handle(t, root, ev, stat).value.tables;
            && u == Register(t, root, Some(rel), stat.dir).value
            && Handle(t, root, ev, stat).value.sync == SyncDir(t.byHandle[ev.wd].relPath)
            && t.nextWd in u.byHandle && u.byHandle[t.nextWd].absPath == ResourcePath(t, root, ev)
            && Grows(t, u))
  {
    var rel := SubdirPath(t.byHandle[ev.wd].relPath, ev.name);
    RegisterKeepsSound(t, root, Some(rel), stat.dir);
    ResourcePathJoins(t, root, ev);
  }

  lemma ResourcePathJoins(t: Tables, root: string, ev: Event)
    requires ev.wd in t.byHandle
    ensures Join(root, Some(SubdirPath(t.byHandle[ev.wd].relPath, ev.name))) == ResourcePath(t, root, ev)
  {
    var r := t.byHandle[ev.wd].relPath;
    if r.Some? {
      assert root + "/" + (r.value + "/" + ev.name) == (root + "/" + r.value) + "/" + ev.name;
    }
  }

  /** The deletion or moving away of a tracked directory removes its
      watches and syncs the parent. */
  lemma HandleDirectoryGone(t: Tables, root: string, ev: Event, stat: Node)
    requires Sound(t) && !Ignored(t, root, ev, stat)
    requires !Created(ev) && DirectoryGone(ev)
    ensures var x := t.byPath[ResourcePath(t, root, ev)].wd;
      && (Handle(t, root, ev, stat).Ok? <==> Remove(t, root, x).Ok?)
      && (Handle(t, root, ev, stat).Ok? ==>
            && Handle(t, root, ev, stat).value.tables == Remove(t, root, x).value
            && Handle(t, root, ev, stat).value.sync == SyncDir(t.byHandle[ev.wd].relPath))
  {
  }

  /** On tables that describe a tree, the deletion of a tracked directory
      succeeds and erases every watch at or below it, and nothing else. */
  lemma HandleDirectoryGoneInTree(t: Tables, root: string, ev: Event, stat: Node)
    requires Tree(t, root, {}) && !Ignored(t, root, ev, stat)
    requires !Created(ev) && DirectoryGone(ev)
    ensures Sound(t)
    ensures Handle(t, root, ev, stat).Ok?
    ensures var p := ResourcePath(t, root, ev);
      var u := Handle(t, root, ev, stat).value.tables;
      && u == Erase(t, t.byPath[p].wd)
      && (forall q :: q in u.byPath ==> !Under(p, q))
      && (forall v :: v in t.byHandle && !Under(p, t.byHandle[v].absPath) ==> v in u.byHandle)
      && Tree(u, root, {})
  {
    TreeIsSound(t, root, {});
    var p := ResourcePath(t, root, ev);
    var x := t.byPath[p].wd;
    HandleDirectoryGone(t, root, ev, stat);
    RemoveSubtree(t, root, x);
  }

  /** An event that both creates and reports a directory gone keeps the
      tables sound: the registration does, and so does the removal. */
  lemma HandleBothKeepsSound(t: Tables, root: string, ev: Event, stat: Node)
    requires Sound(t) && !Ignored(t, root, ev, stat) && Created(ev) && DirectoryGone(ev)
    ensures Handle(t, root, ev, stat).Ok? ==> Sound(Handle(t, root, ev, stat).value.tables)
  {
    var rel := SubdirPath(t.byHandle[ev.wd].relPath, ev.name);
    RegisterKeepsSound(t, root, Some(rel), if stat.DirNode? then stat.dir else Dir([]));
  }

  /** Every reaction keeps the tables sound. */
  lemma HandleKeepsSound(t: Tables, root: string, ev: Event, stat: Node)
    requires Sound(t)
    ensures Handle(t, root, ev, stat).Ok? ==> Sound(Handle(t, root, ev, stat).value.tables)
  {
    if Ignored(t, root, ev, stat) {
      HandleIgnores(t, root, ev, stat);
    } else if !DirectoryGone(ev) && (Created(ev) ==> stat.FileNode?) {
      HandleFileChange(t, root, ev, stat);
    } else if !DirectoryGone(ev) {
      HandleDirectoryCreated(t, root, ev, stat);
      RegisterKeepsSound(t, root, Some(SubdirPath(t.byHandle[ev.wd].relPath, ev.name)), stat.dir);
    } else if !Created(ev) {
      HandleDirectoryGone(t, root, ev, stat);
    } else {
      HandleBothKeepsSound(t, root, ev, stat);
    }
  }

  /** What a directory created or moved into a watched directory must be
      for its registration to keep the tree: a listing the file system can
      give, a path not watched yet, and a watched parent. */
  predicate CreationReady(t: Tables, root: string, ev: Event, stat: Node) {
    && InIgnored !in ev.mask && ev.wd in t.byHandle
    && InDeleteSelf !in ev.mask && InMoveSelf !in ev.mask
    && Created(ev) && stat.DirNode?
    ==> Registrable(t, root, Some(SubdirPath(t.byHandle[ev.wd].relPath, ev.name)), stat.dir)
  }

  /** An event that both creates a directory and reports a directory gone
      (a mask inotify does not produce, but `handle_inotify_event` accepts):
      the new directory is registered and then removed again, from a tree. */
  lemma HandleCreatedThenGone(t: Tables, root: string, ev: Event, stat: Node)
    requires Tree(t, root, {}) && !Ignored(t, root, ev, stat) && CreationReady(t, root, ev, stat)
    requires Created(ev) && stat.DirNode? && DirectoryGone(ev)
    ensures Sound(t)
    ensures Handle(t, root, ev, stat).Ok? && Tree(Handle(t, root, ev, stat).value.tables, root, {})
  {
    TreeIsSound(t, root, {});
    var rel := SubdirPath(t.byHandle[ev.wd].relPath, ev.name);
    RegisterKeepsTree(t, root, Some(rel), stat.dir, {});
    var t1 := Register(t, root, Some(rel), stat.dir).value;
    ResourcePathJoins(t, root, ev);
    RemoveSubtree(t1, root, t1.byPath[ResourcePath(t, root, ev)].wd);
  }

  /** A file moved into a watched directory by an event that also reports a
      directory gone: the tables are those of the removal alone. */
  lemma HandleFileThenGone(t: Tables, root: string, ev: Event, stat: Node)
    requires Tree(t, root, {}) && !Ignored(t, root, ev, stat)
    requires Created(ev) && stat.FileNode? && DirectoryGone(ev)
    ensures Sound(t)
    ensures Handle(t, root, ev, stat).Ok? && Tree(Handle(t, root, ev, stat).value.tables, root, {})
  {
    TreeIsSound(t, root, {});
    var p := ResourcePath(t, root, ev);
    if p in t.byPath {
      RemoveSubtree(t, root, t.byPath[p].wd);
    }
  }

  /** On tables that describe a tree, every event is handled without a
      fatal error and the tables still describe a tree: a created directory
      is registered into it, a deleted one is erased from it, and every other
      event leaves the tables alone. */
  lemma HandleKeepsTree(t: Tables, root: string, ev: Event, stat: Node)
    requires Tree(t, root, {}) && CreationReady(t, root, ev, stat)
    ensures Sound(t)
    ensures Handle(t, root, ev, stat).Ok? && Tree(Handle(t, root, ev, stat).value.tables, root, {})
  {
    TreeIsSound(t, root, {});
    if Ignored(t, root, ev, stat) {
      HandleIgnores(t, root, ev, stat);
    } else if !DirectoryGone(ev) && (Created(ev) ==> stat.FileNode?) {
      HandleFileChange(t, root, ev, stat);
    } else if !DirectoryGone(ev) {
      HandleDirectoryCreated(t, root, ev, stat);
      RegisterKeepsTree(t, root, Some(SubdirPath(t.byHandle[ev.wd].relPath, ev.name)), stat.dir, {});
    } else if !Created(ev) {
      HandleDirectoryGoneInTree(t, root, ev, stat);
    } else if stat.DirNode? {
      HandleCreatedThenGone(t, root, ev, stat);
    } else {
      HandleFileThenGone(t, root, ev, stat);
    }
  }

  // ------------------------------------------------------------------ rsync

  /** One command per remote system, in the order of the list. */
  lemma {:induction false} SyncCommandsPerRemote(root: string, remotes: seq<RemoteSystem>, rel: Option<string>)
    ensures |SyncCommands(root, remotes, rel)| == |remotes|
    ensures forall i :: 0 <= i < |remotes| ==> SyncCommands(root, remotes, rel)[i] == RsyncCommand(root, remotes[i], rel)
  {
    if remotes != [] {
      SyncCommandsPerRemote(root, remotes[1..], rel);
    }
  }

  /** The rsync command copies the directory's contents (the trailing '/')
      into the same directory below the remote workspace root, deleting
      what the local side no longer has. */
  lemma RsyncMirrorsDirectory(root: string, remote: RemoteSystem, rel: Option<string>)
    ensures var cmd := RsyncCommand(root, remote, rel);
      && |cmd| == 5 && cmd[0] == "rsync" && "--delete" in cmd
      && (rel.None? ==> cmd[3] == root + "/" && cmd[4] == remote.host + ":" + remote.remoteRoot)
      && (rel.Some? ==> cmd[3] == root + "/" + rel.value + "/"
                        && cmd[4] == remote.host + ":" + remote.remoteRoot + "/" + rel.value)
  {
    var cmd := RsyncCommand(root, remote, rel);
    assert cmd[2] == "--delete";
  }
}
