/** The current watch-tree engine of src/server/linux/workspace.c as functions
    on the two tables: `register_watches`, `remove_watches`,
    `create_rsync_command`, `sync_remote_systems` and `handle_inotify_event`.
    A fatal error ends the process, so a `Fatal` result carries no tables.
    The filesystem below a registered directory is a `Dir` value, and what
    `stat` reports for an event's child is a `Node`. */
module EngineSpec {
  import opened Wrappers
  import opened Paths
  import opened Decimal
  import opened WatchTables

  /** `%d` of a handle. */
  function IntText(i: int): string {
    if i < 0 then "-" + NatToDecimal(-i) else NatToDecimal(i)
  }

  // ------------------------------------------------------- register_watches

  /** `register_watches` for the directory at `rel` below `root`, whose
      contents are `dir`: a fresh handle, the record inserted into both
      tables, then every subdirectory registered in listing order, then the
      handle appended to the parent's child lists. */
  function Register(t: Tables, root: string, rel: Option<string>, dir: Dir): Result<Tables>
    decreases Size(dir), 1, 0
  {
    var abs := Join(root, rel);
    var wd := t.nextWd;
    var t0 := Inserted(t, abs, rel);
    match SubdirsOf(rel, dir.entries)
    case Fatal(m) => Fatal(m)
    case Ok(subs) =>
      SubdirsSmaller(rel, dir);
      match RegisterAll(t0, root, subs, Size(dir))
      case Fatal(m) => Fatal(m)
      case Ok(t1) => LinkToParent(t1, root, abs, wd)
  }

  /** The fresh record of a new watch, with an empty child list, under the
      next handle in both tables; the counter moves on. */
  function Inserted(t: Tables, abs: string, rel: Option<string>): Tables {
    var rec := WatchRecord(t.nextWd, abs, rel, []);
    Tables(t.byHandle[t.nextWd := rec], t.byPath[abs := rec], t.nextWd + 1)
  }

  /** The `LL_FOREACH` over the listing, one registration after the other;
      `bound` is above the size of every subtree still to come. */
  function RegisterAll(t: Tables, root: string, subs: seq<Subdir>, bound: nat): Result<Tables>
    requires forall i :: 0 <= i < |subs| ==> Size(subs[i].dir) < bound
    decreases bound, 0, |subs|
  {
    if subs == [] then Ok(t)
    else match Register(t, root, Some(subs[0].relPath), subs[0].dir)
      case Fatal(m) => Fatal(m)
      case Ok(t1) => RegisterAll(t1, root, subs[1..], bound)
  }

  /** Appending a new handle to its parent's child lists: only for a
      directory below the root, skipped when the parent is NULL; a parent
      missing from either table is fatal. */
  function LinkToParent(t: Tables, root: string, abs: string, wd: int): Result<Tables> {
    if |abs| > |root| then
      match ParentPath(Some(abs))
      case Fatal(m) => Fatal(m)
      case Ok(None) => Ok(t)
      case Ok(Some(pp)) =>
        if pp !in t.byPath then Fatal("Missing entry in 'absolute path -> metadata' table")
        else
          var p := t.byPath[pp].wd;
          if p !in t.byHandle then Fatal("Missing entry in 'descriptor -> metadata' table")
          else Ok(t.(byPath := t.byPath[pp := Append(t.byPath[pp], wd)],
                     byHandle := t.byHandle[p := Append(t.byHandle[p], wd)]))
    else Ok(t)
  }

  // --------------------------------------------------------- remove_watches

  /** The splice at the start of `remove_watches`: the handle leaves the
      child lists of both copies of its parent's record. */
  function Unlink(t: Tables, root: string, w: int): Result<Tables>
    requires w in t.byHandle
  {
    var rec := t.byHandle[w];
    if |rec.absPath| > |root| then
      match ParentPath(Some(rec.absPath))
      case Fatal(m) => Fatal(m)
      case Ok(None) => Ok(t)
      case Ok(Some(pp)) =>
        if pp !in t.byPath then Fatal("No absolute path -> metadata entry stored for parent '" + pp + "'.")
        else
          var p := t.byPath[pp].wd;
          if p !in t.byHandle then Fatal("No watch descriptor -> metadata entry stored for parent '" + pp + "'.")
          else Ok(t.(byPath := t.byPath[pp := Strip(t.byPath[pp], rec.wd)],
                     byHandle := t.byHandle[p := Strip(t.byHandle[p], rec.wd)]))
    else Ok(t)
  }

  /** Unlinking keeps the tables sound and changes no key and no path. */
  lemma UnlinkKeepsSound(t: Tables, root: string, w: int)
    requires Sound(t) && w in t.byHandle && Unlink(t, root, w).Ok?
    ensures var u := Unlink(t, root, w).value;
      Sound(u) && Shrinks(t, u) && w in u.byHandle
  {
    var rec := t.byHandle[w];
    var u := Unlink(t, root, w).value;
    if |rec.absPath| > |root| && ParentPath(Some(rec.absPath)).value.Some? {
      var pp := ParentPath(Some(rec.absPath)).value.value;
      var p := t.byPath[pp].wd;
      assert u.byHandle == t.byHandle[p := Strip(t.byHandle[p], rec.wd)];
    }
  }

  /** `remove_watches(w)`: unknown handles are fatal; otherwise the handle is
      spliced out of its parent, every child in a snapshot of its list is
      removed recursively, and the record leaves both tables (a record
      missing from the path table is fatal). The snapshot stands in for the
      source's walk of a list whose entries the recursive calls free. */
  function Remove(t: Tables, root: string, w: int): (r: Result<Tables>)
    requires Sound(t)
    ensures r.Ok? ==> Sound(r.value) && Shrinks(t, r.value)
    decreases Rank(t, w), 1, 0
  {
    if w !in t.byHandle then Fatal("no metadata is stored for watch descriptor '" + IntText(w) + "'.")
    else match Unlink(t, root, w)
      case Fatal(m) => Fatal(m)
      case Ok(t1) =>
        UnlinkKeepsSound(t, root, w);
        RankShrinks(t, t1, w);
        var children := t1.byHandle[w].subdirs;
        ChildrenRankLower(t1, w, Rank(t, w));
        match RemoveAll(t1, root, children, Rank(t, w))
        case Fatal(m) => Fatal(m)
        case Ok(t2) =>
          var path := t.byHandle[w].absPath;
          if path !in t2.byPath then Fatal("No metadata stored for '" + path + "'")
          else
            var t3 := t2.(byPath := t2.byPath - {path}, byHandle := t2.byHandle - {w});
            DeleteKeepsSound(t2, w, path);
            Ok(t3)
  }

  lemma ChildrenRankLower(t: Tables, w: int, bound: nat)
    requires Deeper(t) && w in t.byHandle && Rank(t, w) <= bound
    ensures forall c :: c in t.byHandle[w].subdirs ==> Rank(t, c) < bound
  {
    forall c | c in t.byHandle[w].subdirs ensures Rank(t, c) < bound {
      ChildRanksLower(t, w, c);
    }
  }

  /** Deleting a handle's record and the path entry of its path keeps the
      tables sound. */
  lemma DeleteKeepsSound(t: Tables, w: int, path: string)
    requires Sound(t) && path in t.byPath
    requires w in t.byHandle ==> t.byHandle[w].absPath == path
    ensures Sound(t.(byPath := t.byPath - {path}, byHandle := t.byHandle - {w}))
    ensures Shrinks(t, t.(byPath := t.byPath - {path}, byHandle := t.byHandle - {w}))
  {
  }

  lemma RanksStayBelow(t: Tables, u: Tables, children: seq<int>, bound: nat)
    requires Shrinks(t, u) && forall c :: c in children ==> Rank(t, c) < bound
    ensures forall c :: c in children ==> Rank(u, c) < bound
  {
    forall c | c in children ensures Rank(u, c) < bound {
      RankShrinks(t, u, c);
    }
  }

  /** The removals of the children in list order. */
  function RemoveAll(t: Tables, root: string, children: seq<int>, bound: nat): (r: Result<Tables>)
    requires Sound(t)
    requires forall c :: c in children ==> Rank(t, c) < bound
    ensures r.Ok? ==> Sound(r.value) && Shrinks(t, r.value)
    decreases bound, 0, |children|
  {
    if children == [] then Ok(t)
    else match Remove(t, root, children[0])
      case Fatal(m) => Fatal(m)
      case Ok(t1) =>
        RanksStayBelow(t, t1, children[1..], bound);
        match RemoveAll(t1, root, children[1..], bound)
        case Fatal(m) => Fatal(m)
        case Ok(t2) => Ok(t2)
  }

  // ------------------------------------------------- registration soundness

  /** Registration keeps the tables sound, records the directory under the
      handle that was next, at its joined path, and only ever moves the
      handle counter forward. */
  lemma {:induction false} RegisterKeepsSound(t: Tables, root: string, rel: Option<string>, dir: Dir)
    requires Sound(t)
    ensures Register(t, root, rel, dir).Ok? ==>
      var u := Register(t, root, rel, dir).value;
      && Sound(u) && Grows(t, u) && u.nextWd > t.nextWd
      && t.nextWd in u.byHandle && u.byHandle[t.nextWd].absPath == Join(root, rel)
    decreases Size(dir), 1, 0
  {
    var abs := Join(root, rel);
    var wd := t.nextWd;
    var t0 := Inserted(t, abs, rel);
    InsertKeepsSound(t, abs, rel);
    if SubdirsOf(rel, dir.entries).Ok? {
      var subs := SubdirsOf(rel, dir.entries).value;
      SubdirsSmaller(rel, dir);
      RegisterAllKeepsSound(t0, root, subs, Size(dir));
      if RegisterAll(t0, root, subs, Size(dir)).Ok? {
        var t1 := RegisterAll(t0, root, subs, Size(dir)).value;
        LinkKeepsSound(t1, root, abs, wd);
      }
    }
  }

  /** Inserting a fresh record under the next handle into both tables
      keeps them sound. */
  lemma InsertKeepsSound(t: Tables, abs: string, rel: Option<string>)
    requires Sound(t)
    ensures Sound(Inserted(t, abs, rel)) && Grows(t, Inserted(t, abs, rel))
  {
    var t0 := Inserted(t, abs, rel);
    forall q | q in t0.byPath
      ensures t0.byPath[q].wd in t0.byHandle && t0.byHandle[t0.byPath[q].wd] == t0.byPath[q]
    {
      if q != abs {
        assert t.byPath[q].wd in t.byHandle;
      }
    }
  }

  lemma {:induction false} RegisterAllKeepsSound(t: Tables, root: string, subs: seq<Subdir>, bound: nat)
    requires Sound(t)
    requires forall i :: 0 <= i < |subs| ==> Size(subs[i].dir) < bound
    ensures RegisterAll(t, root, subs, bound).Ok? ==>
      var u := RegisterAll(t, root, subs, bound).value;
      Sound(u) && Grows(t, u)
    decreases bound, 0, |subs|
  {
    if subs != [] {
      RegisterKeepsSound(t, root, Some(subs[0].relPath), subs[0].dir);
      if Register(t, root, Some(subs[0].relPath), subs[0].dir).Ok? {
        var t1 := Register(t, root, Some(subs[0].relPath), subs[0].dir).value;
        RegisterAllKeepsSound(t1, root, subs[1..], bound);
      }
    }
  }

  /** Linking a record whose path is longer than its parent's keeps the
      tables sound. */
  lemma LinkKeepsSound(t: Tables, root: string, abs: string, wd: int)
    requires Sound(t) && wd < t.nextWd
    requires wd in t.byHandle ==> t.byHandle[wd].absPath == abs
    ensures LinkToParent(t, root, abs, wd).Ok? ==>
      var u := LinkToParent(t, root, abs, wd).value;
      Sound(u) && Grows(t, u)
  {
    if |abs| > |root| && ParentPath(Some(abs)).Ok? && ParentPath(Some(abs)).value.Some? {
      var pp := ParentPath(Some(abs)).value.value;
      if pp in t.byPath && t.byPath[pp].wd in t.byHandle {
        var p := t.byPath[pp].wd;
        var u := LinkToParent(t, root, abs, wd).value;
        ParentPrefix(abs, pp);
      }
    }
  }

  // ---------------------------------------------------- handle_inotify_event

  datatype EventFlag =
    | InIgnored | InDeleteSelf | InMoveSelf | InCreate | InMovedTo | InDelete | InMovedFrom | InIsDir | InCloseWrite

  /** A `struct inotify_event`: the handle of the watched directory, the
      mask, and the name of the child concerned ("" for events about the
      watched directory itself). */
  datatype Event = Event(wd: int, mask: set<EventFlag>, name: string)

  /** Whether the remotes are synced afterwards, and for which directory. */
  datatype SyncRequest = NoSync | SyncDir(rel: Option<string>)

  datatype Reaction = Reaction(tables: Tables, sync: SyncRequest)

  predicate Created(ev: Event) {
    InCreate in ev.mask || InMovedTo in ev.mask
  }

  predicate DirectoryGone(ev: Event) {
    (InDelete in ev.mask || InMovedFrom in ev.mask) && InIsDir in ev.mask
  }

  /** `handle_inotify_event`, where `stat` is what `stat` reports for the
      event's child. */
  function Handle(t: Tables, root: string, ev: Event, stat: Node): Result<Reaction>
    requires Sound(t)
  {
    if InIgnored in ev.mask then Ok(Reaction(t, NoSync))
    else if ev.wd !in t.byHandle then Ok(Reaction(t, NoSync))
    else
      var rec := t.byHandle[ev.wd];
      var resourceAbs := Join(root, rec.relPath) + "/" + ev.name;
      var resourceRel := SubdirPath(rec.relPath, ev.name);
      if InDeleteSelf in ev.mask || InMoveSelf in ev.mask then Ok(Reaction(t, NoSync))
      else if Created(ev) && stat.Unstatable? then Ok(Reaction(t, NoSync))
      else if Created(ev) && stat.FileNode? && InCreate in ev.mask then Ok(Reaction(t, NoSync))
      else
        var registered := if Created(ev) && stat.DirNode? then Register(t, root, Some(resourceRel), stat.dir) else Ok(t);
        match registered
        case Fatal(m) => Fatal(m)
        case Ok(t1) =>
          RegisterKeepsSound(t, root, Some(resourceRel), if stat.DirNode? then stat.dir else Dir([]));
          if DirectoryGone(ev) then
            if resourceAbs !in t1.byPath then Ok(Reaction(t1, NoSync))
            else match Remove(t1, root, t1.byPath[resourceAbs].wd)
              case Fatal(m) => Fatal(m)
              case Ok(t2) => Ok(Reaction(t2, SyncDir(rec.relPath)))
          else Ok(Reaction(t1, SyncDir(rec.relPath)))
  }

  // --------------------------------------------------- create_rsync_command

  /** A `RemoteSystem` of the engine: a host and the workspace root there. */
  datatype RemoteSystem = RemoteSystem(host: string, remoteRoot: string)

  /** `create_rsync_command` without its NULL terminator. */
  function RsyncCommand(root: string, remote: RemoteSystem, rel: Option<string>): seq<string> {
    ["rsync", "-az", "--delete", Join(root, rel) + "/", remote.host + ":" + Join(remote.remoteRoot, rel)]
  }

  /** The commands `sync_remote_systems` runs, one per remote in list
      order. */
  function SyncCommands(root: string, remotes: seq<RemoteSystem>, rel: Option<string>): seq<seq<string>> {
    if remotes == [] then [] else [RsyncCommand(root, remotes[0], rel)] + SyncCommands(root, remotes[1..], rel)
  }
}
