/** Path helpers of src/util/fs_util.c (and their older copies in
    server/util/fs_util.h, whose bodies are the same): `concat_paths`,
    `get_path_to_parent_directory`, `validate_absolute_path` and the filtering
    loop of `get_paths_of_subdirectories`.
    The filesystem is an immutable directory-tree value: `readdir` order is
    the order of `entries`, and `stat` of an entry is its `node`. */
module Paths {
  import opened Wrappers
  import opened Strings

  // ---------------------------------------------------------------- concat_paths

  /** `concat_paths`: "p1/p2" when both are given, a copy of the one that is
      given otherwise, fatal when both are NULL. */
  function ConcatPaths(p1: Option<string>, p2: Option<string>): (r: Result<string>)
    ensures r.Fatal? <==> p1.None? && p2.None?
    ensures p1.Some? && p2.Some? ==> r == Ok(p1.value + "/" + p2.value)
    ensures p1.Some? && p2.None? ==> r == Ok(p1.value)
    ensures p1.None? && p2.Some? ==> r == Ok(p2.value)
  {
    if p1.None? && p2.None? then Fatal("No paths to concatenate specified")
    else if p1.Some? && p2.Some? then Ok(p1.value + "/" + p2.value)
    else if p1.None? then Ok(p2.value)
    else Ok(p1.value)
  }

  /** The joined path when the first argument is present (never fatal). */
  function Join(p1: string, p2: Option<string>): (r: string)
    ensures ConcatPaths(Some(p1), p2) == Ok(r)
  {
    if p2.Some? then p1 + "/" + p2.value else p1
  }

  // ------------------------------------------------ get_path_to_parent_directory

  /** Index of the last '/' of `s` (`strrchr`). */
  function LastSlash(s: string): (r: Option<nat>)
    ensures r.None? <==> '/' !in s
    ensures r.Some? ==> r.value < |s| && s[r.value] == '/' && '/' !in s[r.value + 1..]
  {
    if |s| == 0 then None
    else if s[|s| - 1] == '/' then Some(|s| - 1)
    else
      var r := LastSlash(s[..|s| - 1]);
      assert s == s[..|s| - 1] + [s[|s| - 1]];
      r
  }

  /** `get_path_to_parent_directory`: NULL for NULL and for exactly "/",
      fatal for a path without '/', otherwise the prefix before the last '/'. */
  function ParentPath(dir: Option<string>): (r: Result<Option<string>>)
  {
    if dir.None? || dir.value == "/" then Ok(None)
    else match LastSlash(dir.value)
      case None => Fatal("invalid directory path")
      case Some(k) => Ok(Some(dir.value[..k]))
  }

  /** The last path segment: what follows the last '/'. */
  function Basename(s: string): string {
    match LastSlash(s)
    case None => s
    case Some(k) => s[k + 1..]
  }

  /** The parent of NULL and of "/" is NULL; a path without '/' is fatal. */
  lemma ParentPathEdgeCases(s: string)
    ensures ParentPath(None) == Ok(None)
    ensures ParentPath(Some("/")) == Ok(None)
    ensures s != "/" ==> (ParentPath(Some(s)).Fatal? <==> '/' !in s)
  {
  }

  /** Round trip: for every path containing '/' other than "/" itself, the
      parent followed by "/" and the last segment gives back the path, and the
      last segment holds no '/'. */
  lemma ParentRoundTrip(s: string)
    requires '/' in s && s != "/"
    ensures ParentPath(Some(s)).Ok? && ParentPath(Some(s)).value.Some?
    ensures ParentPath(Some(s)).value.value + "/" + Basename(s) == s
    ensures '/' !in Basename(s)
  {
    var k := LastSlash(s).value;
    assert s == s[..k] + [s[k]] + s[k + 1..];
  }

  /** The parent of "a/name" is "a" whenever `name` has no '/'; this is what
      lets a child directory find its parent's record. */
  lemma ParentOfJoin(a: string, name: string)
    requires '/' !in name
    requires a + "/" + name != "/"
    ensures ParentPath(Some(a + "/" + name)) == Ok(Some(a))
    ensures Basename(a + "/" + name) == name
  {
    var s := a + "/" + name;
    assert s[|a|] == '/';
    assert s[|a| + 1..] == name;
    var k := LastSlash(s).value;
    assert s[..k] == a;
  }

  // ------------------------------------------------------- validate_absolute_path

  /** `validate_absolute_path`, in the order of its checks. */
  predicate ValidateAbsolutePath(path: Option<string>) {
    if path.None? then false
    else if Blank(path) then false
    else if !(|path.value| > 0 && path.value[0] == '/') then false
    else true
  }

  /** A path is accepted exactly when it is present and starts with '/': the
      blank check can never reject a string that starts with '/'. */
  lemma AbsolutePathExactly(path: Option<string>)
    ensures ValidateAbsolutePath(path) <==> path.Some? && |path.value| > 0 && path.value[0] == '/'
  {
    if path.Some? && |path.value| > 0 && path.value[0] == '/' {
      NotBlankWhenFirstIsVisible(path.value);
    }
  }

  /** What the mappers and option validators ask the filesystem: the paths
      that are existing directories and the paths `access(F_OK)` finds. */
  datatype Probe = Probe(directories: set<string>, files: set<string>)

  // ------------------------------------ validate_directory_exists / _file_exists

  /** `validate_directory_exists`: `stat` succeeds and reports a directory.
      `directories` is the set of paths for which that holds. */
  predicate DirectoryExists(path: Option<string>, directories: set<string>) {
    path.Some? && path.value in directories
  }

  /** `validate_file_exists` as written: `access(path, F_OK)` returns 0 when
      the file exists, and the function answers true when it returns
      non-zero, so it accepts exactly the paths that do NOT exist.
      `existing` is the set of paths for which `access` succeeds. */
  predicate FileExistsAsWritten(path: Option<string>, existing: set<string>) {
    path.Some? && path.value !in existing
  }

  /** The check its name and every caller evidently intend: the file exists.
      The rest of the model uses this one. */
  predicate FileExists(path: Option<string>, existing: set<string>) {
    path.Some? && path.value in existing
  }

  /** The as-written check rejects a file that exists and accepts one that
      does not; the intended check does the opposite, for every path. */
  lemma FileExistsAsWrittenInverted(path: string, existing: set<string>)
    ensures FileExistsAsWritten(Some(path), existing) <==> !FileExists(Some(path), existing)
    ensures !FileExistsAsWritten(None, existing) && !FileExists(None, existing)
  {
  }

  /** A concrete instance: with "/home/u/.ssh/id" present, the as-written
      check refuses it and the intended one accepts it. */
  lemma FileExistsCounterexample()
    ensures !FileExistsAsWritten(Some("/home/u/.ssh/id"), {"/home/u/.ssh/id"})
    ensures FileExists(Some("/home/u/.ssh/id"), {"/home/u/.ssh/id"})
  {
  }

  // ------------------------------------------------- get_paths_of_subdirectories

  /** The filesystem as a value. `Unstatable` is an entry whose `stat` fails. */
  datatype Node = DirNode(dir: Dir) | FileNode | Unstatable
  datatype Entry = Entry(name: string, node: Node)
  datatype Dir = Dir(entries: seq<Entry>)

  /** One element of the list `get_paths_of_subdirectories` returns: the
      subdirectory's path relative to the workspace root, with its name and
      contents. */
  datatype Subdir = Subdir(name: string, relPath: string, dir: Dir)

  /** The name filter: every name beginning with '.' is skipped (this covers
      "." and ".." as well as hidden directories). */
  predicate Hidden(name: string) {
    |name| > 0 && name[0] == '.'
  }

  /** The relative path of child `name` of the directory at `rel`:
      `concat_paths(rel, name)`, which cannot fail because `name` is given. */
  function SubdirPath(rel: Option<string>, name: string): (r: string)
    ensures ConcatPaths(rel, Some(name)) == Ok(r)
  {
    if rel.Some? then rel.value + "/" + name else name
  }

  /** The listing of the directory at `rel` built from `entries` in readdir
      order: hidden names are skipped before `stat`, an entry whose `stat`
      fails is fatal, files are skipped, directories are appended. */
  function SubdirsOf(rel: Option<string>, entries: seq<Entry>): Result<seq<Subdir>>
  {
    if entries == [] then Ok([])
    else
      var e := entries[0];
      if Hidden(e.name) then SubdirsOf(rel, entries[1..])
      else match e.node
        case Unstatable => Fatal("stat failed")
        case FileNode => SubdirsOf(rel, entries[1..])
        case DirNode(d) =>
          match SubdirsOf(rel, entries[1..])
          case Fatal(m) => Fatal(m)
          case Ok(rest) => Ok([Subdir(e.name, SubdirPath(rel, e.name), d)] + rest)
  }

  /** `acc` followed by the listing still to come (fatal stays fatal). */
  function Prepend(acc: seq<Subdir>, r: Result<seq<Subdir>>): Result<seq<Subdir>> {
    match r
    case Fatal(m) => Fatal(m)
    case Ok(l) => Ok(acc + l)
  }

  /** `get_paths_of_subdirectories`: the readdir loop appending to a list. */
  method SubdirectoriesOf(rel: Option<string>, d: Dir) returns (r: Result<seq<Subdir>>)
    ensures r == SubdirsOf(rel, d.entries)
  {
    var acc: seq<Subdir> := [];
    var i := 0;
    assert d.entries[i..] == d.entries;
    assert forall l: seq<Subdir> :: [] + l == l;
    while i < |d.entries|
      invariant 0 <= i <= |d.entries|
      invariant SubdirsOf(rel, d.entries) == Prepend(acc, SubdirsOf(rel, d.entries[i..]))
    {
      var e := d.entries[i];
      assert d.entries[i..][1..] == d.entries[i + 1..];
      if Hidden(e.name) {
        i := i + 1;
        continue;
      }
      match e.node {
        case Unstatable =>
          assert SubdirsOf(rel, d.entries[i..]) == Fatal("stat failed");
          return Fatal("stat failed");
        case FileNode =>
        case DirNode(sub) =>
          var x := Subdir(e.name, SubdirPath(rel, e.name), sub);
          assert forall l: seq<Subdir> :: acc + ([x] + l) == (acc + [x]) + l;
          acc := acc + [x];
      }
      i := i + 1;
    }
    assert d.entries[i..] == [];
    assert acc + [] == acc;
    r := Ok(acc);
  }

  /** An entry the listing keeps: a visible directory. */
  predicate Listed(e: Entry) {
    !Hidden(e.name) && e.node.DirNode?
  }

  /** How many of the entries are visible directories. */
  function CountListed(entries: seq<Entry>): nat {
    if entries == [] then 0
    else (if Listed(entries[0]) then 1 else 0) + CountListed(entries[1..])
  }

  /** The listing keeps readdir order and multiplicity: it has one element
      per visible directory entry, and the entry preceded by `k` visible
      directory entries gives element `k`, under its joined relative path. */
  lemma {:induction false} SubdirsOfInOrder(rel: Option<string>, entries: seq<Entry>)
    requires SubdirsOf(rel, entries).Ok?
    ensures |SubdirsOf(rel, entries).value| == CountListed(entries)
    ensures forall i :: 0 <= i < |entries| && Listed(entries[i]) ==>
      && CountListed(entries[..i]) < |SubdirsOf(rel, entries).value|
      && SubdirsOf(rel, entries).value[CountListed(entries[..i])] ==
           Subdir(entries[i].name, SubdirPath(rel, entries[i].name), entries[i].node.dir)
  {
    if entries != [] {
      var rest := entries[1..];
      SubdirsOfInOrder(rel, rest);
      forall i | 0 <= i < |entries| && Listed(entries[i])
        ensures CountListed(entries[..i]) < |SubdirsOf(rel, entries).value|
        ensures SubdirsOf(rel, entries).value[CountListed(entries[..i])] ==
          Subdir(entries[i].name, SubdirPath(rel, entries[i].name), entries[i].node.dir)
      {
        if i > 0 {
          assert entries[..i][1..] == rest[..i - 1];
          assert entries[i] == rest[i - 1];
        }
      }
    }
  }

  /** The listing is fatal exactly when some visible entry cannot be
      `stat`ed; otherwise it holds exactly the visible directory entries,
      each under its joined relative path. */
  lemma {:induction false} SubdirsOfExactly(rel: Option<string>, entries: seq<Entry>)
    ensures SubdirsOf(rel, entries).Fatal? <==>
      exists i :: 0 <= i < |entries| && !Hidden(entries[i].name) && entries[i].node.Unstatable?
    ensures SubdirsOf(rel, entries).Ok? ==>
      forall s :: s in SubdirsOf(rel, entries).value <==>
        exists i :: 0 <= i < |entries| && !Hidden(entries[i].name) && entries[i].node.DirNode? &&
          s == Subdir(entries[i].name, SubdirPath(rel, entries[i].name), entries[i].node.dir)
  {
    if entries != [] {
      var e := entries[0];
      var rest := entries[1..];
      SubdirsOfExactly(rel, rest);
      assert forall i :: 1 <= i < |entries| ==> entries[i] == rest[i - 1];
      assert forall i :: 0 <= i < |rest| ==> rest[i] == entries[i + 1];
    }
  }
}
