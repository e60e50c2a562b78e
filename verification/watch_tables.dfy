/** The two tables of the watch-tree engine (src/server/linux/workspace.c and
    its earlier variant server/workspace.c): `watch_descriptor_to_metadata`,
    keyed by watch handle, and `absolute_path_to_metadata`, keyed by absolute
    directory path. Each table owns its own copy of every record, so each
    copy has its own list of the handles of the direct subdirectories.
    uthash tables become maps; inserting a key that is already present
    replaces the entry (uthash would keep both and find the newer one). */
module WatchTables {
  import opened Wrappers
  import opened Paths

  /** `WatchMetadata`: the handle, the absolute path, the path relative to
      the workspace root (NULL for the root itself) and the child list. */
  datatype WatchRecord = WatchRecord(wd: int, absPath: string, relPath: Option<string>, subdirs: seq<int>)

  /** Both tables, and the next handle the kernel will hand out: handles are
      fresh integers, counted up from 1 as inotify does. */
  datatype Tables = Tables(byHandle: map<int, WatchRecord>, byPath: map<string, WatchRecord>, nextWd: int)

  const NO_WATCHES: Tables := Tables(map[], map[], 1)

  /** A record with `wd` appended to its child list (`LL_APPEND`). */
  function Append(r: WatchRecord, wd: int): (r': WatchRecord)
    ensures r'.wd == r.wd && r'.absPath == r.absPath && r'.relPath == r.relPath
    ensures r'.subdirs == r.subdirs + [wd]
  {
    r.(subdirs := r.subdirs + [wd])
  }

  // ------------------------------------------------------------ child lists

  predicate NoDup(s: seq<int>) {
    forall i, j :: 0 <= i < j < |s| ==> s[i] != s[j]
  }

  /** The `LL_FOREACH_SAFE` loop that deletes the first entry equal to `x`
      and stops (`break`). */
  function RemoveFirst(s: seq<int>, x: int): (r: seq<int>)
    ensures x !in s ==> r == s
    ensures x in s ==> |r| == |s| - 1
    ensures forall y :: y in r ==> y in s
    ensures forall y :: y != x && y in s ==> y in r
  {
    if s == [] then []
    else if s[0] == x then s[1..]
    else [s[0]] + RemoveFirst(s[1..], x)
  }

  /** Removing the first `x` splices out the first position that holds it,
      and leaves a list without `x` as it is. */
  lemma {:induction false} RemoveFirstAt(s: seq<int>, x: int, i: nat)
    requires i <= |s| && (forall k :: 0 <= k < i ==> s[k] != x) && (i < |s| ==> s[i] == x)
    ensures RemoveFirst(s, x) == if i < |s| then s[..i] + s[i + 1..] else s
  {
    if i > 0 {
      RemoveFirstAt(s[1..], x, i - 1);
      assert s[..i] == [s[0]] + s[1..][..i - 1];
      if i < |s| {
        assert s[1..][i..] == s[i + 1..];
      } else {
        assert [s[0]] + s[1..] == s;
      }
    }
  }

  /** What survives the removal of `x` from a list without duplicates was
      in the list and is not `x`. */
  lemma RemoveFirstKeeps(s: seq<int>, x: int, y: int)
    requires NoDup(s) && y in RemoveFirst(s, x)
    ensures y in s && y != x
  {
    RemoveFirstNoDup(s, x);
  }

  /** In a list without duplicates, removing the first occurrence removes
      the element altogether, and the list stays without duplicates. */
  lemma {:induction false} RemoveFirstNoDup(s: seq<int>, x: int)
    requires NoDup(s)
    ensures NoDup(RemoveFirst(s, x)) && x !in RemoveFirst(s, x)
  {
    if s != [] {
      assert NoDup(s[1..]) by {
        forall i, j | 0 <= i < j < |s[1..]| ensures s[1..][i] != s[1..][j] {
          assert s[1..][i] == s[i + 1] && s[1..][j] == s[j + 1];
        }
      }
      if s[0] == x {
        assert forall k :: 0 <= k < |s[1..]| ==> s[1..][k] == s[k + 1];
      } else {
        RemoveFirstNoDup(s[1..], x);
        var r := RemoveFirst(s[1..], x);
        assert s[0] !in s[1..] by {
          assert forall k :: 0 <= k < |s[1..]| ==> s[1..][k] == s[k + 1];
        }
        assert s[0] !in r;
        var rr := [s[0]] + r;
        forall i, j | 0 <= i < j < |rr| ensures rr[i] != rr[j] {
          if i == 0 {
            assert rr[j] == r[j - 1];
          } else {
            assert rr[i] == r[i - 1] && rr[j] == r[j - 1];
          }
        }
      }
    }
  }

  /** A record with the first occurrence of `wd` spliced out of its list. */
  function Strip(r: WatchRecord, wd: int): (r': WatchRecord)
    ensures r'.wd == r.wd && r'.absPath == r.absPath && r'.relPath == r.relPath
    ensures r'.subdirs == RemoveFirst(r.subdirs, wd)
  {
    r.(subdirs := RemoveFirst(r.subdirs, wd))
  }

  // ------------------------------------------------------------ path order

  /** `q` lies strictly below directory `p`. */
  predicate StrictlyUnder(p: string, q: string) {
    p + "/" <= q
  }

  /** `q` is directory `p` or lies below it. */
  predicate Under(p: string, q: string) {
    q == p || StrictlyUnder(p, q)
  }

  /** What `get_path_to_parent_directory` returns is a proper prefix of the
      path, followed there by the last '/'. */
  lemma ParentPrefix(q: string, pp: string)
    requires ParentPath(Some(q)) == Ok(Some(pp))
    ensures |pp| < |q| && pp <= q && q[|pp|] == '/' && '/' !in q[|pp| + 1..]
  {
  }

  /** The parent of a path below `p` is `p` or again below `p`. */
  lemma ParentOfStrictlyUnder(p: string, q: string, pp: string)
    requires StrictlyUnder(p, q) && ParentPath(Some(q)) == Ok(Some(pp))
    ensures Under(p, pp)
  {
    ParentPrefix(q, pp);
    var k := |pp|;
    assert q[|p|] == (p + "/")[|p|] == '/';
    assert forall i :: k + 1 <= i < |q| ==> q[i] == q[k + 1..][i - (k + 1)];
    if |p| < k {
      assert (p + "/") <= q[..k];
    } else {
      assert pp == q[..k] == q[..|p|] == p;
    }
  }

  /** A path whose parent is `a` or below `a` lies below `a`. */
  lemma StrictlyUnderOfParent(a: string, q: string, pp: string)
    requires ParentPath(Some(q)) == Ok(Some(pp)) && Under(a, pp)
    ensures StrictlyUnder(a, q)
  {
    ParentPrefix(q, pp);
    if pp == a {
      assert q[..|a| + 1] == a + "/";
    }
  }

  lemma UnderTransitive(a: string, b: string, c: string)
    requires Under(a, b) && Under(b, c)
    ensures Under(a, c)
  {
    if StrictlyUnder(a, b) && StrictlyUnder(b, c) {
      assert b <= c;
      assert (a + "/") <= b;
      assert c[..|a| + 1] == b[..|a| + 1];
    }
  }

  /** A path at or below "a/n" spells out `n` after "a/", followed by a
      '/' if it goes on. */
  lemma UnderComponent(a: string, n: string, q: string)
    ensures Under(a + "/" + n, q) ==>
      var base := |a| + 1;
      && |q| >= base + |n| && q[base..base + |n|] == n
      && (|q| > base + |n| ==> q[base + |n|] == '/')
  {
    var p := a + "/" + n;
    if Under(p, q) {
      assert q[..|p|] == p;
      assert q[|a| + 1..|p|] == p[|a| + 1..] == n;
    }
  }

  /** No path lies at or below two sibling directories whose names differ
      and hold no '/'. */
  lemma SiblingsDisjoint(a: string, n1: string, n2: string, q: string)
    requires '/' !in n1 && '/' !in n2 && n1 != n2
    ensures !(Under(a + "/" + n1, q) && Under(a + "/" + n2, q))
  {
    UnderComponent(a, n1, q);
    UnderComponent(a, n2, q);
    assert forall i :: 0 <= i < |n1| ==> n1[i] != '/';
    assert forall i :: 0 <= i < |n2| ==> n2[i] != '/';
  }

  // --------------------------------------------------------- the invariants

  /** Each record sits under its own key. */
  predicate Keyed(t: Tables) {
    && (forall v :: v in t.byHandle ==> t.byHandle[v].wd == v)
    && (forall q :: q in t.byPath ==> t.byPath[q].absPath == q)
  }

  /** The path table's record for a path and the handle table's record for
      its handle are equal copies. */
  predicate Agree(t: Tables) {
    forall q :: q in t.byPath ==> t.byPath[q].wd in t.byHandle && t.byHandle[t.byPath[q].wd] == t.byPath[q]
  }

  /** Every handle in use, and every handle listed as a child, is below the
      next fresh one. */
  predicate FreshCounter(t: Tables) {
    && (forall v :: v in t.byHandle ==> v < t.nextWd)
    && (forall v, c :: v in t.byHandle && c in t.byHandle[v].subdirs ==> c < t.nextWd)
  }

  /** A listed child that is still indexed has a longer path than its
      parent, so the recursive removal terminates. */
  predicate Deeper(t: Tables) {
    forall v, c :: v in t.byHandle && c in t.byHandle[v].subdirs && c in t.byHandle ==>
      |t.byHandle[c].absPath| > |t.byHandle[v].absPath|
  }

  /** What every reachable state of the tables satisfies, whatever the order
      of events (a directory registered twice included). */
  predicate Sound(t: Tables) {
    Keyed(t) && Agree(t) && FreshCounter(t) && Deeper(t)
  }

  /** Both tables hold the same handle/path pairs: one record per handle,
      one per path, and the two copies equal. */
  predicate Mirrored(t: Tables) {
    && Keyed(t) && Agree(t)
    && forall v :: v in t.byHandle ==>
         t.byHandle[v].absPath in t.byPath && t.byPath[t.byHandle[v].absPath].wd == v
  }

  /** Every listed child is indexed and its parent directory is the record
      that lists it. */
  predicate ChildrenBelow(t: Tables) {
    forall v, c :: v in t.byHandle && c in t.byHandle[v].subdirs ==>
      c in t.byHandle && ParentPath(Some(t.byHandle[c].absPath)) == Ok(Some(t.byHandle[v].absPath))
  }

  /** A listed child is indexed, one level below the record listing it. */
  lemma ListedChild(t: Tables, v: int, c: int)
    requires ChildrenBelow(t) && v in t.byHandle && c in t.byHandle[v].subdirs
    ensures c in t.byHandle && ParentPath(Some(t.byHandle[c].absPath)) == Ok(Some(t.byHandle[v].absPath))
  {
  }

  predicate ListsNoDup(t: Tables) {
    forall v :: v in t.byHandle ==> NoDup(t.byHandle[v].subdirs)
  }

  /** Every watched directory is the workspace root or lies below it. */
  predicate AllUnder(t: Tables, root: string) {
    forall q :: q in t.byPath ==> Under(root, q)
  }

  /** Every record below the root, except those in `detached`, is listed in
      the record of its parent directory. */
  predicate LinkedExcept(t: Tables, root: string, detached: set<int>) {
    forall v :: v in t.byHandle && v !in detached && |t.byHandle[v].absPath| > |root| ==>
      var parent := ParentPath(Some(t.byHandle[v].absPath));
      && parent.Ok? && parent.value.Some?
      && parent.value.value in t.byPath
      && v in t.byPath[parent.value.value].subdirs
  }

  /** The tables describe a tree of watched directories below `root`: the
      invariant the engine keeps when every directory is registered once.
      Records in `detached` are being registered or removed and are not yet
      (or no longer) linked to their parent. */
  predicate Tree(t: Tables, root: string, detached: set<int>) {
    && Mirrored(t) && FreshCounter(t) && ChildrenBelow(t) && ListsNoDup(t)
    && AllUnder(t, root) && LinkedExcept(t, root, detached)
  }

  lemma TreeIsSound(t: Tables, root: string, detached: set<int>)
    requires Tree(t, root, detached)
    ensures Sound(t)
  {
    forall v, c | v in t.byHandle && c in t.byHandle[v].subdirs && c in t.byHandle
      ensures |t.byHandle[c].absPath| > |t.byHandle[v].absPath|
    {
      ParentPrefix(t.byHandle[c].absPath, t.byHandle[v].absPath);
    }
  }

  /** In mirrored tables a path names at most one handle. */
  lemma PathNamesOneHandle(t: Tables, v: int, x: int)
    requires Mirrored(t) && v in t.byHandle && x in t.byHandle
    ensures t.byHandle[v].absPath == t.byHandle[x].absPath ==> v == x
  {
  }

  // ------------------------------------------------------------- ranking

  /** The handles whose path has at least `n` characters. */
  function AtLeast(t: Tables, n: int): set<int> {
    set v | v in t.byHandle && |t.byHandle[v].absPath| >= n
  }

  /** The measure of a removal: how many records are at least as deep as
      the one removed. */
  function Rank(t: Tables, w: int): nat {
    if w in t.byHandle then |AtLeast(t, |t.byHandle[w].absPath|)| else 0
  }

  /** `u` keeps some of the records of `t`, at the same paths, and the same
      next handle. */
  predicate Shrinks(t: Tables, u: Tables) {
    && u.nextWd == t.nextWd
    && forall v :: v in u.byHandle ==> v in t.byHandle && u.byHandle[v].absPath == t.byHandle[v].absPath
  }

  /** `u` keeps every record of `t` at the same path, and the next handle
      has not moved back. */
  predicate Grows(t: Tables, u: Tables) {
    && u.nextWd >= t.nextWd
    && forall v :: v in t.byHandle ==> v in u.byHandle && u.byHandle[v].absPath == t.byHandle[v].absPath
  }

  lemma GrowsTransitive(t: Tables, u: Tables, v: Tables)
    requires Grows(t, u) && Grows(u, v)
    ensures Grows(t, v)
  {
  }

  lemma {:induction false} SubsetCard<T>(a: set<T>, b: set<T>)
    requires a <= b
    ensures |a| <= |b|
  {
    if a != {} {
      var x :| x in a;
      SubsetCard(a - {x}, b - {x});
    }
  }

  lemma RankShrinks(t: Tables, u: Tables, c: int)
    requires Shrinks(t, u)
    ensures Rank(u, c) <= Rank(t, c)
  {
    if c in u.byHandle {
      var n := |u.byHandle[c].absPath|;
      forall v | v in AtLeast(u, n) ensures v in AtLeast(t, n) {
        assert v in u.byHandle && |u.byHandle[v].absPath| >= n;
      }
      SubsetCard(AtLeast(u, n), AtLeast(t, n));
    }
  }

  /** A listed child ranks strictly below its parent. */
  lemma ChildRanksLower(t: Tables, w: int, c: int)
    requires Deeper(t) && w in t.byHandle && c in t.byHandle[w].subdirs
    ensures Rank(t, c) < Rank(t, w)
  {
    if c in t.byHandle {
      var n := |t.byHandle[c].absPath|;
      var m := |t.byHandle[w].absPath|;
      assert n > m;
      forall v | v in AtLeast(t, n) ensures v in AtLeast(t, m) - {w} {
        assert v in t.byHandle && |t.byHandle[v].absPath| >= n;
      }
      SubsetCard(AtLeast(t, n), AtLeast(t, m) - {w});
      assert w in AtLeast(t, m);
      assert |AtLeast(t, m) - {w}| == |AtLeast(t, m)| - 1;
    }
  }

  // ------------------------------------------------- the directory tree

  /** The number of directories in a tree: what registration recurses on. */
  function Size(d: Dir): nat
    decreases d, 1
  {
    1 + EntriesSize(d, |d.entries|)
  }

  /** The size of the subtrees among the first `n` entries of `d`. */
  function EntriesSize(d: Dir, n: nat): nat
    requires n <= |d.entries|
    decreases d, 0, n
  {
    if n == 0 then 0
    else EntriesSize(d, n - 1) + (if d.entries[n - 1].node.DirNode? then Size(d.entries[n - 1].node.dir) else 0)
  }

  lemma {:induction false} EntrySmaller(d: Dir, n: nat, i: nat)
    requires i < n <= |d.entries| && d.entries[i].node.DirNode?
    ensures Size(d.entries[i].node.dir) <= EntriesSize(d, n)
  {
    if i < n - 1 {
      EntrySmaller(d, n - 1, i);
    }
  }

  /** Every subdirectory in the listing of `d` is a smaller tree. */
  lemma SubdirsSmaller(rel: Option<string>, d: Dir)
    requires SubdirsOf(rel, d.entries).Ok?
    ensures forall s :: s in SubdirsOf(rel, d.entries).value ==> Size(s.dir) < Size(d)
  {
    SubdirsOfExactly(rel, d.entries);
    forall s | s in SubdirsOf(rel, d.entries).value
      ensures Size(s.dir) < Size(d)
    {
      var i :| 0 <= i < |d.entries| && !Hidden(d.entries[i].name) && d.entries[i].node.DirNode? &&
        s == Subdir(d.entries[i].name, SubdirPath(rel, d.entries[i].name), d.entries[i].node.dir);
      EntrySmaller(d, |d.entries|, i);
    }
  }
}
