/** The rsync command line of src/server/sync.c: for every remote system of a
    workspace, the argument vector that copies the directory at a relative
    path of the local workspace onto the same relative path of the remote
    workspace. Running the command is not part of the source (it is still a
    to-do there), so a synchronisation is modelled as the vectors it builds. */
module Sync {
  import opened Wrappers
  import opened Paths
  import opened Records
  import opened Decimal

  /** What `%s` writes: glibc prints "(null)" for a NULL string. */
  function Fmt(s: Option<string>): string {
    if s.Some? then s.value else "(null)"
  }

  /** The source dereferences the connection information of SSH and
      RSYNC_DAEMON remotes without a check, so it must be there. */
  predicate InfoPresent(r: Remote) {
    match r.connection
    case Ssh(i) => i.Some?
    case RsyncDaemon(i) => i.Some?
    case _ => true
  }

  /** `construct_rsync_local_dir_arg`: the local directory with a trailing
      '/' (rsync then copies its contents, not the directory itself). */
  function LocalDirArg(ws: WorkspaceInformation, rel: Option<string>): Result<string> {
    match ConcatPaths(ws.localRoot, rel)
    case Fatal(m) => Fatal(m)
    case Ok(p) => Ok(p + "/")
  }

  /** `user@host` when a user is given, the host alone otherwise. */
  function UserAndHost(username: Option<string>, hostname: Option<string>): string {
    if username.Some? then username.value + "@" + Fmt(hostname) else Fmt(hostname)
  }

  /** `construct_rsync_remote_dir_arg` and the three constructors it
      dispatches to; an unknown connection type is fatal. */
  function RemoteDirArg(r: Remote, rel: Option<string>): Result<string>
    requires InfoPresent(r)
  {
    match r.connection
    case Ssh(i) =>
      (match ConcatPaths(r.rootPath, rel)
       case Fatal(m) => Fatal(m)
       case Ok(path) => Ok(UserAndHost(i.value.username, i.value.hostname) + ":" + path))
    case HostAlias(a) =>
      (match ConcatPaths(r.rootPath, rel)
       case Fatal(m) => Fatal(m)
       case Ok(path) => Ok(Fmt(a) + ":" + path))
    case RsyncDaemon(i) =>
      (match ConcatPaths(r.rootPath, rel)
       case Fatal(m) => Fatal(m)
       case Ok(path) =>
         var userHost := UserAndHost(i.value.username, i.value.hostname);
         if i.value.port >= 0 then Ok("rsync://" + userHost + ":" + NatToDecimal(i.value.port) + path)
         else Ok(userHost + "::" + path))
    case OtherConnection => Fatal("Unknown error occurred while constructing rsync remote dir arg")
  }

  const RSYNC_COMMAND: seq<string> := ["rsync", "-azq", "--delete"]

  /** The remote-shell option added for an SSH remote with an identity file. */
  function IdentityOption(r: Remote): seq<string>
    requires InfoPresent(r)
  {
    if r.connection.Ssh? && r.connection.ssh.value.identityFile.Some? then
      ["-e \"ssh -i " + r.connection.ssh.value.identityFile.value + "\""]
    else []
  }

  /** `construct_rsync_cmd_arguments` without its NULL terminator. */
  function RsyncArguments(ws: WorkspaceInformation, r: Remote, rel: Option<string>): Result<seq<string>>
    requires InfoPresent(r)
  {
    match LocalDirArg(ws, rel)
    case Fatal(m) => Fatal(m)
    case Ok(local) =>
      match RemoteDirArg(r, rel)
      case Fatal(m) => Fatal(m)
      case Ok(remote) => Ok(RSYNC_COMMAND + IdentityOption(r) + [local, remote])
  }

  /** The argument strings as the non-NULL slots of a C argument vector. */
  function Present(args: seq<string>): (slots: seq<Option<string>>)
    ensures |slots| == |args|
    ensures forall i :: 0 <= i < |args| ==> slots[i] == Some(args[i])
  {
    if args == [] then [] else [Some(args[0])] + Present(args[1..])
  }

  /** `do_realloc` of an argument buffer to one more slot: the first `n`
      slots are kept. */
  method Grow(args: array<Option<string>>, n: nat) returns (grown: array<Option<string>>)
    requires n <= args.Length
    ensures fresh(grown) && grown.Length == args.Length + 1
    ensures grown[..n] == args[..n]
  {
    grown := new Option<string>[args.Length + 1](_ => None);
    var j := 0;
    while j < n
      invariant 0 <= j <= n
      invariant grown[..j] == args[..j]
    {
      grown[j] := args[j];
      assert grown[..j + 1] == grown[..j] + [grown[j]];
      assert args[..j + 1] == args[..j] + [args[j]];
      j := j + 1;
    }
  }

  /** The start of `construct_rsync_cmd_arguments`: a buffer of six slots
      holding the fixed rsync options, grown by one for the identity option;
      `index` is the first free slot and three slots remain. */
  method StartArguments(r: Remote) returns (args: array<Option<string>>, index: nat)
    requires InfoPresent(r)
    ensures fresh(args) && args.Length == index + 3
    ensures index == |RSYNC_COMMAND + IdentityOption(r)|
    ensures forall i :: 0 <= i < index ==> args[i] == Some((RSYNC_COMMAND + IdentityOption(r))[i])
  {
    args := new Option<string>[6](_ => None);
    args[0] := Some("rsync");
    args[1] := Some("-azq");
    args[2] := Some("--delete");
    index := 3;
    if r.connection.Ssh? && r.connection.ssh.value.identityFile.Some? {
      args := Grow(args, index);
      args[index] := Some("-e \"ssh -i " + r.connection.ssh.value.identityFile.value + "\"");
      index := index + 1;
    }
  }

  /** `construct_rsync_cmd_arguments`: the fixed options, the identity
      option, the local and the remote directory, closed by NULL. */
  method ConstructRsyncCmdArguments(ws: WorkspaceInformation, r: Remote, rel: Option<string>)
    returns (res: Result<array<Option<string>>>)
    requires InfoPresent(r)
    ensures res.Ok? <==> RsyncArguments(ws, r, rel).Ok?
    ensures res.Fatal? ==> res.reason == RsyncArguments(ws, r, rel).reason
    ensures res.Ok? ==> fresh(res.value) && res.value[..] == Present(RsyncArguments(ws, r, rel).value) + [None]
  {
    var args, index := StartArguments(r);
    var local := LocalDirArg(ws, rel);
    if local.Fatal? {
      return Fatal(local.reason);
    }
    args[index] := Some(local.value);
    var remote := RemoteDirArg(r, rel);
    if remote.Fatal? {
      return Fatal(remote.reason);
    }
    args[index + 1] := Some(remote.value);
    args[index + 2] := None;
    ghost var all := RSYNC_COMMAND + IdentityOption(r) + [local.value, remote.value];
    assert forall i :: 0 <= i < |all| ==> args[i] == Some(all[i]);
    assert args[..] == Present(all) + [None];
    return Ok(args);
  }

  /** The vectors for the remotes in list order; the first fatal one ends
      the process. */
  function SyncCommands(ws: WorkspaceInformation, remotes: seq<Remote>, rel: Option<string>): Result<seq<seq<string>>>
    requires forall i :: 0 <= i < |remotes| ==> InfoPresent(remotes[i])
  {
    if remotes == [] then Ok([])
    else match RsyncArguments(ws, remotes[0], rel)
      case Fatal(m) => Fatal(m)
      case Ok(args) =>
        match SyncCommands(ws, remotes[1..], rel)
        case Fatal(m) => Fatal(m)
        case Ok(rest) => Ok([args] + rest)
  }

  /** `synchronize_workspace`: the LL_FOREACH over the remote systems. */
  method SynchronizeWorkspace(ws: WorkspaceInformation, rel: Option<string>) returns (r: Result<seq<seq<string>>>)
    requires forall i :: 0 <= i < |ws.remotes| ==> InfoPresent(ws.remotes[i])
    ensures r == SyncCommands(ws, ws.remotes, rel)
  {
    var done: seq<seq<string>> := [];
    var i := 0;
    assert ws.remotes[i..] == ws.remotes;
    assert forall l: seq<seq<string>> :: [] + l == l;
    while i < |ws.remotes|
      invariant 0 <= i <= |ws.remotes|
      invariant SyncCommands(ws, ws.remotes, rel) == Then(done, SyncCommands(ws, ws.remotes[i..], rel))
    {
      assert ws.remotes[i..][1..] == ws.remotes[i + 1..];
      var args := RsyncArguments(ws, ws.remotes[i], rel);
      if args.Fatal? {
        return Fatal(args.reason);
      }
      ThenStep(done, args.value, SyncCommands(ws, ws.remotes[i + 1..], rel));
      done := done + [args.value];
      i := i + 1;
    }
    assert ws.remotes[i..] == [];
    assert done + [] == done;
    r := Ok(done);
  }

  /** `done` followed by what is still to come. */
  function Then(done: seq<seq<string>>, r: Result<seq<seq<string>>>): Result<seq<seq<string>>> {
    match r
    case Fatal(m) => Fatal(m)
    case Ok(rest) => Ok(done + rest)
  }

  lemma ThenStep(done: seq<seq<string>>, x: seq<string>, r: Result<seq<seq<string>>>)
    ensures Then(done, match r case Fatal(m) => Fatal(m) case Ok(rest) => Ok([x] + rest)) == Then(done + [x], r)
  {
    if r.Ok? {
      assert done + ([x] + r.value) == (done + [x]) + r.value;
    }
  }

  // ------------------------------------------------------------- properties

  /** The shape of every vector: "rsync -azq --delete", the identity option
      exactly for an SSH remote with an identity file, then the local and the
      remote directory. With its NULL terminator it fills the buffer of 6
      pointers, or 7 after the buffer is grown for the identity option. */
  lemma ArgumentLayout(ws: WorkspaceInformation, r: Remote, rel: Option<string>)
    requires InfoPresent(r)
    requires RsyncArguments(ws, r, rel).Ok?
    ensures var a := RsyncArguments(ws, r, rel).value;
      var withIdentity := r.connection.Ssh? && r.connection.ssh.value.identityFile.Some?;
      && a[..3] == ["rsync", "-azq", "--delete"]
      && |a| + 1 == (if withIdentity then 7 else 6)
      && (withIdentity ==> a[3] == "-e \"ssh -i " + r.connection.ssh.value.identityFile.value + "\"")
      && a[|a| - 2] == LocalDirArg(ws, rel).value
      && a[|a| - 1] == RemoteDirArg(r, rel).value
  {
  }

  /** Building the vector is fatal exactly when neither the local root nor
      the relative path is given, when neither the remote root nor the
      relative path is given, or when the connection type is unknown. */
  lemma ArgumentsFatal(ws: WorkspaceInformation, r: Remote, rel: Option<string>)
    requires InfoPresent(r)
    ensures RsyncArguments(ws, r, rel).Fatal? <==>
      (rel.None? && (ws.localRoot.None? || r.rootPath.None?)) || r.connection.OtherConnection?
  {
  }

  /** The local argument is the directory itself followed by '/', and the
      remote argument ends with the same relative path below the remote
      root: both sides name the same directory of the workspace. */
  lemma ArgumentsNameSameDirectory(ws: WorkspaceInformation, r: Remote, rel: string)
    requires InfoPresent(r) && ws.localRoot.Some? && r.rootPath.Some? && !r.connection.OtherConnection?
    ensures LocalDirArg(ws, Some(rel)) == Ok(ws.localRoot.value + "/" + rel + "/")
    ensures var remote := RemoteDirArg(r, Some(rel)).value;
      var suffix := r.rootPath.value + "/" + rel;
      |remote| >= |suffix| && remote[|remote| - |suffix|..] == suffix
  {
  }

  /** The remote argument by connection type: "host:path" (with "user@" when
      a user is given) for SSH, "alias:path" for a host alias, an rsync URL
      with the port when an RSYNC_DAEMON port is given (not negative) and the
      daemon's "host::path" form otherwise. */
  lemma RemoteArgumentForms(r: Remote, path: string)
    requires InfoPresent(r) && r.rootPath == Some(path)
    ensures r.connection.Ssh? && r.connection.ssh.value.username.None? ==>
      RemoteDirArg(r, None) == Ok(Fmt(r.connection.ssh.value.hostname) + ":" + path)
    ensures r.connection.Ssh? && r.connection.ssh.value.username.Some? ==>
      RemoteDirArg(r, None) ==
        Ok(r.connection.ssh.value.username.value + "@" + Fmt(r.connection.ssh.value.hostname) + ":" + path)
    ensures r.connection.HostAlias? ==> RemoteDirArg(r, None) == Ok(Fmt(r.connection.alias) + ":" + path)
    ensures r.connection.RsyncDaemon? && r.connection.rsync.value.port >= 0 ==>
      var i := r.connection.rsync.value;
      RemoteDirArg(r, None) ==
        Ok("rsync://" + UserAndHost(i.username, i.hostname) + ":" + NatToDecimal(i.port) + path)
    ensures r.connection.RsyncDaemon? && r.connection.rsync.value.port < 0 ==>
      var i := r.connection.rsync.value;
      RemoteDirArg(r, None) == Ok(UserAndHost(i.username, i.hostname) + "::" + path)
  {
  }

  /** Synchronising a workspace builds one vector per remote system, in list
      order, and is fatal exactly when one of them is. */
  lemma {:induction false} OneCommandPerRemote(ws: WorkspaceInformation, remotes: seq<Remote>, rel: Option<string>)
    requires forall i :: 0 <= i < |remotes| ==> InfoPresent(remotes[i])
    ensures SyncCommands(ws, remotes, rel).Fatal? <==>
      exists i :: 0 <= i < |remotes| && RsyncArguments(ws, remotes[i], rel).Fatal?
    ensures SyncCommands(ws, remotes, rel).Ok? ==>
      var cmds := SyncCommands(ws, remotes, rel).value;
      |cmds| == |remotes| &&
      forall i :: 0 <= i < |remotes| ==> RsyncArguments(ws, remotes[i], rel) == Ok(cmds[i])
  {
    if remotes != [] {
      OneCommandPerRemote(ws, remotes[1..], rel);
      assert forall i :: 1 <= i < |remotes| ==> remotes[i] == remotes[1..][i - 1];
    }
  }
}
