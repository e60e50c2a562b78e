/** The older WorkspaceInformation / daemon command <-> JSON mappers of
    src/types.c. Unlike the mappers of ws_info_mappers.c they check no paths,
    an absent rsync port is -1 rather than 0, and the member order differs. */
module TypesJson {
  import opened Wrappers
  import opened Enums
  import opened Json
  import opened Records

  /** `ResyncDaemonCommand`: a command type and its workspace. */
  datatype DaemonCommand = DaemonCommand(commandType: CommandType, workspace: Option<WorkspaceInformation>)

  /** The port an rsync daemon connection has when none is given. */
  const NO_PORT: int := -1

  // ------------------------------------------------------------------ SSH

  /** `extract_ssh_connection_information`: hostname required, username and
      identity file optional. */
  function ExtractSsh(j: Json): Outcome<SshInfo> {
    var host := StringValue(Get(j, HostnameKey));
    if host.None? then Failure("Key 'hostname' is missing")
    else Success(SshInfo(StringValue(Get(j, UsernameKey)), host, StringValue(Get(j, IdentityFileKey))))
  }

  /** `ssh_connection_information_to_json`: username, identity file, then the
      required hostname. */
  function SshToJson(info: Option<SshInfo>): Outcome<Json> {
    if info.None? then Failure("SSH connection information struct is missing")
    else if info.value.hostname.None? then Failure("SSH connection information struct is missing the required 'hostname' entry")
    else Success(JObject(OptionalString(UsernameKey, info.value.username)
                         + OptionalString(IdentityFileKey, info.value.identityFile)
                         + [Member(HostnameKey, JString(info.value.hostname.value))]))
  }

  // --------------------------------------------------------- rsync daemon

  /** `extract_rsync_daemon_connection_information`: a port given as a
      string, or outside [0, 65535], is refused; no port gives -1; the
      hostname is required. */
  function ExtractRsync(j: Json): Outcome<RsyncInfo> {
    var user := StringValue(Get(j, UsernameKey));
    var port := Get(j, PortKey);
    var host := StringValue(Get(j, HostnameKey));
    if port.Some? && port.value.JString? then Failure("Invalid port value found in connection info struct")
    else if port.Some? && !(MIN_PORT_NUMBER <= ValueInt(port.value) <= MAX_PORT_NUMBER) then
      Failure("Port value is outside of range")
    else if host.None? then Failure("Key 'hostname' is missing")
    else Success(RsyncInfo(user, host, if port.Some? then ValueInt(port.value) else NO_PORT))
  }

  /** `rsync_daemon_connection_information_to_json`: a negative port is left
      out, a port above 65535 is refused; the hostname is required. */
  function RsyncToJson(info: Option<RsyncInfo>): Outcome<Json> {
    if info.None? then Failure("RSYNC daemon connection information struct is missing")
    else
      var i := info.value;
      if i.port >= MIN_PORT_NUMBER && i.port > MAX_PORT_NUMBER then Failure("Invalid port found")
      else if i.hostname.None? then Failure("RSYNC daemon connection information struct is missing the required 'hostname' entry")
      else Success(JObject(OptionalString(UsernameKey, i.username)
                           + (if i.port >= MIN_PORT_NUMBER then [Member(PortKey, JNumber(i.port))] else [])
                           + [Member(HostnameKey, JString(i.hostname.value))]))
  }

  // ------------------------------------------------------- SSH host alias

  /** `extract_ssh_host_alias_connection_information`. */
  function ExtractAlias(j: Json): Outcome<string> {
    var alias := StringValue(Get(j, HostAliasKey));
    if alias.None? then Failure("Key 'ssh_host_alias' is missing") else Success(alias.value)
  }

  /** `ssh_host_alias_connection_information_to_json`. */
  function AliasToJson(alias: Option<string>): Outcome<Json> {
    if alias.None? then Failure("SSH host alias connection information is missing required 'ssh_host_alias' entry")
    else Success(JObject([Member(HostAliasKey, JString(alias.value))]))
  }

  // ------------------------------------------------------- remote systems

  /** The `switch` of `remote_system_json_to_remote_workspace_metadata`. */
  function ConnectionFromJson(t: ConnectionType, info: Json): Outcome<Connection> {
    match t
    case SshType => (match ExtractSsh(info)
      case Failure(m) => Failure(m)
      case Success(i) => Success(Ssh(Some(i))))
    case SshHostAliasType => (match ExtractAlias(info)
      case Failure(m) => Failure(m)
      case Success(a) => Success(HostAlias(Some(a))))
    case RsyncDaemonType => (match ExtractRsync(info)
      case Failure(m) => Failure(m)
      case Success(i) => Success(RsyncDaemon(Some(i))))
    case OtherConnectionType => Failure("Unknown error related to connection type")
  }

  /** `remote_system_json_to_remote_workspace_metadata`: root path, a known
      connection type and the connection information are all required. */
  function RemoteFromJson(j: Json): Outcome<Remote> {
    var root := StringValue(Get(j, RemoteRootKey));
    var typeName := StringValue(Get(j, ConnectionTypeKey));
    var info := Get(j, ConnectionInfoKey);
    if root.None? then Failure("Key 'remote_workspace_root_path' is missing")
    else if typeName.None? then Failure("Key 'connection_type' is missing")
    else if StringToConnectionType(typeName) == OtherConnectionType then Failure("Invalid connection type specified for remote system")
    else if info.None? then Failure("Key 'connection_information' is missing")
    else match ConnectionFromJson(StringToConnectionType(typeName), info.value)
      case Failure(m) => Failure(m)
      case Success(c) => Success(Remote(root, c))
  }

  /** The `switch` of `remote_workspace_metadata_to_json`: the connection
      information of the remote's type as JSON. */
  function ConnectionToJson(c: Connection): Outcome<Json> {
    match c
    case Ssh(i) => SshToJson(i)
    case HostAlias(a) => AliasToJson(a)
    case RsyncDaemon(i) => RsyncToJson(i)
    case OtherConnection => Failure("Unknown error related to connection type of remote system")
  }

  /** `remote_workspace_metadata_to_json`: root path, connection type and
      connection information, in that order. */
  function RemoteToJson(r: Remote): Outcome<Json> {
    if r.rootPath.None? then Failure("Remote workspace struct is missing the required 'remote_workspace_root_path' entry")
    else match ConnectionToJson(r.connection)
      case Failure(m) => Failure(m)
      case Success(infoJson) =>
        Success(JObject([Member(RemoteRootKey, JString(r.rootPath.value)),
                         Member(ConnectionTypeKey, JString(ConnectionTypeToString(TypeOf(r.connection)).value)),
                         Member(ConnectionInfoKey, infoJson)]))
  }

  function RemotesFromJson(items: seq<Json>): Outcome<seq<Remote>> {
    if items == [] then Success([])
    else match RemoteFromJson(items[0])
      case Failure(m) => Failure(m)
      case Success(r) => Prefixed([r], RemotesFromJson(items[1..]))
  }

  function RemotesToJson(remotes: seq<Remote>): Outcome<seq<Json>> {
    if remotes == [] then Success([])
    else match RemoteToJson(remotes[0])
      case Failure(m) => Failure(m)
      case Success(j) => Prefixed([j], RemotesToJson(remotes[1..]))
  }

  // ------------------------------------------------------------ workspace

  const NO_REMOTES_FROM_JSON: string := "No remote systems (expected key 'remote_systems') specified in workspace definition"
  const NO_REMOTES_TO_JSON: string := "workspace information struct does not contain any remote system definitions"

  /** The entries `cJSON_ArrayForEach` visits for the remote-systems member
      (none when the member is absent). */
  function RemoteEntries(j: Json): seq<Json> {
    var remotes := Get(j, RemoteSystemsKey);
    if remotes.Some? then Children(remotes.value) else []
  }

  /** `json_to_workspace_information`: the local root is required; there
      must be at least one remote system. */
  function WorkspaceFromJson(j: Json): Outcome<WorkspaceInformation> {
    var local := StringValue(Get(j, LocalRootKey));
    if local.None? then Failure("Key 'local_workspace_root_path' is missing")
    else match RemotesFromJson(RemoteEntries(j))
      case Failure(m) => Failure(m)
      case Success(rs) =>
        if |RemoteEntries(j)| == 0 then Failure(NO_REMOTES_FROM_JSON)
        else Success(WorkspaceInformation(local, rs))
  }

  /** `workspace_information_to_json`: the local root is required; there
      must be at least one remote system. */
  function WorkspaceToJson(ws: WorkspaceInformation): Outcome<Json> {
    if ws.localRoot.None? then Failure("workspace_information struct is missing a value for 'local_workspace_root_path'")
    else match RemotesToJson(ws.remotes)
      case Failure(m) => Failure(m)
      case Success(items) =>
        if |ws.remotes| == 0 then Failure(NO_REMOTES_TO_JSON)
        else Success(JObject([Member(LocalRootKey, JString(ws.localRoot.value)), Member(RemoteSystemsKey, JArray(items))]))
  }

  /** `json_to_workspace_information` with its `cJSON_ArrayForEach` loop. */
  method ParseWorkspace(j: Json) returns (r: Outcome<WorkspaceInformation>)
    ensures r == WorkspaceFromJson(j)
  {
    var local := StringValue(Get(j, LocalRootKey));
    if local.None? {
      return Failure("Key 'local_workspace_root_path' is missing");
    }
    var items := RemoteEntries(j);
    var remotes := ParseRemotes(items);
    if remotes.Failure? {
      return Failure(remotes.message);
    }
    if |items| == 0 {
      return Failure(NO_REMOTES_FROM_JSON);
    }
    r := Success(WorkspaceInformation(local, remotes.value));
  }

  /** The `cJSON_ArrayForEach` loop of `json_to_workspace_information`: each
      array entry parsed and appended, stopping at the first failure. */
  method ParseRemotes(items: seq<Json>) returns (r: Outcome<seq<Remote>>)
    ensures r == RemotesFromJson(items)
  {
    var remotes: seq<Remote> := [];
    var counter := 0;
    assert items[counter..] == items;
    PrefixedNothing(RemotesFromJson(items));
    while counter < |items|
      invariant 0 <= counter <= |items|
      invariant RemotesFromJson(items) == Prefixed(remotes, RemotesFromJson(items[counter..]))
    {
      assert items[counter..][1..] == items[counter + 1..];
      var entry := RemoteFromJson(items[counter]);
      if entry.Failure? {
        return Failure(entry.message);
      }
      PrefixedStep(remotes, entry.value, RemotesFromJson(items[counter + 1..]));
      remotes := remotes + [entry.value];
      counter := counter + 1;
    }
    assert items[counter..] == [];
    assert remotes + [] == remotes;
    r := Success(remotes);
  }

  /** `workspace_information_to_json` with its `LL_FOREACH` loop. */
  method SerialiseWorkspace(ws: WorkspaceInformation) returns (r: Outcome<Json>)
    ensures r == WorkspaceToJson(ws)
  {
    if ws.localRoot.None? {
      return Failure("workspace_information struct is missing a value for 'local_workspace_root_path'");
    }
    var items := SerialiseRemotes(ws.remotes);
    if items.Failure? {
      return Failure(items.message);
    }
    if |ws.remotes| == 0 {
      return Failure(NO_REMOTES_TO_JSON);
    }
    r := Success(JObject([Member(LocalRootKey, JString(ws.localRoot.value)), Member(RemoteSystemsKey, JArray(items.value))]));
  }

  /** The `LL_FOREACH` loop of `workspace_information_to_json`: each remote
      mapped and appended to the array, stopping at the first failure. */
  method SerialiseRemotes(remotes: seq<Remote>) returns (r: Outcome<seq<Json>>)
    ensures r == RemotesToJson(remotes)
  {
    var items: seq<Json> := [];
    var counter := 0;
    assert remotes[counter..] == remotes;
    PrefixedNothing(RemotesToJson(remotes));
    while counter < |remotes|
      invariant 0 <= counter <= |remotes|
      invariant RemotesToJson(remotes) == Prefixed(items, RemotesToJson(remotes[counter..]))
    {
      assert remotes[counter..][1..] == remotes[counter + 1..];
      var entry := RemoteToJson(remotes[counter]);
      if entry.Failure? {
        return Failure(entry.message);
      }
      PrefixedStep(items, entry.value, RemotesToJson(remotes[counter + 1..]));
      items := items + [entry.value];
      counter := counter + 1;
    }
    assert remotes[counter..] == [];
    assert items + [] == items;
    r := Success(items);
  }

  // ------------------------------------------------------- daemon command

  /** `json_to_resync_daemon_command`: a known command type and a workspace
      member are required. */
  function DaemonCommandFromJson(j: Json): Outcome<DaemonCommand> {
    var typeName := StringValue(Get(j, CommandTypeKey));
    var ws := Get(j, CommandWorkspaceKey);
    if typeName.None? then Failure("Key 'type' is missing")
    else if StringToCommandType(typeName) == OtherCommand then Failure("Found invalid command type in resync_command JSON")
    else if ws.None? then Failure("Key 'workspace information' is missing")
    else match WorkspaceFromJson(ws.value)
      case Failure(m) => Failure(m)
      case Success(w) => Success(DaemonCommand(StringToCommandType(typeName), Some(w)))
  }

  /** `resync_daemon_command_to_json`: command type, then workspace. */
  function DaemonCommandToJson(c: DaemonCommand): Outcome<Json> {
    if CommandTypeToString(c.commandType).None? then Failure("Encountered unknown reSync daemon command")
    else if c.workspace.None? then Failure("resync_daemon_command struct is missing a value for the workspace information")
    else match WorkspaceToJson(c.workspace.value)
      case Failure(m) => Failure(m)
      case Success(w) =>
        Success(JObject([Member(CommandTypeKey, JString(CommandTypeToString(c.commandType).value)),
                         Member(CommandWorkspaceKey, w)]))
  }

  // ----------------------------------------------------------- properties

  /** What the serialiser demands of one remote system. */
  predicate SerialisableRemote(r: Remote) {
    r.rootPath.Some? && SerialisableConnection(r.connection)
  }

  /** What the serialiser demands of the connection information. */
  predicate SerialisableConnection(c: Connection) {
    match c
    case Ssh(i) => i.Some? && i.value.hostname.Some?
    case HostAlias(a) => a.Some?
    case RsyncDaemon(i) => i.Some? && i.value.hostname.Some? && i.value.port <= MAX_PORT_NUMBER
    case OtherConnection => false
  }

  /** A serialisable remote that also survives the round trip: its rsync
      port, if any, is -1 or a real port. */
  predicate CanonicalRemote(r: Remote) {
    SerialisableRemote(r) && (r.connection.RsyncDaemon? ==> r.connection.rsync.value.port >= NO_PORT)
  }

  /** SSH information serialises exactly when it has a hostname, and parsing
      gives it back. */
  lemma SshRoundTrip(i: SshInfo)
    ensures SshToJson(Some(i)).Success? <==> i.hostname.Some?
    ensures SshToJson(Some(i)).Success? ==> ExtractSsh(SshToJson(Some(i)).value) == Success(i)
  {
    if i.hostname.Some? {
      var ms1 := OptionalString(UsernameKey, i.username);
      var ms2 := OptionalString(IdentityFileKey, i.identityFile);
      var ms3 := [Member(HostnameKey, JString(i.hostname.value))];
      assert SshToJson(Some(i)).value.members == (ms1 + ms2) + ms3;
      assert GetMember((ms1 + ms2) + ms3, HostnameKey) == Some(JString(i.hostname.value)) by {
        GetMemberConcat(ms1 + ms2, ms3, HostnameKey);
        GetMemberConcat(ms1, ms2, HostnameKey);
        GetOptionalString(UsernameKey, i.username, HostnameKey);
        GetOptionalString(IdentityFileKey, i.identityFile, HostnameKey);
      }
      assert StringValue(GetMember((ms1 + ms2) + ms3, UsernameKey)) == i.username by {
        GetMemberConcat(ms1 + ms2, ms3, UsernameKey);
        GetMemberConcat(ms1, ms2, UsernameKey);
        GetOptionalString(UsernameKey, i.username, UsernameKey);
        GetOptionalString(IdentityFileKey, i.identityFile, UsernameKey);
      }
      assert StringValue(GetMember((ms1 + ms2) + ms3, IdentityFileKey)) == i.identityFile by {
        GetMemberConcat(ms1 + ms2, ms3, IdentityFileKey);
        GetMemberConcat(ms1, ms2, IdentityFileKey);
        GetOptionalString(UsernameKey, i.username, IdentityFileKey);
        GetOptionalString(IdentityFileKey, i.identityFile, IdentityFileKey);
      }
    }
  }

  /** A port member that is not a string or a number passes the string
      check, and its `valueint` is taken as the port: true gives port 1,
      false, null, an object or an array give port 0. */
  lemma RsyncLiteralPorts(host: string, port: Json)
    requires !port.JString? && !port.JNumber?
    ensures ExtractRsync(JObject([Member(HostnameKey, JString(host)), Member(PortKey, port)]))
      == Success(RsyncInfo(None, Some(host), if port.JTrue? then 1 else 0))
  {
    var ms := [Member(HostnameKey, JString(host)), Member(PortKey, port)];
    assert ms[1..] == [Member(PortKey, port)] && ms[1..][1..] == [];
    assert GetMember(ms[1..], UsernameKey) == None;
    assert GetMember(ms[1..], PortKey) == Some(port);
    assert GetMember(ms, HostnameKey) == Some(JString(host)) && GetMember(ms, PortKey) == Some(port);
  }

  /** Rsync-daemon information serialises exactly when it has a hostname and
      its port is at most 65535. Parsing gives back the port when it is -1 or
      a real port; any other negative port comes back as -1. */
  lemma RsyncRoundTrip(i: RsyncInfo)
    ensures RsyncToJson(Some(i)).Success? <==> i.hostname.Some? && i.port <= MAX_PORT_NUMBER
    ensures RsyncToJson(Some(i)).Success? ==>
      ExtractRsync(RsyncToJson(Some(i)).value) == Success(if i.port >= MIN_PORT_NUMBER then i else i.(port := NO_PORT))
  {
    if RsyncToJson(Some(i)).Success? {
      var ms1 := OptionalString(UsernameKey, i.username);
      var ms2: seq<Member> := if i.port >= MIN_PORT_NUMBER then [Member(PortKey, JNumber(i.port))] else [];
      var ms3 := [Member(HostnameKey, JString(i.hostname.value))];
      assert RsyncToJson(Some(i)).value.members == (ms1 + ms2) + ms3;
      assert GetMember((ms1 + ms2) + ms3, HostnameKey) == Some(JString(i.hostname.value)) by {
        GetMemberConcat(ms1 + ms2, ms3, HostnameKey);
        GetMemberConcat(ms1, ms2, HostnameKey);
        GetOptionalString(UsernameKey, i.username, HostnameKey);
      }
      assert StringValue(GetMember((ms1 + ms2) + ms3, UsernameKey)) == i.username by {
        GetMemberConcat(ms1 + ms2, ms3, UsernameKey);
        GetMemberConcat(ms1, ms2, UsernameKey);
        GetOptionalString(UsernameKey, i.username, UsernameKey);
      }
      assert GetMember((ms1 + ms2) + ms3, PortKey) == (if i.port >= MIN_PORT_NUMBER then Some(JNumber(i.port)) else None) by {
        GetMemberConcat(ms1 + ms2, ms3, PortKey);
        GetMemberConcat(ms1, ms2, PortKey);
        GetOptionalString(UsernameKey, i.username, PortKey);
      }
    }
  }

  /** The connection information serialises exactly when it is
      serialisable. */
  lemma ConnectionAccepted(c: Connection)
    ensures ConnectionToJson(c).Success? <==> SerialisableConnection(c)
  {
    match c {
      case Ssh(i) => if i.Some? { SshRoundTrip(i.value); }
      case RsyncDaemon(i) => if i.Some? { RsyncRoundTrip(i.value); }
      case _ =>
    }
  }

  /** Serialisable connection information, with an rsync port of -1 or
      more, is parsed back under its type unchanged. */
  lemma ConnectionRoundTrip(c: Connection)
    requires SerialisableConnection(c) && (c.RsyncDaemon? ==> c.rsync.value.port >= NO_PORT)
    ensures ConnectionToJson(c).Success?
    ensures ConnectionFromJson(TypeOf(c), ConnectionToJson(c).value) == Success(c)
  {
    match c {
      case Ssh(i) => SshRoundTrip(i.value);
      case RsyncDaemon(i) => RsyncRoundTrip(i.value);
      case _ =>
    }
  }

  /** One remote serialises exactly when it is serialisable. */
  lemma RemoteAccepted(r: Remote)
    ensures RemoteToJson(r).Success? <==> SerialisableRemote(r)
  {
    ConnectionAccepted(r.connection);
  }

  /** Parsing what a canonical remote serialises to gives it back. */
  lemma RemoteRoundTrip(r: Remote)
    ensures CanonicalRemote(r) ==> RemoteFromJson(RemoteToJson(r).value) == Success(r)
  {
    if CanonicalRemote(r) {
      ConnectionRoundTrip(r.connection);
      var info := ConnectionToJson(r.connection).value;
      var j := RemoteToJson(r).value;
      var m1 := Member(RemoteRootKey, JString(r.rootPath.value));
      var m2 := Member(ConnectionTypeKey, JString(ConnectionTypeToString(TypeOf(r.connection)).value));
      var m3 := Member(ConnectionInfoKey, info);
      assert j == JObject([m1, m2, m3]);
      GetMemberOfSmall(m1, m2, m3, RemoteRootKey);
      GetMemberOfSmall(m1, m2, m3, ConnectionTypeKey);
      GetMemberOfSmall(m1, m2, m3, ConnectionInfoKey);
      ConnectionTypeRoundTrip(TypeOf(r.connection));
    }
  }

  /** A list of remotes serialises exactly when every remote does, into one
      array entry per remote. */
  lemma {:induction false} RemotesSerialiseEach(remotes: seq<Remote>)
    ensures RemotesToJson(remotes).Success? <==> forall i :: 0 <= i < |remotes| ==> RemoteToJson(remotes[i]).Success?
    ensures RemotesToJson(remotes).Success? ==> |RemotesToJson(remotes).value| == |remotes|
  {
    if remotes != [] {
      RemotesSerialiseEach(remotes[1..]);
      assert forall i :: 1 <= i < |remotes| ==> remotes[i] == remotes[1..][i - 1];
    }
  }

  /** A list of remotes serialises exactly when every remote is
      serialisable, into one array entry per remote. */
  lemma RemotesAccepted(remotes: seq<Remote>)
    ensures RemotesToJson(remotes).Success? <==> forall i :: 0 <= i < |remotes| ==> SerialisableRemote(remotes[i])
    ensures RemotesToJson(remotes).Success? ==> |RemotesToJson(remotes).value| == |remotes|
  {
    RemotesSerialiseEach(remotes);
    forall i | 0 <= i < |remotes| {
      RemoteAccepted(remotes[i]);
    }
  }

  /** When every remote serialises and parses back to itself, so does the
      list, in order. */
  lemma {:induction false} RemotesParseBack(remotes: seq<Remote>)
    requires forall i :: 0 <= i < |remotes| ==>
      RemoteToJson(remotes[i]).Success? && RemoteFromJson(RemoteToJson(remotes[i]).value) == Success(remotes[i])
    ensures RemotesToJson(remotes).Success? && RemotesFromJson(RemotesToJson(remotes).value) == Success(remotes)
  {
    if remotes != [] {
      assert forall i :: 0 <= i < |remotes[1..]| ==> remotes[1..][i] == remotes[i + 1];
      RemotesParseBack(remotes[1..]);
      var items := RemotesToJson(remotes).value;
      assert items[1..] == RemotesToJson(remotes[1..]).value;
      HeadTail(remotes);
    }
  }

  /** A list of canonical remotes serialises, and parsing the entries gives
      the list back, in order. */
  lemma RemotesRoundTrip(remotes: seq<Remote>)
    ensures (forall i :: 0 <= i < |remotes| ==> CanonicalRemote(remotes[i])) ==>
      RemotesToJson(remotes).Success? && RemotesFromJson(RemotesToJson(remotes).value) == Success(remotes)
  {
    if forall i :: 0 <= i < |remotes| ==> CanonicalRemote(remotes[i]) {
      forall i | 0 <= i < |remotes|
        ensures RemoteToJson(remotes[i]).Success? && RemoteFromJson(RemoteToJson(remotes[i]).value) == Success(remotes[i])
      {
        RemoteAccepted(remotes[i]);
        RemoteRoundTrip(remotes[i]);
      }
      RemotesParseBack(remotes);
    }
  }

  /** What the daemon-command serialiser demands, and what survives the
      round trip. */
  predicate CanonicalWorkspace(ws: WorkspaceInformation) {
    ws.localRoot.Some? && |ws.remotes| > 0 && forall i :: 0 <= i < |ws.remotes| ==> CanonicalRemote(ws.remotes[i])
  }

  /** A workspace serialises exactly when it has a local root and at least
      one remote, each serialisable; a canonical workspace parses back to
      itself. */
  lemma WorkspaceRoundTrip(ws: WorkspaceInformation)
    ensures WorkspaceToJson(ws).Success? <==>
      ws.localRoot.Some? && |ws.remotes| > 0 && forall i :: 0 <= i < |ws.remotes| ==> SerialisableRemote(ws.remotes[i])
    ensures CanonicalWorkspace(ws) ==> WorkspaceFromJson(WorkspaceToJson(ws).value) == Success(ws)
  {
    RemotesAccepted(ws.remotes);
    RemotesRoundTrip(ws.remotes);
    if CanonicalWorkspace(ws) {
      var j := WorkspaceToJson(ws).value;
      var items := RemotesToJson(ws.remotes).value;
      var m1 := Member(LocalRootKey, JString(ws.localRoot.value));
      var m2 := Member(RemoteSystemsKey, JArray(items));
      assert j == JObject([m1, m2]);
      GetMemberOfSmall(m1, m2, m2, LocalRootKey);
      GetMemberOfSmall(m1, m2, m2, RemoteSystemsKey);
      assert RemoteEntries(j) == items;
    }
  }

  /** A daemon command with a named type and a canonical workspace
      serialises, and parsing the result gives the command back. */
  lemma DaemonCommandRoundTrip(c: DaemonCommand)
    ensures DaemonCommandToJson(c).Success? <==>
      c.commandType != OtherCommand && c.workspace.Some? && WorkspaceToJson(c.workspace.value).Success?
    ensures c.commandType != OtherCommand && c.workspace.Some? && CanonicalWorkspace(c.workspace.value) ==>
      DaemonCommandToJson(c).Success? && DaemonCommandFromJson(DaemonCommandToJson(c).value) == Success(c)
  {
    CommandTypeRoundTrip(c.commandType);
    if c.commandType != OtherCommand && c.workspace.Some? && CanonicalWorkspace(c.workspace.value) {
      WorkspaceRoundTrip(c.workspace.value);
      var j := DaemonCommandToJson(c).value;
      var m1 := Member(CommandTypeKey, JString(CommandTypeToString(c.commandType).value));
      var m2 := Member(CommandWorkspaceKey, WorkspaceToJson(c.workspace.value).value);
      assert j == JObject([m1, m2]);
      GetMemberOfSmall(m1, m2, m2, CommandTypeKey);
      GetMemberOfSmall(m1, m2, m2, CommandWorkspaceKey);
    }
  }
}
