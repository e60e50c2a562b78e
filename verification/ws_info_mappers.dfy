/** The WorkspaceInformation <-> JSON mappers of
    src/types/mappers/ws_info_mappers.c. A mapper that returns NULL after
    setting `*error_msg` yields `Failure`. The filesystem checks read `probe`. */
module WsInfoMappers {
  import opened Wrappers
  import opened Paths
  import opened Enums
  import opened Json
  import opened Records

  // ------------------------------------------------------------------ SSH

  /** `sshConnectionInformation_to_cJSON`: hostname required; username
      copied when set; an identity file must be absolute and exist. */
  function SshToJson(info: Option<SshInfo>, files: set<string>): Outcome<Json> {
    if info.None? then Failure("SSH connection information is missing!")
    else
      var i := info.value;
      if i.hostname.None? then Failure("SSH connection info is missing the hostname information!")
      else if i.identityFile.Some? && !ValidateAbsolutePath(i.identityFile) then Failure("Identity file path is not absolute")
      else if i.identityFile.Some? && !FileExists(i.identityFile, files) then Failure("Identity file does not exist!")
      else Success(JObject([Member(HostnameKey, JString(i.hostname.value))]
                           + OptionalString(UsernameKey, i.username)
                           + OptionalString(IdentityFileKey, i.identityFile)))
  }

  /** `cjson_to_sshConnectionInformation`: the same three members, with the
      same checks on the identity file. */
  function SshFromJson(j: Json, files: set<string>): Outcome<SshInfo> {
    var host := StringValue(Get(j, HostnameKey));
    var user := StringValue(Get(j, UsernameKey));
    var identity := StringValue(Get(j, IdentityFileKey));
    if host.None? then Failure("Key 'hostname' is missing")
    else if identity.Some? && !ValidateAbsolutePath(identity) then Failure("Identity file path is not absolute")
    else if identity.Some? && !FileExists(identity, files) then Failure("Identity file does not exist!")
    else Success(SshInfo(user, host, identity))
  }

  // --------------------------------------------------------- rsync daemon

  /** `rsyncConnectionInformation_to_cJSON`: hostname required; port 0 means
      "no port" and is left out; any other port must lie in [0, 65535]. */
  function RsyncToJson(info: Option<RsyncInfo>): Outcome<Json> {
    if info.None? then Failure("Rsync connection information is missing!")
    else
      var i := info.value;
      if i.hostname.None? then Failure("Rsync connection information is missing the hostname!")
      else if i.port != 0 && !(MIN_PORT_NUMBER <= i.port <= MAX_PORT_NUMBER) then Failure("Port is not a positive integer in the range")
      else Success(JObject([Member(HostnameKey, JString(i.hostname.value))]
                           + OptionalString(UsernameKey, i.username)
                           + (if i.port != 0 then [Member(PortKey, JNumber(i.port))] else [])))
  }

  /** `cjson_to_rsyncConnectionInformation`: hostname required; a port given
      as a string, or outside [0, 65535], is refused; no port leaves 0. */
  function RsyncFromJson(j: Json): Outcome<RsyncInfo> {
    var host := StringValue(Get(j, HostnameKey));
    var user := StringValue(Get(j, UsernameKey));
    var port := Get(j, PortKey);
    if host.None? then Failure("Key 'hostname' is missing")
    else if port.Some? && port.value.JString? then Failure("Specified port value is not a valid integer")
    else if port.Some? && !(MIN_PORT_NUMBER <= ValueInt(port.value) <= MAX_PORT_NUMBER) then
      Failure("Specified port value is not a valid integer in the range")
    else Success(RsyncInfo(user, host, if port.Some? then ValueInt(port.value) else 0))
  }

  // ------------------------------------------------------- SSH host alias

  /** `sshHostAliasConnectionInformation_to_cJSON`. */
  function AliasToJson(alias: Option<string>): Outcome<Json> {
    if alias.None? then Failure("SSH host alias information is missing!")
    else Success(JObject([Member(HostAliasKey, JString(alias.value))]))
  }

  /** `cjson_to_sshHostAliasConnectionInformation`. */
  function AliasFromJson(j: Json): Outcome<string> {
    var alias := StringValue(Get(j, HostAliasKey));
    if alias.None? then Failure("Key 'ssh host alias' is missing") else Success(alias.value)
  }

  // ------------------------------------------------------- remote systems

  /** The `switch` of `remoteWorkspaceMetadata_to_cjson`: the connection
      information of the remote's type as JSON. */
  function ConnectionToJson(c: Connection, files: set<string>): Outcome<Json> {
    match c
    case Ssh(i) => SshToJson(i, files)
    case HostAlias(a) => AliasToJson(a)
    case RsyncDaemon(i) => RsyncToJson(i)
    case OtherConnection => Failure("RemoteWorkspaceMetadata struct specifies an unsupported connection type!")
  }

  /** `remoteWorkspaceMetadata_to_cjson`: root path required and absolute,
      connection type named, connection information mapped; the object holds
      root path, type and information in that order. */
  function RemoteToJson(r: Remote, files: set<string>): Outcome<Json> {
    if r.rootPath.None? then Failure("RemoteWorkspaceMetadata does not specify a value for the remote workspace root path!")
    else if !ValidateAbsolutePath(r.rootPath) then Failure("Remote path is not absolute")
    else if ConnectionTypeToString(TypeOf(r.connection)).None? then
      Failure("RemoteWorkspaceMetadata struct specifies an unsupported connection type!")
    else match ConnectionToJson(r.connection, files)
      case Failure(m) => Failure(m)
      case Success(infoJson) =>
        Success(JObject([Member(RemoteRootKey, JString(r.rootPath.value)),
                         Member(ConnectionTypeKey, JString(ConnectionTypeToString(TypeOf(r.connection)).value)),
                         Member(ConnectionInfoKey, infoJson)]))
  }

  /** `cjson_to_remoteWorkspaceMetadata`. */
  function RemoteFromJson(j: Json, files: set<string>): Outcome<Remote> {
    var root := StringValue(Get(j, RemoteRootKey));
    var typeName := StringValue(Get(j, ConnectionTypeKey));
    var info := Get(j, ConnectionInfoKey);
    if root.None? then Failure("Key 'remote workspace root path' is missing")
    else if !ValidateAbsolutePath(root) then Failure("Remote workspace path is not absolute")
    else if typeName.None? then Failure("Key 'connection type' is missing")
    else if StringToConnectionType(typeName) == OtherConnectionType then Failure("Unsupported connection type is specified")
    else if info.None? then Failure("Key 'connection information' is missing")
    else match ConnectionFromJson(StringToConnectionType(typeName), info.value, files)
      case Failure(m) => Failure(m)
      case Success(c) => Success(Remote(root, c))
  }

  /** The `switch` of `cjson_to_remoteWorkspaceMetadata` on the connection
      type: the connection information parsed for that type. */
  function ConnectionFromJson(t: ConnectionType, info: Json, files: set<string>): Outcome<Connection> {
    match t
    case SshType => (match SshFromJson(info, files)
      case Failure(m) => Failure(m)
      case Success(i) => Success(Ssh(Some(i))))
    case SshHostAliasType => (match AliasFromJson(info)
      case Failure(m) => Failure(m)
      case Success(a) => Success(HostAlias(Some(a))))
    case RsyncDaemonType => (match RsyncFromJson(info)
      case Failure(m) => Failure(m)
      case Success(i) => Success(RsyncDaemon(Some(i))))
    case OtherConnectionType => Failure("Unsupported connection type is specified")
  }

  /** The array entries for `remotes`, stopping at the first that fails. */
  function RemotesToJson(remotes: seq<Remote>, files: set<string>): Outcome<seq<Json>> {
    if remotes == [] then Success([])
    else match RemoteToJson(remotes[0], files)
      case Failure(m) => Failure(m)
      case Success(j) => Prefixed([j], RemotesToJson(remotes[1..], files))
  }

  /** The remotes parsed from array entries, stopping at the first failure. */
  function RemotesFromJson(items: seq<Json>, files: set<string>): Outcome<seq<Remote>> {
    if items == [] then Success([])
    else match RemoteFromJson(items[0], files)
      case Failure(m) => Failure(m)
      case Success(r) => Prefixed([r], RemotesFromJson(items[1..], files))
  }

  // ------------------------------------------------------------ workspace

  const NO_REMOTES_TO_JSON: string := "WorkspaceInformation struct does not contain any remote system definitions!"
  const NO_REMOTES_FROM_JSON: string := "Workspace does not define any remote systems"

  /** `workspaceInformation_to_cjson`: the local root must be an absolute
      path of an existing directory, and there must be at least one remote. */
  function WorkspaceToJson(ws: WorkspaceInformation, probe: Probe): Outcome<Json> {
    if ws.localRoot.None? then Failure("WorkspaceInformation struct does not specify a value for the local workspace root path!")
    else if !ValidateAbsolutePath(ws.localRoot) then Failure("Local workspace root path is not absolute")
    else if !DirectoryExists(ws.localRoot, probe.directories) then Failure("Workspace with absolute path does not exist!")
    else match RemotesToJson(ws.remotes, probe.files)
      case Failure(m) => Failure(m)
      case Success(items) =>
        if |ws.remotes| == 0 then Failure(NO_REMOTES_TO_JSON)
        else Success(JObject([Member(LocalRootKey, JString(ws.localRoot.value)), Member(RemoteSystemsKey, JArray(items))]))
  }

  /** `cjson_to_workspaceInformation`: the local root is required but not
      checked; the remote-systems member is required and must yield at least
      one remote. */
  function WorkspaceFromJson(j: Json, files: set<string>): Outcome<WorkspaceInformation> {
    var local := StringValue(Get(j, LocalRootKey));
    var remotes := Get(j, RemoteSystemsKey);
    if local.None? then Failure("Key 'local workspace root path' is missing")
    else if remotes.None? then Failure(NO_REMOTES_FROM_JSON)
    else match RemotesFromJson(Children(remotes.value), files)
      case Failure(m) => Failure(m)
      case Success(rs) =>
        if |Children(remotes.value)| == 0 then Failure(NO_REMOTES_FROM_JSON)
        else Success(WorkspaceInformation(local, rs))
  }

  /** `workspaceInformation_to_cjson` with its `LL_FOREACH` loop. */
  method SerialiseWorkspace(ws: WorkspaceInformation, probe: Probe) returns (r: Outcome<Json>)
    ensures r == WorkspaceToJson(ws, probe)
  {
    if ws.localRoot.None? {
      return Failure("WorkspaceInformation struct does not specify a value for the local workspace root path!");
    }
    if !ValidateAbsolutePath(ws.localRoot) {
      return Failure("Local workspace root path is not absolute");
    }
    if !DirectoryExists(ws.localRoot, probe.directories) {
      return Failure("Workspace with absolute path does not exist!");
    }
    var items := SerialiseRemotes(ws.remotes, probe.files);
    if items.Failure? {
      return Failure(items.message);
    }
    if |ws.remotes| == 0 {
      return Failure(NO_REMOTES_TO_JSON);
    }
    r := Success(JObject([Member(LocalRootKey, JString(ws.localRoot.value)), Member(RemoteSystemsKey, JArray(items.value))]));
  }

  /** The `LL_FOREACH` loop of `workspaceInformation_to_cjson`: each remote
      mapped and appended to the array, stopping at the first failure. */
  method SerialiseRemotes(remotes: seq<Remote>, files: set<string>) returns (r: Outcome<seq<Json>>)
    ensures r == RemotesToJson(remotes, files)
  {
    var items: seq<Json> := [];
    var counter := 0;
    assert remotes[counter..] == remotes;
    PrefixedNothing(RemotesToJson(remotes, files));
    while counter < |remotes|
      invariant 0 <= counter <= |remotes|
      invariant RemotesToJson(remotes, files) == Prefixed(items, RemotesToJson(remotes[counter..], files))
    {
      assert remotes[counter..][1..] == remotes[counter + 1..];
      var entry := RemoteToJson(remotes[counter], files);
      if entry.Failure? {
        return Failure(entry.message);
      }
      PrefixedStep(items, entry.value, RemotesToJson(remotes[counter + 1..], files));
      items := items + [entry.value];
      counter := counter + 1;
    }
    assert remotes[counter..] == [];
    assert items + [] == items;
    r := Success(items);
  }

  /** `cjson_to_workspaceInformation` with its `cJSON_ArrayForEach` loop. */
  method ParseWorkspace(j: Json, files: set<string>) returns (r: Outcome<WorkspaceInformation>)
    ensures r == WorkspaceFromJson(j, files)
  {
    var local := StringValue(Get(j, LocalRootKey));
    if local.None? {
      return Failure("Key 'local workspace root path' is missing");
    }
    var remoteSystems := Get(j, RemoteSystemsKey);
    if remoteSystems.None? {
      return Failure(NO_REMOTES_FROM_JSON);
    }
    var items := Children(remoteSystems.value);
    var remotes := ParseRemotes(items, files);
    if remotes.Failure? {
      return Failure(remotes.message);
    }
    if |items| == 0 {
      return Failure(NO_REMOTES_FROM_JSON);
    }
    r := Success(WorkspaceInformation(local, remotes.value));
  }

  /** The `cJSON_ArrayForEach` loop of `cjson_to_workspaceInformation`: each
      array entry parsed and appended, stopping at the first failure. */
  method ParseRemotes(items: seq<Json>, files: set<string>) returns (r: Outcome<seq<Remote>>)
    ensures r == RemotesFromJson(items, files)
  {
    var remotes: seq<Remote> := [];
    var counter := 0;
    assert items[counter..] == items;
    PrefixedNothing(RemotesFromJson(items, files));
    while counter < |items|
      invariant 0 <= counter <= |items|
      invariant RemotesFromJson(items, files) == Prefixed(remotes, RemotesFromJson(items[counter..], files))
    {
      assert items[counter..][1..] == items[counter + 1..];
      var entry := RemoteFromJson(items[counter], files);
      if entry.Failure? {
        return Failure(entry.message);
      }
      PrefixedStep(remotes, entry.value, RemotesFromJson(items[counter + 1..], files));
      remotes := remotes + [entry.value];
      counter := counter + 1;
    }
    assert items[counter..] == [];
    assert remotes + [] == remotes;
    r := Success(remotes);
  }

  // ----------------------------------------------------------- properties

  /** What the serialiser demands of one remote system. */
  predicate WellFormedRemote(r: Remote, files: set<string>) {
    r.rootPath.Some? && ValidateAbsolutePath(r.rootPath) && WellFormedConnection(r.connection, files)
  }

  /** What the serialiser demands of the connection information. */
  predicate WellFormedConnection(c: Connection, files: set<string>) {
    match c
    case Ssh(i) =>
      i.Some? && i.value.hostname.Some? &&
      (i.value.identityFile.Some? ==> ValidateAbsolutePath(i.value.identityFile) && FileExists(i.value.identityFile, files))
    case HostAlias(a) => a.Some?
    case RsyncDaemon(i) =>
      i.Some? && i.value.hostname.Some? && MIN_PORT_NUMBER <= i.value.port <= MAX_PORT_NUMBER
    case OtherConnection => false
  }

  /** What the serialiser demands of a workspace. */
  predicate WellFormed(ws: WorkspaceInformation, probe: Probe) {
    && ws.localRoot.Some? && ValidateAbsolutePath(ws.localRoot) && DirectoryExists(ws.localRoot, probe.directories)
    && |ws.remotes| > 0
    && forall i :: 0 <= i < |ws.remotes| ==> WellFormedRemote(ws.remotes[i], probe.files)
  }

  /** SSH information serialises exactly when it has a hostname and any
      identity file is an existing absolute path; parsing gives it back. */
  lemma SshRoundTrip(i: SshInfo, files: set<string>)
    ensures SshToJson(Some(i), files).Success? <==>
      i.hostname.Some? && (i.identityFile.Some? ==> ValidateAbsolutePath(i.identityFile) && FileExists(i.identityFile, files))
    ensures SshToJson(Some(i), files).Success? ==> SshFromJson(SshToJson(Some(i), files).value, files) == Success(i)
  {
    if SshToJson(Some(i), files).Success? {
      var ms1 := [Member(HostnameKey, JString(i.hostname.value))];
      var ms2 := OptionalString(UsernameKey, i.username);
      var ms3 := OptionalString(IdentityFileKey, i.identityFile);
      assert SshToJson(Some(i), files).value.members == ms1 + ms2 + ms3;
      GetMemberConcat(ms1 + ms2, ms3, HostnameKey);
      GetMemberConcat(ms1, ms2, HostnameKey);
      GetMemberConcat(ms1 + ms2, ms3, UsernameKey);
      GetMemberConcat(ms1, ms2, UsernameKey);
      GetMemberConcat(ms1 + ms2, ms3, IdentityFileKey);
      GetMemberConcat(ms1, ms2, IdentityFileKey);
      GetOptionalString(UsernameKey, i.username, HostnameKey);
      GetOptionalString(UsernameKey, i.username, IdentityFileKey);
      GetOptionalString(IdentityFileKey, i.identityFile, HostnameKey);
      GetOptionalString(IdentityFileKey, i.identityFile, UsernameKey);
    }
  }

  /** A port member that is not a string or a number passes the string
      check, and its `valueint` is taken as the port: true gives port 1,
      false, null, an object or an array give port 0. */
  lemma RsyncLiteralPorts(host: string, port: Json)
    requires !port.JString? && !port.JNumber?
    ensures RsyncFromJson(JObject([Member(HostnameKey, JString(host)), Member(PortKey, port)]))
      == Success(RsyncInfo(None, Some(host), if port.JTrue? then 1 else 0))
  {
    var ms := [Member(HostnameKey, JString(host)), Member(PortKey, port)];
    assert ms[1..] == [Member(PortKey, port)] && ms[1..][1..] == [];
    assert GetMember(ms[1..], UsernameKey) == None;
    assert GetMember(ms[1..], PortKey) == Some(port);
    assert GetMember(ms, HostnameKey) == Some(JString(host)) && GetMember(ms, PortKey) == Some(port);
  }

  /** Rsync-daemon information serialises exactly when it has a hostname and
      a port in [0, 65535]; parsing gives it back (port 0 travels as an
      absent member). */
  lemma RsyncRoundTrip(i: RsyncInfo)
    ensures RsyncToJson(Some(i)).Success? <==> i.hostname.Some? && MIN_PORT_NUMBER <= i.port <= MAX_PORT_NUMBER
    ensures RsyncToJson(Some(i)).Success? ==> RsyncFromJson(RsyncToJson(Some(i)).value) == Success(i)
  {
    if RsyncToJson(Some(i)).Success? {
      var j := RsyncToJson(Some(i)).value;
      var ms1 := [Member(HostnameKey, JString(i.hostname.value))];
      var ms2 := OptionalString(UsernameKey, i.username);
      var ms3: seq<Member> := if i.port != 0 then [Member(PortKey, JNumber(i.port))] else [];
      assert j.members == (ms1 + ms2) + ms3;
      assert StringValue(Get(j, HostnameKey)) == i.hostname by {
        GetMemberConcat(ms1 + ms2, ms3, HostnameKey);
        GetMemberConcat(ms1, ms2, HostnameKey);
      }
      assert StringValue(Get(j, UsernameKey)) == i.username by {
        GetMemberConcat(ms1 + ms2, ms3, UsernameKey);
        GetMemberConcat(ms1, ms2, UsernameKey);
        GetOptionalString(UsernameKey, i.username, UsernameKey);
      }
      assert Get(j, PortKey) == if i.port != 0 then Some(JNumber(i.port)) else None by {
        GetMemberConcat(ms1 + ms2, ms3, PortKey);
        GetMemberConcat(ms1, ms2, PortKey);
        GetOptionalString(UsernameKey, i.username, PortKey);
      }
    }
  }

  /** The connection information serialises exactly when it is well
      formed. */
  lemma ConnectionAccepted(c: Connection, files: set<string>)
    ensures ConnectionToJson(c, files).Success? <==> WellFormedConnection(c, files)
  {
    match c {
      case Ssh(i) => if i.Some? { SshRoundTrip(i.value, files); }
      case RsyncDaemon(i) => if i.Some? { RsyncRoundTrip(i.value); }
      case _ =>
    }
  }

  /** Connection information that serialises is parsed back under its type
      unchanged. */
  lemma ConnectionRoundTrip(c: Connection, files: set<string>)
    ensures ConnectionToJson(c, files).Success? ==>
      ConnectionFromJson(TypeOf(c), ConnectionToJson(c, files).value, files) == Success(c)
  {
    match c {
      case Ssh(i) => if i.Some? { SshRoundTrip(i.value, files); }
      case RsyncDaemon(i) => if i.Some? { RsyncRoundTrip(i.value); }
      case _ =>
    }
  }

  /** One remote serialises exactly when it is well formed. */
  lemma RemoteAccepted(r: Remote, files: set<string>)
    ensures RemoteToJson(r, files).Success? <==> WellFormedRemote(r, files)
  {
    ConnectionAccepted(r.connection, files);
  }

  /** Parsing what a remote serialises to gives the remote back. */
  lemma RemoteRoundTrip(r: Remote, files: set<string>)
    ensures RemoteToJson(r, files).Success? ==> RemoteFromJson(RemoteToJson(r, files).value, files) == Success(r)
  {
    if RemoteToJson(r, files).Success? {
      ConnectionRoundTrip(r.connection, files);
      var info := ConnectionToJson(r.connection, files).value;
      var j := RemoteToJson(r, files).value;
      var m1 := Member(RemoteRootKey, JString(r.rootPath.value));
      var m2 := Member(ConnectionTypeKey, JString(ConnectionTypeToString(TypeOf(r.connection)).value));
      var m3 := Member(ConnectionInfoKey, info);
      assert j == JObject([m1, m2, m3]);
      GetMemberOfSmall(m1, m2, m3, RemoteRootKey);
      GetMemberOfSmall(m1, m2, m3, ConnectionTypeKey);
      GetMemberOfSmall(m1, m2, m3, ConnectionInfoKey);
      ConnectionTypeRoundTrip(TypeOf(r.connection));
    }
  }

  /** A list of remotes serialises exactly when every remote does, into one
      array entry per remote. */
  lemma {:induction false} RemotesSerialiseEach(remotes: seq<Remote>, files: set<string>)
    ensures RemotesToJson(remotes, files).Success? <==> forall i :: 0 <= i < |remotes| ==> RemoteToJson(remotes[i], files).Success?
    ensures RemotesToJson(remotes, files).Success? ==> |RemotesToJson(remotes, files).value| == |remotes|
  {
    if remotes != [] {
      var head := RemoteToJson(remotes[0], files).Success?;
      var tail := RemotesToJson(remotes[1..], files);
      assert RemotesToJson(remotes, files).Success? <==> head && tail.Success?;
      assert RemotesToJson(remotes, files).Success? ==> |RemotesToJson(remotes, files).value| == 1 + |tail.value|;
      RemotesSerialiseEach(remotes[1..], files);
      assert forall i :: 1 <= i < |remotes| ==> remotes[i] == remotes[1..][i - 1];
    }
  }

  /** A list of remotes serialises exactly when every remote is well formed,
      into one array entry per remote. */
  lemma RemotesAccepted(remotes: seq<Remote>, files: set<string>)
    ensures RemotesToJson(remotes, files).Success? <==> forall i :: 0 <= i < |remotes| ==> WellFormedRemote(remotes[i], files)
    ensures RemotesToJson(remotes, files).Success? ==> |RemotesToJson(remotes, files).value| == |remotes|
  {
    RemotesSerialiseEach(remotes, files);
    forall i | 0 <= i < |remotes| {
      RemoteAccepted(remotes[i], files);
    }
  }

  /** Parsing the entries a list of remotes serialises to gives the remotes
      back, in order. */
  lemma {:induction false} RemotesRoundTrip(remotes: seq<Remote>, files: set<string>)
    ensures RemotesToJson(remotes, files).Success? ==>
      RemotesFromJson(RemotesToJson(remotes, files).value, files) == Success(remotes)
  {
    if remotes != [] && RemotesToJson(remotes, files).Success? {
      RemoteRoundTrip(remotes[0], files);
      RemotesRoundTrip(remotes[1..], files);
      var items := RemotesToJson(remotes, files).value;
      assert items[1..] == RemotesToJson(remotes[1..], files).value;
      HeadTail(remotes);
    }
  }

  /** Serialising succeeds exactly for well-formed workspaces, and parsing
      the result gives the workspace back. */
  lemma WorkspaceRoundTrip(ws: WorkspaceInformation, probe: Probe)
    ensures WorkspaceToJson(ws, probe).Success? <==> WellFormed(ws, probe)
    ensures WorkspaceToJson(ws, probe).Success? ==>
      WorkspaceFromJson(WorkspaceToJson(ws, probe).value, probe.files) == Success(ws)
  {
    RemotesAccepted(ws.remotes, probe.files);
    RemotesRoundTrip(ws.remotes, probe.files);
    if WorkspaceToJson(ws, probe).Success? {
      var j := WorkspaceToJson(ws, probe).value;
      var items := RemotesToJson(ws.remotes, probe.files).value;
      var m1 := Member(LocalRootKey, JString(ws.localRoot.value));
      var m2 := Member(RemoteSystemsKey, JArray(items));
      assert j == JObject([m1, m2]);
      GetMemberOfSmall(m1, m2, m2, LocalRootKey);
      GetMemberOfSmall(m1, m2, m2, RemoteSystemsKey);
      assert Children(JArray(items)) == items;
    }
  }

  /** A parsed remote always satisfies what the serialiser demands. */
  lemma ParsedRemoteWellFormed(j: Json, files: set<string>)
    ensures RemoteFromJson(j, files).Success? ==> WellFormedRemote(RemoteFromJson(j, files).value, files)
  {
  }

  /** Every remote of a parsed list is well formed and the list is as long
      as the array it came from. */
  lemma {:induction false} ParsedRemotesWellFormed(items: seq<Json>, files: set<string>)
    ensures RemotesFromJson(items, files).Success? ==>
      var rs := RemotesFromJson(items, files).value;
      |rs| == |items| && forall i :: 0 <= i < |rs| ==> WellFormedRemote(rs[i], files)
  {
    if items != [] {
      ParsedRemoteWellFormed(items[0], files);
      ParsedRemotesWellFormed(items[1..], files);
    }
  }

  /** The parser checks everything the serialiser checks except the local
      root: a parsed workspace serialises again exactly when its local root
      is an absolute path of an existing directory. */
  lemma ParsedWorkspaceReserialises(j: Json, probe: Probe)
    ensures WorkspaceFromJson(j, probe.files).Success? ==>
      var ws := WorkspaceFromJson(j, probe.files).value;
      (WorkspaceToJson(ws, probe).Success? <==>
        ValidateAbsolutePath(ws.localRoot) && DirectoryExists(ws.localRoot, probe.directories))
  {
    if WorkspaceFromJson(j, probe.files).Success? {
      var ws := WorkspaceFromJson(j, probe.files).value;
      ParsedRemotesWellFormed(Children(Get(j, RemoteSystemsKey).value), probe.files);
      WorkspaceRoundTrip(ws, probe);
    }
  }
}
