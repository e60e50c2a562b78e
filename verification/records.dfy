/** The workspace records the mappers translate (src/types/types.h and the
    older src/types.h). A NULL pointer field is `None`. The union of
    connection information is tagged by the connection type, so a connection
    carries the member of the union its type selects. */
module Records {
  import opened Wrappers
  import opened Enums

  datatype SshInfo = SshInfo(username: Option<string>, hostname: Option<string>, identityFile: Option<string>)

  datatype RsyncInfo = RsyncInfo(username: Option<string>, hostname: Option<string>, port: int)

  datatype Connection =
    | Ssh(ssh: Option<SshInfo>)
    | HostAlias(alias: Option<string>)
    | RsyncDaemon(rsync: Option<RsyncInfo>)
    | OtherConnection

  datatype Remote = Remote(rootPath: Option<string>, connection: Connection)

  datatype WorkspaceInformation = WorkspaceInformation(localRoot: Option<string>, remotes: seq<Remote>)

  /** The `connection_type` field of a remote. */
  function TypeOf(c: Connection): ConnectionType {
    match c
    case Ssh(_) => SshType
    case HostAlias(_) => SshHostAliasType
    case RsyncDaemon(_) => RsyncDaemonType
    case OtherConnection => OtherConnectionType
  }

  /** The smallest and largest port the mappers accept. */
  const MIN_PORT_NUMBER: int := 0
  const MAX_PORT_NUMBER: int := 65535
}
