/** The enum <-> string mappers of src/types/mappers/enum_mappers.c.
    src/types.c carries an older copy of the same four mappers (with the same
    strings and the same order of comparisons); both are modelled by this
    module. A string matches a name only when it is present, agrees with the
    name on the name's length and has that length, i.e. when it equals it. */
module Enums {
  import opened Wrappers

  datatype ConnectionType = OtherConnectionType | SshType | SshHostAliasType | RsyncDaemonType

  datatype CommandType = OtherCommand | AddWorkspace | AddRemoteSystem | RemoveWorkspace | RemoveRemoteSystem

  const SSH_NAME: string := "SSH"
  const SSH_HOST_ALIAS_NAME: string := "SSH_HOST_ALIAS"
  const RSYNC_DAEMON_NAME: string := "RSYNC_DAEMON"

  const ADD_WORKSPACE_NAME: string := "add-workspace"
  const REMOVE_WORKSPACE_NAME: string := "remove-workspace"
  const ADD_REMOTE_SYSTEM_NAME: string := "add-remote-system"
  const REMOVE_REMOTE_SYSTEM_NAME: string := "remove-remote-system"

  /** `string_to_connection_type`: unknown strings and NULL map to OTHER. */
  function StringToConnectionType(s: Option<string>): (t: ConnectionType)
  {
    if s == Some(SSH_NAME) then SshType
    else if s == Some(SSH_HOST_ALIAS_NAME) then SshHostAliasType
    else if s == Some(RSYNC_DAEMON_NAME) then RsyncDaemonType
    else OtherConnectionType
  }

  /** `connection_type_to_string`: OTHER has no name (NULL). */
  function ConnectionTypeToString(t: ConnectionType): (s: Option<string>)
  {
    match t
    case SshType => Some(SSH_NAME)
    case SshHostAliasType => Some(SSH_HOST_ALIAS_NAME)
    case RsyncDaemonType => Some(RSYNC_DAEMON_NAME)
    case OtherConnectionType => None
  }

  /** `string_to_resync_server_command_type`. */
  function StringToCommandType(s: Option<string>): (t: CommandType)
  {
    if s == Some(ADD_WORKSPACE_NAME) then AddWorkspace
    else if s == Some(ADD_REMOTE_SYSTEM_NAME) then AddRemoteSystem
    else if s == Some(REMOVE_WORKSPACE_NAME) then RemoveWorkspace
    else if s == Some(REMOVE_REMOTE_SYSTEM_NAME) then RemoveRemoteSystem
    else OtherCommand
  }

  /** `resync_server_command_type_to_string`. */
  function CommandTypeToString(t: CommandType): (s: Option<string>)
  {
    match t
    case AddWorkspace => Some(ADD_WORKSPACE_NAME)
    case RemoveWorkspace => Some(REMOVE_WORKSPACE_NAME)
    case AddRemoteSystem => Some(ADD_REMOTE_SYSTEM_NAME)
    case RemoveRemoteSystem => Some(REMOVE_REMOTE_SYSTEM_NAME)
    case OtherCommand => None
  }

  /** Every connection type but OTHER has a name, and parsing the name gives
      the type back; OTHER alone has none. */
  lemma ConnectionTypeRoundTrip(t: ConnectionType)
    ensures ConnectionTypeToString(t).None? <==> t == OtherConnectionType
    ensures t != OtherConnectionType ==> StringToConnectionType(ConnectionTypeToString(t)) == t
  {
  }

  /** A string that parses to a real connection type is that type's name:
      no other spelling is accepted. */
  lemma ConnectionTypeNameRoundTrip(s: Option<string>)
    ensures StringToConnectionType(s) != OtherConnectionType ==>
      ConnectionTypeToString(StringToConnectionType(s)) == s
    ensures StringToConnectionType(s) != OtherConnectionType <==>
      s in {Some(SSH_NAME), Some(SSH_HOST_ALIAS_NAME), Some(RSYNC_DAEMON_NAME)}
  {
  }

  /** Every command type but OTHER has a name, and parsing it gives the
      type back; OTHER alone has none. */
  lemma CommandTypeRoundTrip(t: CommandType)
    ensures CommandTypeToString(t).None? <==> t == OtherCommand
    ensures t != OtherCommand ==> StringToCommandType(CommandTypeToString(t)) == t
  {
  }

  /** A string that parses to a real command is that command's name. */
  lemma CommandTypeNameRoundTrip(s: Option<string>)
    ensures StringToCommandType(s) != OtherCommand ==> CommandTypeToString(StringToCommandType(s)) == s
    ensures StringToCommandType(s) != OtherCommand <==>
      s in {Some(ADD_WORKSPACE_NAME), Some(ADD_REMOTE_SYSTEM_NAME), Some(REMOVE_WORKSPACE_NAME),
            Some(REMOVE_REMOTE_SYSTEM_NAME)}
  {
  }

  /** The names are pairwise distinct, so both mappers are injective on the
      named values. */
  lemma NamesDistinct(t1: ConnectionType, t2: ConnectionType, c1: CommandType, c2: CommandType)
    ensures ConnectionTypeToString(t1).Some? && ConnectionTypeToString(t1) == ConnectionTypeToString(t2) ==> t1 == t2
    ensures CommandTypeToString(c1).Some? && CommandTypeToString(c1) == CommandTypeToString(c2) ==> c1 == c2
  {
  }
}
