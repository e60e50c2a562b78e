# reSync in Dafny

reSync keeps local workspaces in step with copies on remote machines. A
client (`reSync`) turns command-line options into a daemon command. The
daemon keeps the list of workspaces in a JSON configuration file. For each
workspace, a watcher process registers an inotify watch on every directory
of the workspace. On every file-system event it updates its watch tables
and runs `rsync` towards each remote system.

This project models the core of that system and proves what it promises.
The modules are:

- `Strings`, `Paths`: the string helpers and the file-system helpers. These
  are `concat_paths`, the parent-path computation, the path and file
  checks, and the filtered subdirectory listing. The file system is a value:
  a tree of directories (`Dir`) and a `Probe` of existing paths.
- `Enums`, `Records`, `Json`, `Decimal`: the enum/string mappers, the
  workspace records, the part of cJSON the mappers use, and decimal
  numerals (`%d` and `strtol`).
- `TypesJson`, `WsInfoMappers`: the two generations of
  workspace-information/JSON mappers. Each has its serialiser, its parser,
  the array loops as methods, and the round trips between them.
- `Sync`: the rsync argument vector per remote system and per connection
  type, including the growable argument buffer as an array.
- `Options`: the client's option loop, per-connection-type validation,
  conversion to a daemon command, and `parse_options`.
- `Config`: the scan that decides whether the configuration file holds an
  empty JSON array.
- `WatchTables`, `EngineSpec`, `EngineTree`, `EngineRemoval`, `EngineEvents`,
  `Engine`:
  the current watcher.
  - `WatchTables` defines the two tables, path-to-record and
    handle-to-record, and the invariants they keep.
  - `EngineSpec` defines registration, removal and event handling as
    functions on the tables.
  - `EngineTree` proves that registration keeps the tables a tree: every
    record is listed by its parent, in both tables, exactly once.
  - `EngineRemoval` proves that removal on a tree of watched directories
    erases exactly the removed directory's subtree.
  - `EngineEvents` states, case by case, what an event does.
  - `Engine.WatchEngine` is a class whose fields are the tables and whose
    methods are the source's loops and recursion. Each method is proved to
    leave the state its specification function computes.
- `LegacyEngine`: the earlier watcher of `server/workspace.c`.

Fatal errors (`fatal_error`, `fatal_custom_error`, which end the process)
are the `Fatal` case of a `Result`. Functions that report failure through
`error_msg` and NULL return the `Failure` case of an `Outcome`.

## Model

| member | source | states |
|---|---|---|
| Strings.IsBlank | src/util/string.c:44-60 | the index loop answers exactly "every character is white space"; "" is blank and NULL is not |
| Strings.NotBlankWhenFirstIsVisible | src/util/string.c:44-60 | a string whose first character is not white space is never blank |
| Paths.Join | src/util/fs_util.c:29-46 | joining onto a present first path never fails and gives what `concat_paths` gives |
| Paths.LastSlash | src/util/fs_util.c:148-168 | `strrchr`: no index exactly when there is no '/'; otherwise the index of a '/' with none after it |
| Paths.ParentPathEdgeCases | src/util/fs_util.c:148-168 | the parent of NULL and of "/" is NULL; for any other path, failure happens exactly when the path has no '/' |
| Paths.ParentRoundTrip | src/util/fs_util.c:148-168 | for every path with a '/' other than "/", the parent followed by "/" and the last segment is the path again, and the last segment has no '/' |
| Paths.ParentOfJoin | src/util/fs_util.c:148-168 | the parent of "a/name" is "a" whenever `name` has no '/' |
| Paths.AbsolutePathExactly | src/util/fs_util.c:48-67 | a path is accepted exactly when it is non-NULL, non-empty and starts with '/' |
| Paths.FileExistsAsWrittenInverted | src/util/fs_util.c:85-98 | as written, the check accepts exactly the paths that do not exist; NULL is refused by both versions |
| Paths.FileExistsCounterexample | src/util/fs_util.c:92-94 | an existing identity file is refused as written and accepted by the corrected check |
| Paths.SubdirPath | src/util/fs_util.c:100-146 | a child's relative path is `concat_paths` of the directory's relative path and the name |
| Paths.SubdirectoriesOf | src/util/fs_util.c:100-146 | the readdir loop builds exactly the listing `SubdirsOf` describes, including its fatal case |
| Paths.SubdirsOfExactly | src/util/fs_util.c:115-135 | the listing is fatal exactly when a visible entry cannot be stat'ed; otherwise it holds exactly the visible subdirectories, with their relative paths |
| Paths.SubdirsOfInOrder | src/util/fs_util.c:115-135 | the listing has one element per visible subdirectory entry, and the entry at position i of the directory appears at the position given by the number of visible subdirectories before it: readdir order, no repeats |
| Enums.ConnectionTypeRoundTrip | src/types/mappers/enum_mappers.c:6-34 | every connection type except OTHER has a name, and that name parses back to the type |
| Enums.ConnectionTypeNameRoundTrip | src/types/mappers/enum_mappers.c:6-34 | a string parses to a real connection type exactly when it is one of the three names, and it is that type's name |
| Enums.CommandTypeRoundTrip | src/types/mappers/enum_mappers.c:36-67 | every command type except OTHER has a name that parses back to it |
| Enums.CommandTypeNameRoundTrip | src/types/mappers/enum_mappers.c:36-67 | a string parses to a real command exactly when it is that command's name |
| Enums.NamesDistinct | src/types/mappers/enum_mappers.c:20-67 | the names are pairwise distinct, so both to-string mappers are injective |
| Decimal.NatToDecimal | src/server/sync.c:69-75 | `%d` of a non-negative number is a non-empty string of digits |
| Decimal.DecimalRoundTrip | src/server/sync.c:69-75 | reading back what `%d` wrote gives the number, and there is no leading zero except for 0 |
| Decimal.Strtol | src/client/options.c:117-118 | where `strtol` stops reading always lies within the string |
| Decimal.StrtolReadsNumeral | src/client/options.c:117-132 | `strtol` reads a decimal numeral whole and gives its number |
| TypesJson.ParseWorkspace | src/types.c:331-381 | the `cJSON_ArrayForEach` loop gives exactly `WorkspaceFromJson`: the local root is required, the remotes come in order, and the first bad remote fails the whole parse |
| TypesJson.ParseRemotes | src/types.c:348-358 | the loop appends the parsed entries in array order and stops at the first entry that fails, giving exactly `RemotesFromJson` |
| TypesJson.SerialiseWorkspace | src/types.c:599-643 | the function gives exactly `WorkspaceToJson`: local root required, remotes mapped in order, at least one remote |
| TypesJson.SerialiseRemotes | src/types.c:619-630 | the `LL_FOREACH` loop appends the mapped remotes in list order and stops at the first that fails, giving exactly `RemotesToJson` |
| TypesJson.SshRoundTrip | src/types.c:153-182 | SSH information serialises exactly when it has a hostname, and parsing gives it back |
| TypesJson.RsyncRoundTrip | src/types.c:184-236 | rsync information serialises exactly when it has a hostname and a port no greater than 65535; parsing gives it back when the port is -1 or a real port, and any other negative port comes back as -1 |
| TypesJson.RsyncLiteralPorts | src/types.c:194-220 | a port member that is neither a string nor a number is read through its `valueint`: true gives port 1, any other gives port 0 |
| TypesJson.ConnectionAccepted | src/types.c:539-571 | the connection information serialises exactly when it is present with a hostname (and, for rsync, a port no greater than 65535), or is an alias; an unknown connection type never serialises |
| TypesJson.ConnectionRoundTrip | src/types.c:288-305 | serialisable connection information (rsync port not below -1) is parsed back under its own type unchanged |
| TypesJson.RemoteAccepted | src/types.c:527-584 | one remote serialises exactly when it has a root path and a named connection type whose information is present with a hostname (and, for rsync, a port no greater than 65535), or an alias |
| TypesJson.RemoteRoundTrip | src/types.c:250-318 | a canonical remote is parsed back from its JSON unchanged |
| TypesJson.RemotesAccepted | src/types.c:619-630 | a list serialises exactly when every remote is serialisable, with one array entry per remote |
| TypesJson.RemotesRoundTrip | src/types.c:348-358 | a list of canonical remotes serialises, and parsing its entries gives the same list back, in order |
| TypesJson.WorkspaceRoundTrip | src/types.c:599-643 | a workspace serialises exactly when it has a local root and at least one remote, each serialisable; canonical workspaces parse back unchanged |
| TypesJson.DaemonCommandRoundTrip | src/types.c:661-778 | a command serialises exactly when its type is named and its workspace is present and serialisable; such commands parse back unchanged |
| WsInfoMappers.SerialiseWorkspace | src/types/mappers/ws_info_mappers.c:481-543 | the function gives exactly `WorkspaceToJson`: an absolute, existing local root, remotes mapped in order, at least one remote |
| WsInfoMappers.SerialiseRemotes | src/types/mappers/ws_info_mappers.c:519-530 | the `LL_FOREACH` loop appends the mapped remotes in list order and stops at the first that fails, giving exactly `RemotesToJson` |
| WsInfoMappers.ParseWorkspace | src/types/mappers/ws_info_mappers.c:409-463 | the function gives exactly `WorkspaceFromJson`: local root and remote-systems member required, at least one remote |
| WsInfoMappers.ParseRemotes | src/types/mappers/ws_info_mappers.c:436-447 | the `cJSON_ArrayForEach` loop appends the parsed entries in array order and stops at the first that fails, giving exactly `RemotesFromJson` |
| WsInfoMappers.SshRoundTrip | src/types/mappers/ws_info_mappers.c:12-112 | SSH information serialises exactly when it has a hostname and any identity file exists; parsing gives it back |
| WsInfoMappers.RsyncRoundTrip | src/types/mappers/ws_info_mappers.c:114-220 | rsync information serialises exactly when it has a hostname and a port in [0, 65535]; parsing gives it back |
| WsInfoMappers.RsyncLiteralPorts | src/types/mappers/ws_info_mappers.c:180-211 | a port member that is neither a string nor a number is read through its `valueint`: true gives port 1, any other gives port 0 |
| WsInfoMappers.ConnectionAccepted | src/types/mappers/ws_info_mappers.c:286-306 | the connection information serialises exactly when it is well formed: SSH with a hostname and any identity file an existing absolute path, an alias, or rsync with a hostname and a port in [0, 65535]; an unknown type never serialises |
| WsInfoMappers.ConnectionRoundTrip | src/types/mappers/ws_info_mappers.c:374-392 | connection information that serialises is parsed back under its own type unchanged |
| WsInfoMappers.RemoteAccepted | src/types/mappers/ws_info_mappers.c:252-321 | one remote serialises exactly when it is well formed: an absolute root path, a named type, and valid information |
| WsInfoMappers.RemoteRoundTrip | src/types/mappers/ws_info_mappers.c:252-407 | whatever remote serialises is parsed back unchanged |
| WsInfoMappers.RemotesAccepted | src/types/mappers/ws_info_mappers.c:519-530 | a remote list serialises exactly when every remote is well formed, with one array entry per remote |
| WsInfoMappers.RemotesRoundTrip | src/types/mappers/ws_info_mappers.c:436-447 | parsing the entries a remote list serialises to gives the same list back, in order |
| WsInfoMappers.WorkspaceRoundTrip | src/types/mappers/ws_info_mappers.c:409-543 | a workspace serialises exactly when it is well formed, and parsing gives it back |
| WsInfoMappers.ParsedRemoteWellFormed | src/types/mappers/ws_info_mappers.c:323-407 | every parsed remote satisfies what the serialiser demands |
| WsInfoMappers.ParsedRemotesWellFormed | src/types/mappers/ws_info_mappers.c:437-448 | every remote of a parsed list is well formed, and the list has one remote per array entry |
| WsInfoMappers.ParsedWorkspaceReserialises | src/types/mappers/ws_info_mappers.c:409-543 | a parsed workspace whose local root is an existing absolute directory serialises again and parses back to itself |
| Sync.Present | src/server/sync.c:104-129 | the argument strings become the non-NULL slots of a C vector, in order |
| Sync.Grow | src/server/sync.c:117-118 | `do_realloc` to one more slot keeps the slots already filled |
| Sync.StartArguments | src/server/sync.c:104-119 | the buffer starts with "rsync -azq --delete", then the identity option exactly for SSH with an identity file, and three slots remain for the directories and NULL |
| Sync.ConstructRsyncCmdArguments | src/server/sync.c:104-129 | the buffer holds exactly the arguments of `RsyncArguments` followed by NULL, and is fatal exactly when they are |
| Sync.SynchronizeWorkspace | src/server/sync.c:151-158 | the loop over the remote systems builds exactly `SyncCommands`: one vector per remote, in order, stopping at the first fatal one |
| Sync.ArgumentLayout | src/server/sync.c:104-129 | every vector is "rsync -azq --delete", then the identity option for SSH with an identity file, then the local and remote directories |
| Sync.ArgumentsFatal | src/server/sync.c:4-102 | building a vector is fatal exactly when the local root and the relative path are both NULL, or the remote root and the relative path are both NULL, or the connection type is unknown |
| Sync.ArgumentsNameSameDirectory | src/server/sync.c:4-52 | the local argument is the local directory followed by '/', and the remote argument ends with the same relative path under the remote root |
| Sync.RemoteArgumentForms | src/server/sync.c:14-83 | the remote argument is "[user@]host:path" for SSH, "alias:path" for a host alias, "rsync://[user@]host:port/path" for a daemon with a port, and "[user@]host::path" for one without |
| Sync.OneCommandPerRemote | src/server/sync.c:151-158 | synchronising is fatal exactly when some remote's vector is; otherwise there is one vector per remote, in list order |
| Options.Store | src/client/options.c:442-491 | storing an option's argument sets that option and leaves every other option unchanged |
| Options.ArgOfFound | src/client/options.c:442-491 | the argument kept for an option comes from a token that names it |
| Options.CollectFromExactly | src/client/options.c:21-26 | the option loop succeeds exactly when no token is unrecognised and no option occurs twice; each collected value is that option's argument |
| Options.AcceptableStep | src/client/options.c:21-26 | acceptance of a token list, one token at a time |
| Options.PortNumberOfNumeral | src/client/options.c:108-137 | a port written as a decimal numeral is accepted exactly when it is at most 65535 |
| Options.PortNumberWithSign | src/client/options.c:108-137 | leading white space and a sign are allowed; the value must then lie in [0, 65535] |
| Options.StrtolOfSigned | src/client/options.c:117-118 | `strtol` consumes white space, sign and digits entirely |
| Options.PortNumberTrailingRefused | src/client/options.c:128-131 | any character after the digits makes the port invalid |
| Options.PortNumberWithoutDigitsRefused | src/client/options.c:123-126 | white space and at most a sign, with no digit, is refused |
| Options.OptionsAcceptedExactly | src/client/options.c:332-377 | options are valid exactly when the command is known, the local path is an existing absolute directory, the remote path is absolute, and the options of the chosen connection type are valid |
| Options.RsyncDaemonCommandLost | src/client/options.c:404-416 | for valid options, the conversion as written gives NULL exactly for RSYNC_DAEMON; the corrected conversion gives a command there and agrees with the as-written one elsewhere |
| Options.RsyncDaemonCommandLostExample | src/client/options.c:404-416 | a concrete valid RSYNC_DAEMON option set is lost as written and kept by the corrected conversion |
| Options.ValidOptionsGiveCommand | src/client/options.c:379-422 | every valid option set becomes a command that carries the options' values, and the daemon-command serialiser accepts it and parses it back unchanged |
| Options.ParseOptions | src/client/options.c:424-510 | the `getopt_long` loop with its nine counters gives exactly `ParseOptionsSpec` |
| Options.ParseOptionsExactly | src/client/options.c:424-510 | a command results exactly when the options are collected without '?' or repeats, there are no operands, and validation passes |
| Config.ConfigFileIsEmptyArrayAsWritten | src/server/config.c:27-46 | the loop as written answers `EmptyArrayAsWritten`: the counter named "non-white-space" counts white space |
| Config.ConfigFileIsEmptyArray | src/server/config.c:27-46 | the corrected loop answers `EmptyArray` |
| Config.CountClassZero | src/server/config.c:33-43 | a counter stays zero exactly when no character is in its class |
| Config.EmptyArrayExactly | src/server/config.c:27-46 | corrected: exactly one '[' and one ']', and every other character is white space |
| Config.EmptyArrayAsWrittenExactly | src/server/config.c:27-46 | as written: exactly one '[' and one ']', and no white space at all, whatever else there is |
| Config.EmptyArrayCounterexamples | src/server/config.c:40-45 | "[ ]" is refused as written but accepted when corrected; "[x]" is the reverse; "][" is accepted by both |
| WatchTables.RemoveFirst | src/server/linux/workspace.c:157-172 | the delete-and-break loop leaves a list without `x` unchanged, shortens a list with `x` by one, and keeps every other element |
| WatchTables.RemoveFirstAt | src/server/linux/workspace.c:157-172 | removing the first `x` splices out the first position holding `x`, and leaves a list without `x` as it is |
| WatchTables.RemoveFirstNoDup | src/server/linux/workspace.c:157-172 | in a list without duplicates, the splice removes every occurrence of `x` |
| WatchTables.ParentPrefix | src/util/fs_util.c:148-168 | the parent of a path is a proper prefix followed by '/' and a last segment without '/' |
| WatchTables.ParentOfStrictlyUnder | src/util/fs_util.c:148-168 | the parent of a path below `p` is `p` or below `p` |
| WatchTables.StrictlyUnderOfParent | src/util/fs_util.c:148-168 | a path whose parent is at or below `a` is below `a` |
| WatchTables.SiblingsDisjoint | src/util/fs_util.c:100-146 | no path lies below two sibling directories with different names |
| WatchTables.TreeIsSound | src/server/linux/workspace.c:54-123 | tables that describe a tree satisfy every invariant of a reachable state |
| WatchTables.PathNamesOneHandle | src/server/linux/workspace.c:65-77 | since both tables hold the same pairs, a path names at most one handle |
| WatchTables.RankShrinks | src/server/linux/workspace.c:126-197 | deleting records never raises the removal measure |
| WatchTables.ChildRanksLower | src/server/linux/workspace.c:181-184 | a listed child ranks strictly below its parent, so the recursion of `remove_watches` terminates |
| WatchTables.SubdirsSmaller | src/server/linux/workspace.c:80-90 | every listed subdirectory is a smaller tree, so the recursion of `register_watches` terminates |
| EngineSpec.UnlinkKeepsSound | src/server/linux/workspace.c:138-175 | the splice out of the parent's lists keeps the tables sound and changes no key and no path |
| EngineSpec.Remove | src/server/linux/workspace.c:126-197 | a successful removal leaves sound tables that keep a subset of the records, at the same paths |
| EngineSpec.ChildrenRankLower | src/server/linux/workspace.c:181-184 | every child of `w` ranks below any bound on `w`'s rank |
| EngineSpec.DeleteKeepsSound | src/server/linux/workspace.c:187-194 | deleting a handle's record and its path entry keeps the tables sound |
| EngineSpec.RemoveAll | src/server/linux/workspace.c:181-184 | removing the children in list order keeps the tables sound and only deletes records |
| EngineTree.RegisterKeepsTree | src/server/linux/workspace.c:54-123 | on tables that form a tree, registering a directory that is not yet watched, whose parent is watched and whose entries can all be stat'ed never fails; the tables still form a tree, the directory is recorded in both tables under the handle that was next, the handle is appended once to both copies of the parent's child list, every other record is kept, and every added path lies below the directory |
| EngineTree.RegisterAllKeepsTree | src/server/linux/workspace.c:83-90 | registering the listing one subdirectory after the other never fails on a tree when each entry is ready, keeps the tree, keeps every record other than the directory's own, and adds only paths below the directory |
| EngineSpec.RegisterKeepsSound | src/server/linux/workspace.c:54-123 | registration keeps the tables sound, keeps every record, records the directory under the handle that was next at its joined path, and only moves the next handle forward |
| EngineSpec.InsertKeepsSound | src/server/linux/workspace.c:65-77 | inserting a fresh record under the next handle into both tables keeps them sound |
| EngineSpec.RegisterAllKeepsSound | src/server/linux/workspace.c:83-90 | registering the listing one entry after the other keeps the tables sound |
| EngineSpec.LinkKeepsSound | src/server/linux/workspace.c:92-108 | appending a deeper handle to both copies of its parent's child list keeps the tables sound |
| EngineRemoval.ListedOnlyByParent | src/server/linux/workspace.c:92-108 | in a tree, only the record of its parent directory lists a child |
| EngineRemoval.EraseMirrored | src/server/linux/workspace.c:187-194 | erasing a subtree keeps both tables holding the same pairs |
| EngineRemoval.EraseChildrenBelow | src/server/linux/workspace.c:187-194 | after erasing a subtree, every listed child is still indexed and lies directly below its lister |
| EngineRemoval.EraseListsNoDup | src/server/linux/workspace.c:157-172 | erasing keeps every child list free of duplicates |
| EngineRemoval.EraseLinked | src/server/linux/workspace.c:138-175 | erasing keeps every surviving record below the root listed by its parent |
| EngineRemoval.EraseKeepsTree | src/server/linux/workspace.c:126-197 | erasing a subtree keeps a tree a tree |
| EngineRemoval.ListerIsParent | src/server/linux/workspace.c:138-175 | a record that lists `w` is the record of `w`'s parent directory, and `w` lies below the root |
| EngineRemoval.UnlinkBelowRoot | src/server/linux/workspace.c:138-175 | for a record below the root, the parent lookups succeed and find the parent's record in both tables |
| EngineRemoval.StripParentHandles | src/server/linux/workspace.c:166-172 | splicing `w` out of the parent's handle-table list splices it out of every list |
| EngineRemoval.StripParentPaths | src/server/linux/workspace.c:157-164 | splicing `w` out of the parent's path-table list splices it out of every list |
| EngineRemoval.StripRoot | src/server/linux/workspace.c:139 | at the root nothing lists `w`, and the splice changes nothing |
| EngineRemoval.StripAllIsUnlink | src/server/linux/workspace.c:138-175 | on a tree, the source's splice equals splicing `w` out of every list |
| EngineRemoval.StripAllMirrored | src/server/linux/workspace.c:157-172 | the splice keeps both tables holding the same pairs |
| EngineRemoval.StripAllLists | src/server/linux/workspace.c:157-172 | the splice keeps children indexed and below their lister, keeps lists free of duplicates, and keeps handles below the counter |
| EngineRemoval.StripAllLinked | src/server/linux/workspace.c:157-172 | after the splice, every record but `w` is still listed by its parent |
| EngineRemoval.UnlinkDetaches | src/server/linux/workspace.c:138-175 | the splice leaves a tree in which only `w` is detached, and `w` keeps its own child list |
| EngineRemoval.NothingBelow | src/server/linux/workspace.c:181-184 | a record that lists no child, and below which no detached record lies, has nothing below it |
| EngineRemoval.PruneNothing | src/server/linux/workspace.c:181-184 | with nothing listed, removing the children changes nothing |
| EngineRemoval.ChildBelow | src/server/linux/workspace.c:181-184 | a listed child lies below its parent, and so does everything below the child |
| EngineRemoval.PruneAfterErase | src/server/linux/workspace.c:181-184 | removing the first child's subtree and then the rest is removing everything below the parent |
| EngineRemoval.FinalDelete | src/server/linux/workspace.c:187-194 | deleting `w` and its path once everything below it is gone leaves exactly the erased tables |
| EngineRemoval.RemoveAllPrunes | src/server/linux/workspace.c:181-184 | removing the children of a detached record one after the other succeeds and removes exactly what lies below it |
| EngineRemoval.RemoveErases | src/server/linux/workspace.c:126-197 | on a tree, `remove_watches` succeeds and erases exactly the subtree, and the result is a tree |
| EngineRemoval.RemoveSubtree | src/server/linux/workspace.c:126-197 | on the tree of watched directories, removal never fails, leaves no path at or below the removed one, and keeps every record outside it |
| EngineEvents.HandleIgnores | src/server/linux/workspace.c:250-298 | these events change nothing and sync nothing: IN_IGNORED, stale handles, self events, vanished children, created files, and untracked directories that were deleted |
| EngineEvents.HandleSyncsWatchedDirectory | src/server/linux/workspace.c:309 | a sync is always for the relative path of the directory whose watch reported the event |
| EngineEvents.HandleFileChange | src/server/linux/workspace.c:277-309 | a change to a file leaves the tables alone and syncs the watched directory |
| EngineEvents.HandleDirectoryCreated | src/server/linux/workspace.c:277-290 | a new directory is registered under the next handle at the event's path, keeping every record, and the watched directory is synced |
| EngineEvents.ResourcePathJoins | src/server/linux/workspace.c:261-263 | the absolute path of the child is the root joined with the child's relative path |
| EngineEvents.HandleDirectoryGone | src/server/linux/workspace.c:300-309 | the deletion of a tracked directory removes its watches and syncs the parent directory |
| EngineEvents.HandleDirectoryGoneInTree | src/server/linux/workspace.c:300-309 | on a tree, deleting a tracked directory never fails, unwatches every path at or below it, keeps every other record, and leaves a tree |
| EngineEvents.HandleCreatedThenGone | src/server/linux/workspace.c:276-309 | an event that both creates a directory and reports one gone registers it and removes it again, without a fatal error, leaving a tree |
| EngineEvents.HandleFileThenGone | src/server/linux/workspace.c:276-309 | a file moved in by an event that also reports a directory gone leaves the tables of the removal alone, a tree |
| EngineEvents.HandleKeepsTree | src/server/linux/workspace.c:247-315 | on a tree, with a created directory walkable, not yet watched and under a watched parent, every event is handled without a fatal error and the tables still form a tree |
| EngineEvents.HandleBothKeepsSound | src/server/linux/workspace.c:276-309 | an event that both creates and reports a directory gone keeps the tables sound through the registration and the removal |
| EngineEvents.HandleKeepsSound | src/server/linux/workspace.c:247-315 | every reaction keeps the tables sound |
| EngineEvents.SyncCommandsPerRemote | src/server/linux/workspace.c:238-245 | one rsync command per remote system, in list order |
| EngineEvents.RsyncMirrorsDirectory | src/server/linux/workspace.c:199-217 | the command is "rsync -az --delete root/rel/ host:remoteRoot/rel": it mirrors the directory's contents onto the same relative path |
| Engine.SpliceOut | src/server/linux/workspace.c:157-172 | the delete-and-break loop returns the list with the first occurrence removed |
| Engine.WatchEngine.constructor | src/server/linux/workspace.c:3-6 | the engine starts with empty tables, the first handle 1, and nothing launched |
| Engine.WatchEngine.RegisterWatches | src/server/linux/workspace.c:54-123 | the recursive registration leaves exactly the tables `Register` computes, returns the new handle, and fails exactly when `Register` does; started on a tree with a registrable directory, it succeeds and leaves a tree |
| Engine.WatchEngine.RegisterSubdirectories | src/server/linux/workspace.c:83-90 | the loop over the listing leaves exactly the tables `RegisterAll` computes |
| Engine.WatchEngine.AddToParent | src/server/linux/workspace.c:92-108 | the new handle is appended to both copies of the parent's list, exactly as `LinkToParent` computes |
| Engine.WatchEngine.RemoveWatches | src/server/linux/workspace.c:126-197 | the recursive removal leaves exactly the tables `Remove` computes, and fails exactly when `Remove` does |
| Engine.WatchEngine.RemoveFromParent | src/server/linux/workspace.c:138-175 | the two splice loops leave exactly the tables `Unlink` computes |
| Engine.WatchEngine.RemoveSubdirectories | src/server/linux/workspace.c:180-184 | the loop over the children leaves exactly the tables `RemoveAll` computes |
| Engine.WatchEngine.SyncRemoteSystems | src/server/linux/workspace.c:238-245 | one rsync command per remote is launched, in list order, and the tables are unchanged |
| Engine.WatchEngine.HandleEvent | src/server/linux/workspace.c:247-315 | the handler leaves exactly the tables `Handle` computes and launches exactly the syncs `Handle` requests; started on a tree, with a created directory ready to register, it succeeds and leaves a tree |
| LegacyEngine.LegacyLink | server/workspace.c:73-88 | the earlier link step leaves the handle table and the counter untouched |
| LegacyEngine.LegacyLinkPathTableOnly | server/workspace.c:73-88 | only the path table's copy of the parent gets the child; the step fails exactly when the parent has no path entry |
| LegacyEngine.LegacyRegisterHandleListsEmpty | server/workspace.c:36-95 | the earlier registration never lists a child in the handle table |
| LegacyEngine.LegacyRegisterAllHandleListsEmpty | server/workspace.c:64-71 | nor does the loop over the listing |
| LegacyEngine.LegacyUnlink | server/workspace.c:112-133 | the earlier splice leaves the handle table and the counter untouched |
| LegacyEngine.HandlesKeptShrinks | server/workspace.c:97-154 | deleting handle records keeps the handle table ordered and only deletes records |
| LegacyEngine.LegacyRemove | server/workspace.c:97-154 | a successful earlier removal keeps the handle table ordered and only deletes records |
| LegacyEngine.LegacyRemoveAll | server/workspace.c:137-141 | the loop over the handle record's (empty) child list only deletes records |
| LegacyEngine.LegacyRemoveOnlyItself | server/workspace.c:137-154 | with empty lists in the handle table, a removal deletes exactly the one handle and its path |
| LegacyEngine.LegacyOrderedAfterRegister | server/workspace.c:36-95 | the earlier registration keeps the handle table ordered and its lists empty |
| LegacyEngine.LegacyRegisterCounter | server/workspace.c:36-95 | the earlier registration keeps every handle below the counter |
| LegacyEngine.LegacyAnomaliesFatal | server/workspace.c:168-231 | unknown handles, failed `stat`s and deletions of untracked directories end the process |
| LegacyEngine.LegacySample | server/workspace.c:36-95 | registering "/w" containing "a/b" gives handles 1, 2, 3, with "a" listing "b" in the path table only |
| LegacyEngine.LegacyRemoveLeavesDescendant | server/workspace.c:137-141 | deleting "a" in the earlier engine succeeds yet keeps handle 3 for "/w/a/b", which lies below "/w/a" |
| LegacyEngine.ConsistentSampleRegistered | src/server/linux/workspace.c:54-123 | the current registration of "/w" containing "a/b" computes the sample tables: handles 1, 2, 3, with each parent listing its child in both tables |
| LegacyEngine.ConsistentSampleIsTree | src/server/linux/workspace.c:54-123 | the tables the current registration computes for the same directories form a tree |
| LegacyEngine.RemoveSampleErasesDescendant | src/server/linux/workspace.c:126-197 | on the tables the current registration computes, the current removal of "a" leaves only the root watched, in both tables |

## Left out

- The inotify system calls are not modelled: `inotify_init`, `inotify_add_watch` and `inotify_rm_watch`. Handles come from a counter, and `inotify_add_watch`/`inotify_rm_watch` are assumed to succeed. The read loop `listen_for_inotify_events` and both `main` functions are not modelled either.
- A directory created twice under the same path is not modelled. uthash would then hold two entries for one key; the model's map keeps the newest.
- `remove_watches` reads the child list it is freeing (the recursive call frees its own list node). The model iterates over a snapshot of the handle table's child list.
- `fork`, `execvp` and `waitpid` in `sync_remote_system`: a sync is modelled as the argument vector it would run.
- The rsync command of `src/server/sync.c` is never executed (`execute_rsync_command` is a to-do in the source). The vectors are modelled; nothing runs them.
- Log and error message texts are abbreviated where the source formats them (`strerror`, file names). Only the fact of failure and the branch taken are modelled.
- `getopt_long` tokenising is not modelled. The option loop takes the tokens it returns (an option with its argument, or '?') and the operand count.
- `strtol` range clamping (`LONG_MIN`/`LONG_MAX`, `errno`) is not modelled. Integers are unbounded.
- JSON text is not modelled: the cJSON parser and printer, `stringified_*` wrappers and allocation failures. JSON is a tree value. Its keys are an enumeration rather than the strings `src/types.h:12-23` defines: the mappers only ever look a key up by its name, so the spelling does not matter to any property.
- Reading and writing the configuration file is not modelled. Only the empty-array scan is.
- TypesJson.ExtractRsync: the source leaves `username` uninitialised (`do_malloc`) when the member is absent; the model reads it as NULL.
- Options.ToDaemonCommand: the source leaves the port uninitialised when no port option is given; the model uses -1, the "no port" value of the mappers.
- The port constants of `src/types.c` come from a header that is not part of this model. The bounds 0 and 65535 of `src/types/mappers/ws_info_mappers.c` are used.
- `validate_identity_file` and the SSH mappers call the file-existence check. The model uses the corrected check (see Findings).
- The duplicate helpers are modelled once. These are the copies in `src/server/util/string.h`, `server/util/string_util.h`, `server/util/fs_util.h` and the enum mappers repeated in `src/types.c`.
- Memory management is not modelled: `free` and the destroy functions.
- A `Dir` value can always be listed. The `opendir` failure of `get_paths_of_subdirectories` (`src/util/fs_util.c:108-111`, fatal) is not modelled.
- EngineTree.RegisterKeepsTree assumes what a real directory listing guarantees (`Walkable`): entry names are non-empty, hold no '/' and are pairwise distinct. Without it two entries could map to one path.
- EngineEvents.HandleKeepsTree, Engine.WatchEngine.HandleEvent: the tree is promised only when a created directory is ready to register (`CreationReady`). The tables do not record that a record's absolute path is its relative path joined to the root, so that its parent is watched is assumed with the rest.
- Options.ParseOptions, Options.ParseOptionsSpec: these use the corrected conversion to a daemon command, in which RSYNC_DAEMON returns the command. As written, `src/client/options.c:404-416` falls through to `default` and returns NULL (see Findings, `Options.RsyncDaemonCommandLostExample`). `src/client/options.c:388` also leaves `remote_system->next` uninitialised (`do_malloc`); the model's remote list has exactly one element.
- Options.ParseOptionsExactly: "a command results exactly when validation passes" holds for the corrected conversion only. As written, RSYNC_DAEMON options that pass validation still give no command.
- LegacyEngine.LegacyRegister, LegacyEngine.LegacyLink, LegacyEngine.LegacyUnlink, LegacyEngine.LegacyRemove, LegacyEngine.LegacyHandle: the earlier watcher of `server/workspace.c` is modelled on table values, as functions, with no class. Its in-place update of the uthash tables and the aliasing between them are not captured; the current watcher has both, in `Engine.WatchEngine`.

## Findings

| source | as written | input that shows it | evidently intended | confidence | as-written member | corrected member |
|---|---|---|---|---|---|---|
| src/util/fs_util.c:85-98 | `validate_file_exists` fails when `access(path, F_OK)` returns 0, that is, when the file exists | an existing identity file "/home/u/.ssh/id" is refused | fail when the file does not exist; the SSH mappers' round trip (`WsInfoMappers.SshRoundTrip`) is proved with this check | not executed | Paths.FileExistsCounterexample | Paths.FileExists |
| src/client/options.c:404-416 | the RSYNC_DAEMON case has no `break`, so it falls into `default` and returns NULL | command "add-workspace", local "/w", remote "/r", type "RSYNC_DAEMON", host "h" | return the command holding the rsync information | not executed | Options.RsyncDaemonCommandLostExample | Options.ValidOptionsGiveCommand |
| src/server/config.c:27-46 | `non_white_space_characters_counter` is incremented on white space | "[ ]" is not recognised as empty; "[x]" is | count the characters that are neither brackets nor white space | not executed | Config.EmptyArrayCounterexamples | Config.EmptyArrayExactly |
| server/workspace.c:137-141 | the earlier removal walks the handle table's child lists, but registration only appends to the path table's copies, so subdirectories are never unwatched | "/w" holding "a/b"; delete "a" | remove the whole subtree, as the current engine does | not executed | LegacyEngine.LegacyRemoveLeavesDescendant | EngineRemoval.RemoveSubtree |
