/** The command-line client of src/client/options.c: collecting the options
    `getopt_long` reports, validating them, and turning them into the daemon
    command the client sends.
    `getopt_long` itself (splitting argv, long-option abbreviations,
    permutation of operands) is not modelled: its output is given as the
    sequence of tokens it reports and the number of operands left over. */
module Options {
  import opened Wrappers
  import opened Strings
  import opened Paths
  import opened Enums
  import opened Records
  import opened Decimal
  import TypesJson

  datatype OptionName =
    | CommandOption | LocalWsPathOption | RemoteWsPathOption | ConnectionTypeOption
    | SshHostAliasOption | HostnameOption | UsernameOption | PortOption | IdentityFileOption

  /** One result of `getopt_long`: a recognised option with its argument, or
      '?' (unknown option or missing argument). */
  datatype Token = Given(option: OptionName, arg: string) | Unrecognised

  /** `OptionValues`: one optional string per option. */
  datatype OptionValues = OptionValues(
    command: Option<string>, localWsPath: Option<string>, remoteWsPath: Option<string>,
    connectionType: Option<string>, sshHostAlias: Option<string>, hostname: Option<string>,
    username: Option<string>, port: Option<string>, identityFile: Option<string>)

  /** The zeroed struct of `do_calloc`. */
  const NO_VALUES := OptionValues(None, None, None, None, None, None, None, None, None)

  function ValueOf(v: OptionValues, o: OptionName): Option<string> {
    match o
    case CommandOption => v.command
    case LocalWsPathOption => v.localWsPath
    case RemoteWsPathOption => v.remoteWsPath
    case ConnectionTypeOption => v.connectionType
    case SshHostAliasOption => v.sshHostAlias
    case HostnameOption => v.hostname
    case UsernameOption => v.username
    case PortOption => v.port
    case IdentityFileOption => v.identityFile
  }

  /** Storing the argument of option `o`. */
  function Store(v: OptionValues, o: OptionName, arg: string): (r: OptionValues)
    ensures forall o2 :: ValueOf(r, o2) == if o2 == o then Some(arg) else ValueOf(v, o2)
  {
    match o
    case CommandOption => v.(command := Some(arg))
    case LocalWsPathOption => v.(localWsPath := Some(arg))
    case RemoteWsPathOption => v.(remoteWsPath := Some(arg))
    case ConnectionTypeOption => v.(connectionType := Some(arg))
    case SshHostAliasOption => v.(sshHostAlias := Some(arg))
    case HostnameOption => v.(hostname := Some(arg))
    case UsernameOption => v.(username := Some(arg))
    case PortOption => v.(port := Some(arg))
    case IdentityFileOption => v.(identityFile := Some(arg))
  }

  /** The occurrence counter of an option (the nine `opt_counter_*`). */
  function Count(counts: map<OptionName, nat>, o: OptionName): nat {
    if o in counts then counts[o] else 0
  }

  /** Every option may be given at most once. */
  const MAX_OCCURRENCE: nat := 1

  /** The option loop from a given state: each option bumps its counter and
      is refused past its maximum; '?' is refused. */
  function CollectFrom(v: OptionValues, counts: map<OptionName, nat>, tokens: seq<Token>): Option<OptionValues>
    decreases |tokens|
  {
    if tokens == [] then Some(v)
    else match tokens[0]
      case Unrecognised => None
      case Given(o, arg) =>
        var c := Count(counts, o) + 1;
        if c > MAX_OCCURRENCE then None
        else CollectFrom(Store(v, o, arg), counts[o := c], tokens[1..])
  }

  function Collect(tokens: seq<Token>): Option<OptionValues> {
    CollectFrom(NO_VALUES, map[], tokens)
  }

  /** The argument of the first token naming `o`. */
  function ArgOf(tokens: seq<Token>, o: OptionName): Option<string> {
    if tokens == [] then None
    else if tokens[0].Given? && tokens[0].option == o then Some(tokens[0].arg)
    else ArgOf(tokens[1..], o)
  }

  /** Every token is an option that was not counted before and that no later
      token repeats. */
  predicate Acceptable(counts: map<OptionName, nat>, tokens: seq<Token>) {
    forall i :: 0 <= i < |tokens| ==>
      && tokens[i].Given?
      && Count(counts, tokens[i].option) == 0
      && forall j :: i < j < |tokens| ==> tokens[j] != Unrecognised ==> tokens[j].option != tokens[i].option
  }

  /** The first token naming `o` is one of the tokens. */
  lemma {:induction false} ArgOfFound(tokens: seq<Token>, o: OptionName)
    ensures ArgOf(tokens, o).Some? ==>
      exists j :: 0 <= j < |tokens| && tokens[j] == Given(o, ArgOf(tokens, o).value)
    decreases |tokens|
  {
    if tokens != [] && !(tokens[0].Given? && tokens[0].option == o) {
      ArgOfFound(tokens[1..], o);
      if ArgOf(tokens, o).Some? {
        var j :| 0 <= j < |tokens[1..]| && tokens[1..][j] == Given(o, ArgOf(tokens, o).value);
        assert tokens[j + 1] == tokens[1..][j];
      }
    }
  }

  /** The option loop succeeds exactly when no '?' is reported and no option
      is given twice, and then every option holds the argument it was given
      with, or nothing. */
  lemma {:induction false} CollectFromExactly(v: OptionValues, counts: map<OptionName, nat>, tokens: seq<Token>)
    ensures CollectFrom(v, counts, tokens).Some? <==> Acceptable(counts, tokens)
    ensures CollectFrom(v, counts, tokens).Some? ==>
      forall o :: ValueOf(CollectFrom(v, counts, tokens).value, o) ==
        if ArgOf(tokens, o).Some? then ArgOf(tokens, o) else ValueOf(v, o)
    decreases |tokens|
  {
    if tokens != [] {
      var rest := tokens[1..];
      match tokens[0]
      case Unrecognised =>
        assert !tokens[0].Given?;
      case Given(o, arg) =>
        if Count(counts, o) + 1 <= MAX_OCCURRENCE {
          var counts' := counts[o := Count(counts, o) + 1];
          CollectFromExactly(Store(v, o, arg), counts', rest);
          AcceptableStep(counts, tokens);
          if Acceptable(counts, tokens) {
            ArgOfFound(rest, o);
          }
        } else {
          assert !Acceptable(counts, tokens) by {
            assert Count(counts, tokens[0].option) != 0;
          }
        }
    }
  }

  /** Acceptance of a non-empty token list, one token at a time. */
  lemma AcceptableStep(counts: map<OptionName, nat>, tokens: seq<Token>)
    requires tokens != [] && tokens[0].Given? && Count(counts, tokens[0].option) == 0
    ensures Acceptable(counts, tokens) <==>
      Acceptable(counts[tokens[0].option := 1], tokens[1..]) &&
      forall j :: 0 < j < |tokens| ==> tokens[j] != Unrecognised ==> tokens[j].option != tokens[0].option
  {
    var o := tokens[0].option;
    var counts' := counts[o := 1];
    var rest := tokens[1..];
    if Acceptable(counts', rest) && forall j :: 0 < j < |tokens| ==> tokens[j] != Unrecognised ==> tokens[j].option != o {
      forall i | 0 < i < |tokens|
        ensures tokens[i].Given? && Count(counts, tokens[i].option) == 0
      {
        assert tokens[i] == rest[i - 1];
      }
      forall i, j | 0 < i < j < |tokens|
        ensures tokens[j] != Unrecognised ==> tokens[j].option != tokens[i].option
      {
        assert tokens[i] == rest[i - 1] && tokens[j] == rest[j - 1];
      }
    }
    if Acceptable(counts, tokens) {
      forall i | 0 <= i < |rest|
        ensures rest[i].Given? && Count(counts', rest[i].option) == 0
      {
        assert tokens[i + 1] == rest[i];
        assert tokens[i + 1].option != o;
      }
      forall i, j | 0 <= i < j < |rest|
        ensures rest[j] != Unrecognised ==> rest[j].option != rest[i].option
      {
        assert tokens[i + 1] == rest[i] && tokens[j + 1] == rest[j];
      }
    }
  }

  // ------------------------------------------------------------ validation

  /** `validate_simple_string_option`: given and not blank. */
  predicate SimpleString(value: Option<string>) {
    value.Some? && !Blank(value)
  }

  /** `validate_identity_file`, with the file-existence check as intended
      (the source's check is inverted; see `Paths.FileExistsAsWritten`). */
  predicate IdentityFileValid(value: Option<string>, files: set<string>) {
    SimpleString(value) && ValidateAbsolutePath(value) && FileExists(value, files)
  }

  /** `validate_port_number`: `strtol` must read some digits, must stop at
      the end of the string, and the value must be a port. */
  predicate PortNumberValid(port: Option<string>) {
    if port.None? then false
    else
      var c := Strtol(port.value);
      if c.end == 0 then false
      else if c.end != |port.value| then false
      else MIN_PORT_NUMBER <= c.value <= MAX_PORT_NUMBER
  }

  /** `validate_rsync_daemon_connection_type`; an alias or identity file is
      only warned about. */
  predicate RsyncDaemonOptionsValid(v: OptionValues) {
    && v.hostname.Some?
    && SimpleString(v.hostname)
    && (v.username.Some? ==> SimpleString(v.username))
    && (v.port.Some? ==> PortNumberValid(v.port))
  }

  /** `validate_ssh_connection_type`; a port or alias is only warned about. */
  predicate SshOptionsValid(v: OptionValues, files: set<string>) {
    && v.hostname.Some?
    && SimpleString(v.hostname)
    && (v.username.Some? ==> SimpleString(v.username))
    && (v.identityFile.Some? ==> IdentityFileValid(v.identityFile, files))
  }

  /** `validate_ssh_host_alias_connection_type`; everything else is only
      warned about. */
  predicate HostAliasOptionsValid(v: OptionValues) {
    v.sshHostAlias.Some? && SimpleString(v.sshHostAlias)
  }

  predicate ConnectionTypeValid(connectionType: Option<string>) {
    SimpleString(connectionType) && StringToConnectionType(connectionType) != OtherConnectionType
  }

  predicate RemoteWorkspacePathValid(path: Option<string>) {
    SimpleString(path) && ValidateAbsolutePath(path)
  }

  predicate LocalWorkspacePathValid(path: Option<string>, directories: set<string>) {
    SimpleString(path) && ValidateAbsolutePath(path) && DirectoryExists(path, directories)
  }

  predicate CommandValid(command: Option<string>) {
    SimpleString(command) && StringToCommandType(command) != OtherCommand
  }

  /** `validate_optionValues`, in the order of its checks. */
  predicate ValidateOptionValues(v: OptionValues, probe: Probe) {
    && CommandValid(v.command)
    && LocalWorkspacePathValid(v.localWsPath, probe.directories)
    && RemoteWorkspacePathValid(v.remoteWsPath)
    && ConnectionTypeValid(v.connectionType)
    && match StringToConnectionType(v.connectionType)
       case SshType => SshOptionsValid(v, probe.files)
       case SshHostAliasType => HostAliasOptionsValid(v)
       case RsyncDaemonType => RsyncDaemonOptionsValid(v)
       case OtherConnectionType => false
  }

  /** A port written as a decimal numeral is accepted exactly when it is at
      most 65535, and converting it gives the number back. */
  lemma PortNumberOfNumeral(n: nat)
    ensures PortNumberValid(Some(NatToDecimal(n))) <==> n <= MAX_PORT_NUMBER
    ensures Strtol(NatToDecimal(n)).value == n
  {
    StrtolReadsNumeral(n);
  }

  /** The value of an optional sign followed by digits. */
  function Signed(sign: string, digits: string): int
    requires AllDigits(digits)
  {
    if sign == "-" then -(DecimalValue(digits) as int) else DecimalValue(digits)
  }

  /** Leading white space and a sign are allowed, and the number must then
      lie between 0 and 65535 ("-0" is 0). */
  lemma PortNumberWithSign(w: string, sign: string, digits: string)
    requires AllSpace(w) && (sign == "" || sign == "+" || sign == "-")
    requires AllDigits(digits) && |digits| > 0
    ensures PortNumberValid(Some(w + sign + digits)) <==> MIN_PORT_NUMBER <= Signed(sign, digits) <= MAX_PORT_NUMBER
  {
    StrtolOfSigned(w, sign, digits);
  }

  /** `strtol` reads all of white space, sign and digits. */
  lemma StrtolOfSigned(w: string, sign: string, digits: string)
    requires AllSpace(w) && (sign == "" || sign == "+" || sign == "-")
    requires AllDigits(digits) && |digits| > 0
    ensures Strtol(w + sign + digits) == Conversion(Signed(sign, digits), |w + sign + digits|)
  {
    var s := w + sign + digits;
    assert s == w + (sign + digits);
    assert (sign + digits)[0] == if sign == "" then digits[0] else sign[0];
    SkipPastSpace(w, sign + digits);
    var i := |w|;
    var j := |w| + |sign|;
    assert s[i] == (sign + digits)[0];
    assert j == (if i < |s| && (s[i] == '+' || s[i] == '-') then i + 1 else i);
    assert s[j..] == digits;
    DigitsRunToEnd(s, j);
    assert s[j..|s|] == digits;
  }

  /** Anything after the digits is refused. */
  lemma PortNumberTrailingRefused(w: string, sign: string, digits: string, tail: string)
    requires AllSpace(w) && (sign == "" || sign == "+" || sign == "-")
    requires AllDigits(digits) && |digits| > 0
    requires |tail| > 0 && !IsDigit(tail[0])
    ensures !PortNumberValid(Some(w + sign + digits + tail))
  {
    var s := w + sign + digits + tail;
    assert s == w + (sign + digits + tail);
    SkipPastSpace(w, sign + digits + tail);
    var j := |w| + |sign|;
    assert s[j..j + |digits|] == digits;
    assert s[j + |digits|] == tail[0];
    DigitsRunStops(s, j, j + |digits|);
  }

  /** A string of white space and at most a sign holds no digit and is
      refused. */
  lemma PortNumberWithoutDigitsRefused(w: string, sign: string)
    requires AllSpace(w) && (sign == "" || sign == "+" || sign == "-")
    ensures !PortNumberValid(Some(w + sign))
  {
    var s := w + sign;
    if sign == "" {
      assert s == w;
      SkipAllSpace(w);
    } else {
      SkipPastSpace(w, sign);
    }
  }

  lemma SkipPastSpace(w: string, rest: string)
    requires AllSpace(w) && |rest| > 0 && !IsSpace(rest[0])
    ensures SkipSpace(w + rest, 0) == |w|
  {
    var s := w + rest;
    var j := SkipSpace(s, 0);
    assert forall k :: 0 <= k < |w| ==> s[k] == w[k];
    assert s[|w|] == rest[0];
    assert forall k :: 0 <= k < j ==> s[0..j][k] == s[k];
  }

  lemma SkipAllSpace(w: string)
    requires AllSpace(w)
    ensures SkipSpace(w, 0) == |w|
  {
  }

  lemma DigitsRunToEnd(s: string, j: nat)
    requires j <= |s| && AllDigits(s[j..])
    ensures DigitsEnd(s, j) == |s|
  {
    forall m | j <= m < |s| ensures IsDigit(s[m]) {
      assert s[j..][m - j] == s[m];
    }
  }

  lemma DigitsRunStops(s: string, j: nat, k: nat)
    requires j <= k < |s| && AllDigits(s[j..k]) && !IsDigit(s[k])
    ensures DigitsEnd(s, j) == k
  {
    var e := DigitsEnd(s, j);
    forall m | j <= m < k ensures IsDigit(s[m]) {
      assert s[j..k][m - j] == s[m];
    }
    forall m | j <= m < e ensures IsDigit(s[m]) {
      assert s[j..e][m - j] == s[m];
    }
  }

  /** Acceptance in plain terms: a known command, an absolute existing local
      directory, an absolute remote path and a known connection type, with
      what that type requires. The blank checks never reject anything else:
      the names and absolute paths all start with a visible character. */
  lemma OptionsAcceptedExactly(v: OptionValues, probe: Probe)
    ensures ValidateOptionValues(v, probe) <==>
      && StringToCommandType(v.command) != OtherCommand
      && v.localWsPath.Some? && |v.localWsPath.value| > 0 && v.localWsPath.value[0] == '/'
      && v.localWsPath.value in probe.directories
      && v.remoteWsPath.Some? && |v.remoteWsPath.value| > 0 && v.remoteWsPath.value[0] == '/'
      && match StringToConnectionType(v.connectionType)
         case SshType =>
           && SimpleString(v.hostname) && (v.username.Some? ==> SimpleString(v.username))
           && (v.identityFile.Some? ==>
                 |v.identityFile.value| > 0 && v.identityFile.value[0] == '/' && v.identityFile.value in probe.files)
         case SshHostAliasType => SimpleString(v.sshHostAlias)
         case RsyncDaemonType =>
           SimpleString(v.hostname) && (v.username.Some? ==> SimpleString(v.username)) &&
           (v.port.Some? ==> PortNumberValid(v.port))
         case OtherConnectionType => false
  {
    AbsolutePathExactly(v.localWsPath);
    AbsolutePathExactly(v.remoteWsPath);
    AbsolutePathExactly(v.identityFile);
    if v.localWsPath.Some? && |v.localWsPath.value| > 0 && v.localWsPath.value[0] == '/' {
      NotBlankWhenFirstIsVisible(v.localWsPath.value);
    }
    if v.remoteWsPath.Some? && |v.remoteWsPath.value| > 0 && v.remoteWsPath.value[0] == '/' {
      NotBlankWhenFirstIsVisible(v.remoteWsPath.value);
    }
    if v.identityFile.Some? && |v.identityFile.value| > 0 && v.identityFile.value[0] == '/' {
      NotBlankWhenFirstIsVisible(v.identityFile.value);
    }
    if StringToCommandType(v.command) != OtherCommand {
      NotBlankWhenFirstIsVisible(v.command.value);
    }
    if StringToConnectionType(v.connectionType) != OtherConnectionType {
      NotBlankWhenFirstIsVisible(v.connectionType.value);
    }
  }

  // ----------------------------------------------------- building the command

  /** The daemon command holding one remote system with `connection`. */
  function CommandWith(v: OptionValues, connection: Connection): TypesJson.DaemonCommand {
    TypesJson.DaemonCommand(
      StringToCommandType(v.command),
      Some(WorkspaceInformation(Strdup(v.localWsPath), [Remote(Strdup(v.remoteWsPath), connection)])))
  }

  /** `optionValues_to_ResyncDaemonCommand` as written: the RSYNC_DAEMON case
      has no `break`, so after filling in the rsync information it falls
      into `default` and returns NULL. */
  function ToDaemonCommandAsWritten(v: OptionValues): Option<TypesJson.DaemonCommand> {
    match StringToConnectionType(v.connectionType)
    case SshType => Some(CommandWith(v, Ssh(Some(SshInfo(Strdup(v.username), Strdup(v.hostname), Strdup(v.identityFile))))))
    case SshHostAliasType => Some(CommandWith(v, HostAlias(Strdup(v.sshHostAlias))))
    case RsyncDaemonType => None
    case OtherConnectionType => None
  }

  /** The port of the rsync information: the converted option, or -1 (no
      port) when none was given. */
  function PortOf(port: Option<string>): int {
    if port.Some? then Strtol(port.value).value else TypesJson.NO_PORT
  }

  /** `optionValues_to_ResyncDaemonCommand` with the missing `break` in place;
      the rest of the model uses this one. An absent port, which the source
      leaves uninitialised, is -1. */
  function ToDaemonCommand(v: OptionValues): Option<TypesJson.DaemonCommand> {
    match StringToConnectionType(v.connectionType)
    case SshType => Some(CommandWith(v, Ssh(Some(SshInfo(Strdup(v.username), Strdup(v.hostname), Strdup(v.identityFile))))))
    case SshHostAliasType => Some(CommandWith(v, HostAlias(Strdup(v.sshHostAlias))))
    case RsyncDaemonType =>
      Some(CommandWith(v, RsyncDaemon(Some(RsyncInfo(Strdup(v.username), Strdup(v.hostname), PortOf(v.port))))))
    case OtherConnectionType => None
  }

  /** As written, every valid RSYNC_DAEMON option set is lost (NULL, which
      the client reports as invalid input), while the other types agree with
      the corrected conversion. */
  lemma RsyncDaemonCommandLost(v: OptionValues, probe: Probe)
    requires ValidateOptionValues(v, probe)
    ensures StringToConnectionType(v.connectionType) == RsyncDaemonType <==> ToDaemonCommandAsWritten(v).None?
    ensures StringToConnectionType(v.connectionType) == RsyncDaemonType ==> ToDaemonCommand(v).Some?
    ensures StringToConnectionType(v.connectionType) != RsyncDaemonType ==>
      ToDaemonCommandAsWritten(v) == ToDaemonCommand(v)
  {
  }

  /** A concrete option set: add a workspace at /w mirrored to an rsync
      daemon on host "h". It is valid, the as-written conversion drops it
      and the corrected one keeps it. */
  lemma RsyncDaemonCommandLostExample()
    ensures var v := NO_VALUES.(command := Some("add-workspace"), localWsPath := Some("/w"),
                                remoteWsPath := Some("/r"), connectionType := Some("RSYNC_DAEMON"),
                                hostname := Some("h"));
      && ValidateOptionValues(v, Probe({"/w"}, {}))
      && ToDaemonCommandAsWritten(v) == None
      && ToDaemonCommand(v).Some?
  {
    var v := NO_VALUES.(command := Some("add-workspace"), localWsPath := Some("/w"),
                        remoteWsPath := Some("/r"), connectionType := Some("RSYNC_DAEMON"),
                        hostname := Some("h"));
    NotBlankWhenFirstIsVisible("add-workspace");
    NotBlankWhenFirstIsVisible("/w");
    NotBlankWhenFirstIsVisible("/r");
    NotBlankWhenFirstIsVisible("RSYNC_DAEMON");
    NotBlankWhenFirstIsVisible("h");
  }

  /** Every valid option set becomes a command that carries the options'
      values and that the daemon-command serialiser accepts and parses back
      unchanged. */
  lemma ValidOptionsGiveCommand(v: OptionValues, probe: Probe)
    requires ValidateOptionValues(v, probe)
    ensures ToDaemonCommand(v).Some?
    ensures var c := ToDaemonCommand(v).value;
      && c.commandType == StringToCommandType(v.command) && c.commandType != OtherCommand
      && c.workspace.Some? && c.workspace.value.localRoot == v.localWsPath
      && |c.workspace.value.remotes| == 1 && c.workspace.value.remotes[0].rootPath == v.remoteWsPath
      && TypeOf(c.workspace.value.remotes[0].connection) == StringToConnectionType(v.connectionType)
    ensures TypesJson.DaemonCommandToJson(ToDaemonCommand(v).value).Success?
    ensures TypesJson.DaemonCommandFromJson(TypesJson.DaemonCommandToJson(ToDaemonCommand(v).value).value) ==
      Success(ToDaemonCommand(v).value)
  {
    var c := ToDaemonCommand(v).value;
    assert TypesJson.CanonicalRemote(c.workspace.value.remotes[0]);
    assert TypesJson.CanonicalWorkspace(c.workspace.value);
    TypesJson.DaemonCommandRoundTrip(c);
  }

  // --------------------------------------------------------- parse_options

  /** `parse_options`: the option loop, no operands, validation, conversion.
      Any failure is NULL (`None`). */
  function ParseOptionsSpec(tokens: seq<Token>, operands: nat, probe: Probe): Option<TypesJson.DaemonCommand> {
    match Collect(tokens)
    case None => None
    case Some(v) =>
      if operands != 0 then None
      else if !ValidateOptionValues(v, probe) then None
      else ToDaemonCommand(v)
  }

  /** `parse_options`: the `getopt_long` loop with its nine counters. */
  method ParseOptions(tokens: seq<Token>, operands: nat, probe: Probe) returns (command: Option<TypesJson.DaemonCommand>)
    ensures command == ParseOptionsSpec(tokens, operands, probe)
  {
    var values := NO_VALUES;
    var counts: map<OptionName, nat> := map[];
    var i := 0;
    assert tokens[i..] == tokens;
    while i < |tokens|
      invariant 0 <= i <= |tokens|
      invariant Collect(tokens) == CollectFrom(values, counts, tokens[i..])
    {
      assert tokens[i..][1..] == tokens[i + 1..];
      match tokens[i] {
        case Unrecognised =>
          return None;
        case Given(o, arg) =>
          var c := Count(counts, o) + 1;
          counts := counts[o := c];
          if c > MAX_OCCURRENCE {
            return None;
          }
          values := Store(values, o, arg);
      }
      i := i + 1;
    }
    if operands != 0 {
      return None;
    }
    if !ValidateOptionValues(values, probe) {
      return None;
    }
    command := ToDaemonCommand(values);
  }

  /** The client produces a command exactly when the options are collected
      without error, no operand is left, and the values validate. */
  lemma ParseOptionsExactly(tokens: seq<Token>, operands: nat, probe: Probe)
    ensures ParseOptionsSpec(tokens, operands, probe).Some? <==>
      Acceptable(map[], tokens) && operands == 0 && Collect(tokens).Some? && ValidateOptionValues(Collect(tokens).value, probe)
  {
    CollectFromExactly(NO_VALUES, map[], tokens);
    if Collect(tokens).Some? && ValidateOptionValues(Collect(tokens).value, probe) {
      ValidOptionsGiveCommand(Collect(tokens).value, probe);
    }
  }
}
