// The commands the management server runs on a router: a test log message and the installer.
module ServerCommands {
  import opened Wrappers
  import opened SeqLaws
  import opened Strings
  import opened Policy
  import opened Profiles
  import opened ShellQuote

  const MAX_MESSAGE: nat := 240
  const MAX_PORT: nat := 65535
  const DEFAULT_TIMEOUT: nat := 15

  datatype Command = Command(text: string, timeout: int)

  // ---------------------------------------------------------------- validation

  predicate IsHostText(s: string) {
    s != "" && forall c | c in s :: IsLabelChar(c) || c == ':'
  }

  // A name that is not an address may not hold two dots in a row, or begin or end with a hyphen.
  predicate IsHostName(s: string) {
    s != "" && !Occurs("..", s) && s[0] != '-' && s[|s| - 1] != '-'
  }

  function ValidateHost(raw: string, isAddress: string -> bool): Verdict<string> {
    var value := Strip(raw);
    if !IsHostText(value) then Rejected(BadHost)
    else if '/' in value || '@' in value then Rejected(BadHost)
    else if !isAddress(value) && !IsHostName(value) then Rejected(BadHost)
    else Accepted(value)
  }

  function ValidatePort(port: int): Verdict<int> {
    if port < 1 || port > MAX_PORT then Rejected(BadPort) else Accepted(port)
  }

  function ValidateInterface(raw: string): Verdict<string> {
    if IsHostText(Strip(raw)) then Accepted(Strip(raw)) else Rejected(BadInterface)
  }

  function ValidateProtocol(raw: string): Verdict<string> {
    var proto := Strip(Lower(raw));
    if proto == "udp" || proto == "tcp" then Accepted(proto) else Rejected(BadProtocol)
  }

  lemma HostChars(host: string)
    requires IsHostText(host)
    ensures NoSpace(host) && IsSafe(host)
  {
    forall c | c in host ensures IsSafeChar(c) && !IsSpace(c) {
    }
  }

  // A name passes when only its first and its last label may be empty and it has no hyphen at either
  // end. A host that passes needs no quoting and passes again as it is.
  lemma HostAccepted(raw: string, isAddress: string -> bool)
    ensures
      var host := Strip(raw);
      ValidateHost(raw, isAddress).Accepted?
      <==> host != "" && (forall c | c in host :: '0' <= c <= '9' || 'A' <= c <= 'Z' || 'a' <= c <= 'z' || c in "._:-")
           && (isAddress(host) || (!InnerEmpty(Split(host, '.')) && host[0] != '-' && host[|host| - 1] != '-'))
    ensures ValidateHost(raw, isAddress).Accepted? ==>
      var host := ValidateHost(raw, isAddress).value;
      Quote(host) == host && ValidateHost(host, isAddress) == Accepted(host)
  {
    PairIsInnerEmpty(Strip(raw), '.');
    assert ['.', '.'] == "..";
    if IsHostText(Strip(raw)) {
      HostChars(Strip(raw));
      StripNothing(Strip(raw));
    }
  }

  // ---------------------------------------------------------------- the builders

  const DEFAULT_MESSAGE := "test message from OpenWrt SSH MCP"
  const INSTALLER := "/tmp/openwrt/setup.sh"
  const DEFAULT_TAG := "openwrt-ssh-mcp"

  function OrDefault(s: string, default: string): string {
    Strip(if s == "" then default else s)
  }

  function BuildTestLog(rawMessage: string, rawTag: string): Verdict<Command> {
    var message := OrDefault(rawMessage, DEFAULT_MESSAGE);
    var tag := OrDefault(rawTag, DEFAULT_TAG);
    if |message| > MAX_MESSAGE then Rejected(LongMessage)
    else if !IsLabel(tag) then Rejected(BadTag)
    else Accepted(Command("logger -t " + Quote(tag) + " " + Quote(message), DEFAULT_TIMEOUT))
  }

  datatype Setup = Setup(host: string, profile: string, lanInterface: string, port: int, proto: string, timeout: int)

  // The environment assignments written before a command.
  function Assigned(env: seq<(string, string)>): (parts: seq<string>)
    ensures |parts| == |env|
  {
    if env == [] then [] else [env[0].0 + "=" + Quote(env[0].1)] + Assigned(env[1..])
  }

  function SetupEnvironment(profile: string, port: int, proto: string): seq<(string, string)>
    requires 0 <= port
  {
    [("OPENWRT_MONITOR_PROFILE", profile), ("SYSLOG_PORT", Decimal(port)), ("SYSLOG_PROTO", proto)]
  }

  function SetupText(env: seq<(string, string)>, host: string): string
    requires env != []
  {
    Join(Assigned(env), ' ') + " " + ("sh" + " " + (INSTALLER + " " + Quote(host)))
  }

  function BuildSetup(raw: Setup, isAddress: string -> bool): Verdict<Command> {
    var host :- ValidateHost(raw.host, isAddress);
    var port :- ValidatePort(raw.port);
    if raw.timeout < 1 then Rejected(BadTimeout) else
      var proto :- ValidateProtocol(raw.proto);
      var profile :- Normalize(raw.profile);
      var env := SetupEnvironment(profile, port, proto);
      if raw.lanInterface == "" then Accepted(Command(SetupText(env, host), raw.timeout))
      else
        var lan :- ValidateInterface(raw.lanInterface);
        Accepted(Command(SetupText(env + [("TRAFFIC_LAN_INTERFACE", lan)], host), raw.timeout))
  }

  // ---------------------------------------------------------------- what the router reads

  // The request's text with a default for the empty one, stripped.
  lemma TestLogReads(rawMessage: string, rawTag: string)
    ensures
      var message := Strip(if rawMessage == "" then "test message from OpenWrt SSH MCP" else rawMessage);
      var tag := Strip(if rawTag == "" then "openwrt-ssh-mcp" else rawTag);
      var built := BuildTestLog(rawMessage, rawTag);
      && (built.Accepted? <==>
            |message| <= 240 && tag != ""
            && forall c | c in tag :: '0' <= c <= '9' || 'A' <= c <= 'Z' || 'a' <= c <= 'z' || c in "._-")
      && (built.Accepted? ==> Words(built.value.text) == Some(["logger", "-t", tag, message]) && built.value.timeout == 15)
  {
    TestLogWords(OrDefault(rawTag, DEFAULT_TAG), OrDefault(rawMessage, DEFAULT_MESSAGE));
    LabelChars(OrDefault(rawTag, DEFAULT_TAG));
  }

  lemma LabelChars(tag: string)
    ensures IsLabel(tag)
       <==> tag != "" && forall c | c in tag :: '0' <= c <= '9' || 'A' <= c <= 'Z' || 'a' <= c <= 'z' || c in "._-"
  {
  }

  lemma TestLogWords(tag: string, message: string)
    ensures Words("logger -t " + Quote(tag) + " " + Quote(message)) == Some(["logger", "-t", tag, message])
  {
    var operands := Quote(tag) + " " + Quote(message);
    QuotedPairReads(tag, message);
    FixedReads("-t", operands, [tag, message]);
    FixedReads("logger", "-t" + " " + operands, ["-t"] + [tag, message]);
    assert "logger -t " + Quote(tag) + " " + Quote(message) == "logger" + " " + ("-t" + " " + operands);
    assert ["logger", "-t", tag, message] == ["logger"] + (["-t"] + [tag, message]);
  }

  lemma QuotedPairReads(first: string, second: string)
    ensures Words(Quote(first) + " " + Quote(second)) == Some([first, second])
  {
    QuotedReads(second);
    QuotedNextReads("", first, Quote(second), [second]);
    assert "" + Quote(first) == Quote(first) && "" + first == first && [first] + [second] == [first, second];
  }

  // ---------------------------------------------------------------- the environment of the installer

  datatype Simple = Simple(env: seq<(string, string)>, argv: seq<string>)

  predicate IsName(s: string) {
    s != "" && !IsDigit(s[0]) && forall c | c in s :: IsWordChar(c)
  }

  predicate IsAssignment(word: string) {
    Cut(word, '=').Some? && IsName(Cut(word, '=').value.0)
  }

  // Section 2.9.1: the leading words name=value are assignments, the rest is the command.
  function ReadCommand(words: seq<string>): Simple {
    if words == [] || !IsAssignment(words[0]) then Simple([], words)
    else
      var rest := ReadCommand(words[1..]);
      Simple([Cut(words[0], '=').value] + rest.env, rest.argv)
  }

  function AssignmentWords(env: seq<(string, string)>): seq<string> {
    if env == [] then [] else [env[0].0 + "=" + env[0].1] + AssignmentWords(env[1..])
  }

  predicate NamesValid(env: seq<(string, string)>) {
    forall e | e in env :: IsName(e.0)
  }

  lemma NameSafe(name: string)
    requires IsName(name)
    ensures IsSafe(name + "=") && '=' !in name
  {
    forall c | c in name + "=" ensures IsSafeChar(c) {
      if c !in name {
        assert c in "=";
      }
    }
  }

  lemma Regroup(first: string, middle: string, last: string)
    ensures first + [' '] + middle + " " + last == first + " " + (middle + " " + last)
  {
  }

  lemma JoinFirst(first: string, rest: seq<string>)
    requires rest != []
    ensures Join([first] + rest, ' ') == first + [' '] + Join(rest, ' ')
  {
    assert ([first] + rest)[1..] == rest;
  }

  lemma AssignedStep(name: string, value: string, parts: seq<string>, line: string, words: seq<string>)
    requires IsName(name) && parts != [] && Words(Join(parts, ' ') + " " + line) == Some(words)
    ensures Words(Join([name + "=" + Quote(value)] + parts, ' ') + " " + line) == Some([name + "=" + value] + words)
  {
    NameSafe(name);
    JoinFirst(name + "=" + Quote(value), parts);
    Regroup(name + "=" + Quote(value), Join(parts, ' '), line);
    QuotedNextReads(name + "=", value, Join(parts, ' ') + " " + line, words);
  }

  lemma TailNames(env: seq<(string, string)>)
    requires env != [] && NamesValid(env)
    ensures IsName(env[0].0) && NamesValid(env[1..])
  {
    assert env[0] in env && forall e | e in env[1..] :: e in env;
  }

  lemma {:induction false} AssignedReads(env: seq<(string, string)>, line: string, words: seq<string>)
    requires env != [] && NamesValid(env) && Words(line) == Some(words)
    ensures Words(Join(Assigned(env), ' ') + " " + line) == Some(AssignmentWords(env) + words)
    decreases |env|
  {
    var name, value := env[0].0, env[0].1;
    assert env[0] in env;
    var own := name + "=" + value;
    if |env| == 1 {
      NameSafe(name);
      assert Assigned(env[1..]) == [] && AssignmentWords(env[1..]) == [];
      assert Assigned(env) == [name + "=" + Quote(value)] && AssignmentWords(env) == [own];
      QuotedNextReads(name + "=", value, line, words);
    } else {
      TailNames(env);
      AssignedReads(env[1..], line, words);
      AssignedStep(name, value, Assigned(env[1..]), line, AssignmentWords(env[1..]) + words);
      ConsAppend(own, AssignmentWords(env[1..]), words);
    }
  }

  lemma AssignmentReads(name: string, value: string)
    requires IsName(name)
    ensures Cut(name + "=" + value, '=') == Some((name, value)) && IsAssignment(name + "=" + value)
  {
    NameSafe(name);
    CutAt(name, '=', value);
    assert name + ['='] + value == name + "=" + value;
  }

  lemma CommandStep(name: string, value: string, words: seq<string>)
    requires IsName(name)
    ensures ReadCommand([name + "=" + value] + words)
         == Simple([(name, value)] + ReadCommand(words).env, ReadCommand(words).argv)
  {
    AssignmentReads(name, value);
    assert ([name + "=" + value] + words)[1..] == words;
  }

  lemma {:induction false} CommandReads(env: seq<(string, string)>, argv: seq<string>)
    requires NamesValid(env) && ReadCommand(argv) == Simple([], argv)
    ensures ReadCommand(AssignmentWords(env) + argv) == Simple(env, argv)
    decreases |env|
  {
    if env == [] {
      assert AssignmentWords(env) + argv == argv;
    } else {
      TailNames(env);
      CommandReads(env[1..], argv);
      CommandStep(env[0].0, env[0].1, AssignmentWords(env[1..]) + argv);
      ConsAppend(env[0].0 + "=" + env[0].1, AssignmentWords(env[1..]), argv);
      assert [env[0]] + env[1..] == env;
    }
  }

  lemma TwoFixedRead(first: string, second: string, line: string, words: seq<string>)
    requires first != "" && IsSafe(first) && second != "" && IsSafe(second) && Words(line) == Some(words)
    ensures Words(first + " " + (second + " " + line)) == Some([first, second] + words)
  {
    FixedReads(second, line, words);
    FixedReads(first, second + " " + line, [second] + words);
    assert [first] + ([second] + words) == [first, second] + words;
  }

  lemma InstallerReads(env: seq<(string, string)>, host: string)
    requires env != [] && NamesValid(env)
    ensures Words(SetupText(env, host)) == Some(AssignmentWords(env) + ["sh", INSTALLER, host])
  {
    QuotedReads(host);
    assert IsSafe("sh") && IsSafe(INSTALLER);
    TwoFixedRead("sh", INSTALLER, Quote(host), [host]);
    assert ["sh", INSTALLER] + [host] == ["sh", INSTALLER, host];
    AssignedReads(env, "sh" + " " + (INSTALLER + " " + Quote(host)), ["sh", INSTALLER, host]);
  }

  // What the router runs: the installer with exactly the intended environment and host.
  lemma SetupTextRuns(env: seq<(string, string)>, host: string)
    requires env != [] && NamesValid(env)
    ensures Words(SetupText(env, host)).Some?
    ensures ReadCommand(Words(SetupText(env, host)).value) == Simple(env, ["sh", INSTALLER, host])
  {
    InstallerReads(env, host);
    CutNone("sh", '=');
    CommandReads(env, ["sh", INSTALLER, host]);
  }

  function IntendedEnvironment(raw: Setup): seq<(string, string)>
    requires 0 <= raw.port && Normalize(raw.profile).Accepted?
  {
    SetupEnvironment(Normalize(raw.profile).value, raw.port, Strip(Lower(raw.proto)))
    + if raw.lanInterface == "" then [] else [("TRAFFIC_LAN_INTERFACE", Strip(raw.lanInterface))]
  }

  lemma EnvironmentNames(raw: Setup)
    requires 0 <= raw.port && Normalize(raw.profile).Accepted?
    ensures NamesValid(IntendedEnvironment(raw))
  {
    ProfileName();
    PortName();
    ProtocolName();
    InterfaceName();
  }

  lemma ProfileName()
    ensures IsName("OPENWRT_MONITOR_PROFILE")
  {
  }

  lemma PortName()
    ensures IsName("SYSLOG_PORT")
  {
  }

  lemma ProtocolName()
    ensures IsName("SYSLOG_PROTO")
  {
  }

  lemma InterfaceName()
    ensures IsName("TRAFFIC_LAN_INTERFACE")
  {
  }

  lemma SetupBuilds(raw: Setup, isAddress: string -> bool)
    requires BuildSetup(raw, isAddress).Accepted?
    ensures 1 <= raw.port <= MAX_PORT && Normalize(raw.profile).Accepted? && 1 <= raw.timeout
    ensures BuildSetup(raw, isAddress).value == Command(SetupText(IntendedEnvironment(raw), Strip(raw.host)), raw.timeout)
  {
    var env := SetupEnvironment(Normalize(raw.profile).value, raw.port, Strip(Lower(raw.proto)));
    assert env + [] == env;
  }

  // The values a name is given in an environment, in order.
  function Values(env: seq<(string, string)>, name: string): seq<string> {
    if env == [] then [] else (if env[0].0 == name then [env[0].1] else []) + Values(env[1..], name)
  }

  lemma ValuesAppend(env: seq<(string, string)>, last: (string, string), name: string)
    ensures Values(env + [last], name) == Values(env, name) + if last.0 == name then [last.1] else []
    decreases |env|
  {
    if env == [] {
      assert env + [last] == [last] && [last][1..] == [];
    } else {
      assert (env + [last])[1..] == env[1..] + [last];
      ValuesAppend(env[1..], last, name);
    }
  }

  lemma ThreeValues(a: (string, string), b: (string, string), c: (string, string), name: string)
    ensures Values([a, b, c], name)
         == (if a.0 == name then [a.1] else []) + (if b.0 == name then [b.1] else []) + (if c.0 == name then [c.1] else [])
  {
    ValuesAppend([], a, name);
    ValuesAppend([a], b, name);
    ValuesAppend([a, b], c, name);
    assert [] + [a] == [a] && [a] + [b] == [a, b] && [a, b] + [c] == [a, b, c];
  }

  // The environment holds each setting once, under its own name, and nothing else.
  predicate Arrives(env: seq<(string, string)>, profile: string, port: string, proto: string, lan: seq<string>) {
    && Values(env, "OPENWRT_MONITOR_PROFILE") == [profile]
    && Values(env, "SYSLOG_PORT") == [port]
    && Values(env, "SYSLOG_PROTO") == [proto]
    && Values(env, "TRAFFIC_LAN_INTERFACE") == lan
    && forall e | e in env :: e.0 in {"OPENWRT_MONITOR_PROFILE", "SYSLOG_PORT", "SYSLOG_PROTO", "TRAFFIC_LAN_INTERFACE"}
  }

  lemma NamesDiffer()
    ensures |"OPENWRT_MONITOR_PROFILE"| == 23 && |"SYSLOG_PORT"| == 11 && |"SYSLOG_PROTO"| == 12 && |"TRAFFIC_LAN_INTERFACE"| == 21
  {
  }

  lemma PlainArrives(profile: string, port: string, proto: string)
    ensures Arrives([("OPENWRT_MONITOR_PROFILE", profile), ("SYSLOG_PORT", port), ("SYSLOG_PROTO", proto)], profile, port, proto, [])
  {
    NamesDiffer();
    forall name {
      ThreeValues(("OPENWRT_MONITOR_PROFILE", profile), ("SYSLOG_PORT", port), ("SYSLOG_PROTO", proto), name);
    }
  }

  lemma LanArrives(env: seq<(string, string)>, profile: string, port: string, proto: string, lan: string)
    requires Arrives(env, profile, port, proto, [])
    ensures Arrives(env + [("TRAFFIC_LAN_INTERFACE", lan)], profile, port, proto, [lan])
  {
    NamesDiffer();
    forall name {
      ValuesAppend(env, ("TRAFFIC_LAN_INTERFACE", lan), name);
    }
  }

  lemma IntendedArrives(raw: Setup)
    requires 0 <= raw.port && Normalize(raw.profile).Accepted?
    ensures Arrives(IntendedEnvironment(raw), Normalize(raw.profile).value, Decimal(raw.port), Strip(Lower(raw.proto)),
                    if raw.lanInterface == "" then [] else [Strip(raw.lanInterface)])
  {
    var profile, port, proto := Normalize(raw.profile).value, Decimal(raw.port), Strip(Lower(raw.proto));
    PlainArrives(profile, port, proto);
    var plain := SetupEnvironment(profile, raw.port, proto);
    if raw.lanInterface == "" {
      assert plain + [] == plain;
    } else {
      LanArrives(plain, profile, port, proto, Strip(raw.lanInterface));
    }
  }

  // Every accepted request runs the installer on the stripped host, with each setting arriving under
  // its own name: the normalised profile list, the port in digits, the protocol, and the interface
  // exactly when one was given.
  lemma SetupRuns(raw: Setup, isAddress: string -> bool)
    requires BuildSetup(raw, isAddress).Accepted?
    ensures 1 <= raw.port <= 65535 && Normalize(raw.profile).Accepted?
    ensures BuildSetup(raw, isAddress).value.timeout == raw.timeout
    ensures
      var words := Words(BuildSetup(raw, isAddress).value.text);
      && words.Some?
      && ReadCommand(words.value).argv == ["sh", "/tmp/openwrt/setup.sh", Strip(raw.host)]
      && Arrives(ReadCommand(words.value).env, Normalize(raw.profile).value, Decimal(raw.port), Strip(Lower(raw.proto)),
                 if raw.lanInterface == "" then [] else [Strip(raw.lanInterface)])
  {
    SetupBuilds(raw, isAddress);
    EnvironmentNames(raw);
    SetupTextRuns(IntendedEnvironment(raw), Strip(raw.host));
    IntendedArrives(raw);
  }

  // The installer accepts the protocol and the profile list it is given, and reads the port back.
  lemma SetupAccepted(raw: Setup, isAddress: string -> bool)
    requires BuildSetup(raw, isAddress).Accepted?
    ensures Normalize(raw.profile).Accepted? && ShellAccepts(Normalize(raw.profile).value)
    ensures Strip(Lower(raw.proto)) in ["udp", "tcp"]
    ensures 1 <= raw.port <= 65535 && forall c | c in Decimal(raw.port) :: IsDigit(c)
    ensures DigitsValue(Decimal(raw.port)) == raw.port
  {
    NormalizedIsAccepted(raw.profile);
    DecimalRoundTrip(raw.port);
  }

  // What the installer checks of its environment: the protocol, and the profile list.
  predicate InstallerAccepts(profiles: string, proto: string) {
    ShellAccepts(profiles) && proto in ["udp", "tcp"]
  }

  // What only the server checks: that host, port, interface, timeout and profile text are well formed.
  predicate WellFormed(raw: Setup, isAddress: string -> bool) {
    && IsHostText(Strip(raw.host)) && (isAddress(Strip(raw.host)) || IsHostName(Strip(raw.host)))
    && 1 <= raw.port <= 65535 && 1 <= raw.timeout
    && (raw.lanInterface == "" || IsHostText(Strip(raw.lanInterface)))
    && IsProfileText(OrDefault(raw.profile, "core")) && Requested(raw.profile) != []
  }

  // A well-formed request reaches the router exactly when the installer would accept what it asks
  // for, apart from netflow, which only the installer knows.
  lemma SetupAcceptedExactly(raw: Setup, isAddress: string -> bool)
    ensures BuildSetup(raw, isAddress).Accepted?
       <==> WellFormed(raw, isAddress) && "netflow" !in Requested(raw.profile)
            && InstallerAccepts(Join(Requested(raw.profile), ','), Strip(Lower(raw.proto)))
  {
    AcceptedIfInstallable(raw.profile);
  }
}
