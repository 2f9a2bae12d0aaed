// The root crontab as the installer edits it: entries of earlier versions are filtered out, and
// every scheduled helper gets its line once. The file is its text; a missing file reads as empty.
module Crontab {
  import opened Wrappers
  import opened Strings
  import opened Profiles

  const NL := '\n'

  // ---------------------------------------------------------------- text and lines

  // The lines grep sees: a last line without a newline is a line too.
  function Lines(text: string): seq<string>
    decreases |text|
  {
    if text == "" then []
    else
      match Cut(text, NL)
      case None => [text]
      case Some((line, rest)) => [line] + Lines(rest)
  }

  function Text(lines: seq<string>): string {
    if lines == [] then "" else lines[0] + [NL] + Text(lines[1..])
  }

  predicate Terminated(text: string) {
    text == "" || text[|text| - 1] == NL
  }

  predicate LinesOf(lines: seq<string>) {
    forall l | l in lines :: NL !in l
  }

  // ---------------------------------------------------------------- the two edits

  predicate IsLegacy(line: string) {
    Occurs("openwrt-grafana-monitor-metrics", line) || Occurs("openwrt-grafana-monitor-sqm", line)
  }

  predicate HasLegacy(lines: seq<string>) {
    exists l | l in lines :: IsLegacy(l)
  }

  // grep -v
  function Current(lines: seq<string>): seq<string> {
    if lines == [] then [] else (if IsLegacy(lines[0]) then [] else [lines[0]]) + Current(lines[1..])
  }

  function Cleaned(text: string): string {
    if HasLegacy(Lines(text)) then Text(Current(Lines(text))) else text
  }

  // grep -Fqx, and printf at the end of the file if it finds nothing.
  function Ensured(text: string, line: string): string {
    if line in Lines(text) then text else text + line + [NL]
  }

  function EnsuredAll(text: string, lines: seq<string>): string
    decreases |lines|
  {
    if lines == [] then text else EnsuredAll(Ensured(text, lines[0]), lines[1..])
  }

  function Installed(text: string, required: seq<string>): string {
    EnsuredAll(Cleaned(text), required)
  }

  // ---------------------------------------------------------------- the lines the installer needs

  datatype Helper =
    | DeviceStatus | ServiceHealth | PacketLoss | WanInfo | WanQuality | Filesystem | DhcpPool | LinkHealth
    | Softnet | Ipv6Health | Inodes | FirewallCounters | Sqm | WifiRadio
    | ClientTraffic | ClientConntrack
    | NetflowHealth

  function Name(h: Helper): string {
    match h
    case DeviceStatus => "device-status"
    case ServiceHealth => "service-health"
    case PacketLoss => "packet-loss"
    case WanInfo => "wan-info"
    case WanQuality => "wan-quality"
    case Filesystem => "filesystem"
    case DhcpPool => "dhcp-pool"
    case LinkHealth => "link-health"
    case Softnet => "softnet"
    case Ipv6Health => "ipv6-health"
    case Inodes => "inodes"
    case FirewallCounters => "firewall-counters"
    case Sqm => "sqm"
    case WifiRadio => "wifi-radio"
    case ClientTraffic => "client-traffic"
    case ClientConntrack => "client-conntrack"
    case NetflowHealth => "netflow-health"
  }

  function Minutes(h: Helper): string {
    match h
    case PacketLoss | WanInfo | WanQuality | Ipv6Health => "5"
    case Filesystem | Inodes => "10"
    case FirewallCounters | WifiRadio => "2"
    case _ => "1"
  }

  const COMMAND := "* * * * /usr/bin/openwrt-monitor-"

  function CronLine(h: Helper): string {
    "*/" + Minutes(h) + " " + (COMMAND + (Name(h) + ".sh"))
  }

  const COMMON: seq<Helper> :=
    [DeviceStatus, ServiceHealth, PacketLoss, WanInfo, WanQuality, Filesystem, DhcpPool, LinkHealth, Softnet,
     Ipv6Health, Inodes, FirewallCounters, Sqm, WifiRadio]

  function Schedule(profiles: string): seq<Helper> {
    COMMON + (if ProfileEnabled(profiles, "clients") then [ClientTraffic, ClientConntrack] else [])
    + if ProfileEnabled(profiles, "netflow") then [NetflowHealth] else []
  }

  function CronLines(helpers: seq<Helper>): (lines: seq<string>)
    ensures |lines| == |helpers|
  {
    if helpers == [] then [] else [CronLine(helpers[0])] + CronLines(helpers[1..])
  }

  // The lines of a text, as grep sees them: up to each newline, and what is left after the last.
  lemma LinesMean(line: string, rest: string)
    requires '\n' !in line
    ensures Lines(line + "\n" + rest) == [line] + Lines(rest)
    ensures Lines(line) == if line == "" then [] else [line]
  {
    CutAt(line, '\n', rest);
    CutNone(line, '\n');
    assert line + ['\n'] + rest == line + "\n" + rest;
  }

  // ---------------------------------------------------------------- the timetable, line by line

  // The cron line that runs a helper at every so many minutes.
  function Every(minutes: string, helper: string): string {
    "*/" + minutes + " " + ("* * * * /usr/bin/openwrt-monitor-" + (helper + ".sh"))
  }

  const COMMON_LINES: seq<string> := [
    Every("1", "device-status"),
    Every("1", "service-health"),
    Every("5", "packet-loss"),
    Every("5", "wan-info"),
    Every("5", "wan-quality"),
    Every("10", "filesystem"),
    Every("1", "dhcp-pool"),
    Every("1", "link-health"),
    Every("1", "softnet"),
    Every("5", "ipv6-health"),
    Every("10", "inodes"),
    Every("2", "firewall-counters"),
    Every("1", "sqm"),
    Every("2", "wifi-radio")
  ]

  const CLIENT_LINES: seq<string> := [
    Every("1", "client-traffic"),
    Every("1", "client-conntrack")
  ]

  const NETFLOW_LINE := Every("1", "netflow-health")

  lemma FirstLines()
    ensures CronLine(DeviceStatus) == Every("1", "device-status")
    ensures CronLine(ServiceHealth) == Every("1", "service-health")
    ensures CronLine(PacketLoss) == Every("5", "packet-loss")
    ensures CronLine(WanInfo) == Every("5", "wan-info")
    ensures CronLine(WanQuality) == Every("5", "wan-quality")
  {
  }

  lemma MoreLines()
    ensures CronLine(Filesystem) == Every("10", "filesystem")
    ensures CronLine(DhcpPool) == Every("1", "dhcp-pool")
    ensures CronLine(LinkHealth) == Every("1", "link-health")
    ensures CronLine(Softnet) == Every("1", "softnet")
    ensures CronLine(Ipv6Health) == Every("5", "ipv6-health")
  {
  }

  lemma LastLines()
    ensures CronLine(Inodes) == Every("10", "inodes")
    ensures CronLine(FirewallCounters) == Every("2", "firewall-counters")
    ensures CronLine(Sqm) == Every("1", "sqm")
    ensures CronLine(WifiRadio) == Every("2", "wifi-radio")
  {
  }

  lemma ProfileLines()
    ensures CronLine(ClientTraffic) == Every("1", "client-traffic")
    ensures CronLine(ClientConntrack) == Every("1", "client-conntrack")
    ensures CronLine(NetflowHealth) == Every("1", "netflow-health")
  {
  }

  lemma {:induction false} CronLinesAppend(a: seq<Helper>, b: seq<Helper>)
    ensures CronLines(a + b) == CronLines(a) + CronLines(b)
    decreases |a|
  {
    if a == [] {
      assert a + b == b;
    } else {
      assert (a + b)[1..] == a[1..] + b;
      CronLinesAppend(a[1..], b);
    }
  }

  lemma {:induction false} LinesOfHelpers(helpers: seq<Helper>, lines: seq<string>)
    requires |helpers| == |lines| && forall i | 0 <= i < |helpers| :: CronLine(helpers[i]) == lines[i]
    ensures CronLines(helpers) == lines
    decreases |helpers|
  {
    if helpers != [] {
      assert CronLine(helpers[0]) == lines[0] && lines == [lines[0]] + lines[1..];
      LinesOfHelpers(helpers[1..], lines[1..]);
    }
  }

  lemma CommonLines()
    ensures CronLines(COMMON) == COMMON_LINES
  {
    CommonLineAt(0);
    forall i: nat | i < |COMMON| ensures CronLine(COMMON[i]) == COMMON_LINES[i] {
      CommonLineAt(i);
    }
    LinesOfHelpers(COMMON, COMMON_LINES);
  }

  lemma CommonLineAt(i: nat)
    requires i < |COMMON|
    ensures |COMMON| == |COMMON_LINES| && CronLine(COMMON[i]) == COMMON_LINES[i]
  {
    if i < 5 {
      FirstLines();
    } else if i < 10 {
      MoreLines();
    } else {
      LastLines();
    }
  }

  // The lines the installer asks for, in their order, for every list it accepts.
  lemma Timetable(profiles: string)
    requires ShellAccepts(profiles)
    ensures
      var asks := (profile: string) => profiles == "full" || profile in Split(profiles, ',');
      CronLines(Schedule(profiles))
      == COMMON_LINES + (if asks("clients") then CLIENT_LINES else []) + (if asks("netflow") then [NETFLOW_LINE] else [])
  {
    EnabledIsMember(profiles, "clients");
    EnabledIsMember(profiles, "netflow");
    CommonLines();
    ProfileLines();
    var clients := if ProfileEnabled(profiles, "clients") then [ClientTraffic, ClientConntrack] else [];
    var netflow := if ProfileEnabled(profiles, "netflow") then [NetflowHealth] else [];
    CronLinesAppend(COMMON + clients, netflow);
    CronLinesAppend(COMMON, clients);
    TwoCronLines(ClientTraffic, ClientConntrack);
    OneCronLine(NetflowHealth);
  }

  lemma OneCronLine(h: Helper)
    ensures CronLines([h]) == [CronLine(h)]
  {
    assert [h][1..] == [];
  }

  lemma TwoCronLines(g: Helper, h: Helper)
    ensures CronLines([g, h]) == [CronLine(g), CronLine(h)]
  {
    assert [g, h][1..] == [h];
    OneCronLine(h);
  }

  // Of a crontab the lines that name neither superseded helper are kept, in their order.
  lemma {:induction false} CurrentInOrder(first: seq<string>, line: string, later: seq<string>)
    ensures Current(first + [line] + later)
         == Current(first)
            + (if Occurs("openwrt-grafana-monitor-metrics", line) || Occurs("openwrt-grafana-monitor-sqm", line) then [] else [line])
            + Current(later)
    decreases |first|
  {
    if first == [] {
      assert first + [line] + later == [line] + later && ([line] + later)[1..] == later;
    } else {
      assert (first + [line] + later)[1..] == first[1..] + [line] + later;
      CurrentInOrder(first[1..], line, later);
    }
  }

  // ---------------------------------------------------------------- lines and text are inverse

  lemma {:induction false} LinesAppend(a: string, b: string)
    requires Terminated(a)
    ensures Lines(a + b) == Lines(a) + Lines(b)
    decreases |a|
  {
    if a == "" {
      assert a + b == b;
    } else {
      CutNone(a, NL);
      assert a[|a| - 1] in a;
      var (line, rest) := Cut(a, NL).value;
      assert a + b == line + [NL] + (rest + b);
      CutAt(line, NL, rest + b);
      assert rest == "" || rest[|rest| - 1] == a[|a| - 1];
      LinesAppend(rest, b);
      assert [line] + Lines(rest) + Lines(b) == [line] + (Lines(rest) + Lines(b));
    }
  }

  lemma LineAlone(line: string)
    requires NL !in line
    ensures Lines(line + [NL]) == [line] && Terminated(line + [NL])
  {
    CutAt(line, NL, "");
    assert line + [NL] + "" == line + [NL];
  }

  lemma LineUnfinished(line: string)
    requires NL !in line && line != ""
    ensures Lines(line) == [line]
  {
    CutNone(line, NL);
  }

  lemma {:induction false} LinesText(lines: seq<string>)
    requires LinesOf(lines)
    ensures Lines(Text(lines)) == lines && Terminated(Text(lines))
    decreases |lines|
  {
    if lines != [] {
      assert lines[0] in lines && forall l | l in lines[1..] :: l in lines;
      LinesText(lines[1..]);
      LineAlone(lines[0]);
      LinesAppend(lines[0] + [NL], Text(lines[1..]));
      assert lines == [lines[0]] + lines[1..];
    }
  }

  lemma {:induction false} LinesHoldNoNewline(text: string)
    ensures LinesOf(Lines(text))
    decreases |text|
  {
    if text != "" {
      CutNone(text, NL);
      if Cut(text, NL).Some? {
        LinesHoldNoNewline(Cut(text, NL).value.1);
      }
    }
  }

  // An unterminated text is whole lines and an unfinished one.
  lemma {:induction false} LastUnfinished(text: string) returns (whole: string, last: string)
    requires !Terminated(text)
    ensures text == whole + last && Terminated(whole) && NL !in last && last != ""
    decreases |text|
  {
    CutNone(text, NL);
    if Cut(text, NL).None? {
      whole, last := "", text;
      assert "" + text == text;
    } else {
      var (line, rest) := Cut(text, NL).value;
      assert text[|text| - 1] == if rest == "" then NL else rest[|rest| - 1];
      var more;
      more, last := LastUnfinished(rest);
      whole := line + [NL] + more;
      assert whole + last == line + [NL] + (more + last);
      assert more != "" ==> whole[|whole| - 1] == more[|more| - 1];
    }
  }

  // ---------------------------------------------------------------- the clean-up

  lemma {:induction false} CurrentLines(lines: seq<string>)
    ensures !HasLegacy(Current(lines))
    ensures forall l | l in Current(lines) :: l in lines
    ensures !HasLegacy(lines) ==> Current(lines) == lines
    decreases |lines|
  {
    if lines != [] {
      CurrentLines(lines[1..]);
      assert lines == [lines[0]] + lines[1..];
      assert lines[0] in lines && forall l | l in lines[1..] :: l in lines;
    }
  }

  lemma CleanedLines(text: string)
    ensures Lines(Cleaned(text)) == Current(Lines(text)) && !HasLegacy(Lines(Cleaned(text)))
    ensures Terminated(Cleaned(text)) <==> Terminated(text) || HasLegacy(Lines(text))
  {
    CurrentLines(Lines(text));
    LinesHoldNoNewline(text);
    LinesText(Current(Lines(text)));
  }

  // ---------------------------------------------------------------- the required lines

  // The lines not there yet, each once, in the order they are asked for.
  function Missing(have: seq<string>, required: seq<string>): seq<string>
    decreases |required|
  {
    if required == [] then []
    else if required[0] in have then Missing(have, required[1..])
    else [required[0]] + Missing(have + [required[0]], required[1..])
  }

  lemma {:induction false} MissingLines(have: seq<string>, required: seq<string>)
    ensures forall l | l in required :: l in have + Missing(have, required)
    ensures forall l | l in Missing(have, required) :: l in required && l !in have
    decreases |required|
  {
    if required != [] {
      var l := required[0];
      assert required == [l] + required[1..];
      if l in have {
        MissingLines(have, required[1..]);
      } else {
        MissingLines(have + [l], required[1..]);
        assert have + [l] + Missing(have + [l], required[1..]) == have + Missing(have, required);
      }
    }
  }

  lemma {:induction false} NothingMissing(have: seq<string>, required: seq<string>)
    ensures Missing(have, required) == [] <==> forall l | l in required :: l in have
    decreases |required|
  {
    MissingLines(have, required);
    if required != [] && required[0] in have {
      NothingMissing(have, required[1..]);
      assert required == [required[0]] + required[1..];
    }
  }

  lemma EnsuredLines(text: string, line: string)
    requires Terminated(text) && NL !in line
    ensures Terminated(Ensured(text, line))
    ensures Lines(Ensured(text, line)) == if line in Lines(text) then Lines(text) else Lines(text) + [line]
  {
    LineAlone(line);
    LinesAppend(text, line + [NL]);
    assert text + line + [NL] == text + (line + [NL]);
  }

  lemma MissingStep(have: seq<string>, line: string, later: seq<string>)
    ensures have + Missing(have, [line] + later)
         == if line in have then have + Missing(have, later) else have + [line] + Missing(have + [line], later)
  {
    assert ([line] + later)[1..] == later;
    if line !in have {
      assert have + ([line] + Missing(have + [line], later)) == have + [line] + Missing(have + [line], later);
    }
  }

  lemma {:induction false} EnsuredAllLines(text: string, required: seq<string>)
    requires Terminated(text) && LinesOf(required)
    ensures Terminated(EnsuredAll(text, required))
    ensures Lines(EnsuredAll(text, required)) == Lines(text) + Missing(Lines(text), required)
    decreases |required|
  {
    if required == [] {
      assert Lines(text) + [] == Lines(text);
    } else {
      var line, later := required[0], required[1..];
      assert required == [line] + later && LinesOf(later);
      EnsuredLines(text, line);
      EnsuredAllLines(Ensured(text, line), later);
      MissingStep(Lines(text), line, later);
    }
  }

  lemma {:induction false} EnsuredAllNothing(text: string, required: seq<string>)
    requires forall l | l in required :: l in Lines(text)
    ensures EnsuredAll(text, required) == text
    decreases |required|
  {
    if required != [] {
      assert required[0] in required && forall l | l in required[1..] :: l in required;
      EnsuredAllNothing(text, required[1..]);
    }
  }

  // ---------------------------------------------------------------- one run, and the next

  predicate Required(lines: seq<string>) {
    forall l | l in lines :: l != "" && NL !in l && !IsLegacy(l)
  }

  // The lines after a run: those that are not legacy, in order and as often as they were, then the
  // missing ones.
  lemma InstalledLines(text: string, required: seq<string>)
    requires Required(required) && (Terminated(text) || HasLegacy(Lines(text)))
    ensures Terminated(Installed(text, required))
    ensures Lines(Installed(text, required)) == Current(Lines(text)) + Missing(Current(Lines(text)), required)
    ensures !HasLegacy(Lines(Installed(text, required)))
    ensures forall l | l in required :: l in Lines(Installed(text, required))
  {
    var have := Current(Lines(text));
    CleanedLines(text);
    EnsuredAllLines(Cleaned(text), required);
    MissingLines(have, required);
  }

  lemma SecondRunChangesNothing(text: string, required: seq<string>)
    requires Required(required) && (Terminated(text) || HasLegacy(Lines(text)))
    ensures Installed(Installed(text, required), required) == Installed(text, required)
  {
    InstalledLines(text, required);
    EnsuredAllNothing(Installed(text, required), required);
  }

  // What an installer run is for: no line is lost or changed, and every helper is scheduled.
  predicate Converges(text: string, required: seq<string>) {
    && Current(Lines(text)) <= Lines(Installed(text, required))
    && forall l | l in required :: l in Lines(Installed(text, required))
  }

  lemma GluedLine(whole: string, last: string, line: string, later: seq<string>)
    requires Terminated(whole) && NL !in last && NL !in line && line != "" && LinesOf(later)
    ensures !(Lines(whole) + [last] <= Lines(EnsuredAll(whole + last + line + [NL], later)))
  {
    var glued := last + line;
    assert whole + last + line + [NL] == whole + (glued + [NL]);
    LineAlone(glued);
    LinesAppend(whole, glued + [NL]);
    EnsuredLines(whole, glued);
    assert Terminated(whole + (glued + [NL]));
    EnsuredAllLines(whole + (glued + [NL]), later);
    assert (Lines(whole) + [glued] + Missing(Lines(whole) + [glued], later))[|Lines(whole)|] == glued;
    assert (Lines(whole) + [last])[|Lines(whole)|] == last != glued;
  }

  // The first missing line is glued to an unfinished last line.
  lemma {:induction false} UnfinishedIsChanged(whole: string, last: string, required: seq<string>)
    requires Terminated(whole) && NL !in last && last != "" && Required(required)
    requires exists l | l in required :: l !in Lines(whole + last)
    ensures Lines(whole + last) == Lines(whole) + [last]
    ensures !(Lines(whole) + [last] <= Lines(EnsuredAll(whole + last, required)))
    decreases |required|
  {
    LinesAppend(whole, last);
    LineUnfinished(last);
    var line, later := required[0], required[1..];
    assert required == [line] + later && line in required && Required(later);
    if line in Lines(whole + last) {
      UnfinishedIsChanged(whole, last, later);
    } else {
      GluedLine(whole, last, line, later);
    }
  }

  // Exactly when a run converges: the file ends in a newline, or the clean-up rewrites it, or there
  // is nothing to add.
  lemma ConvergesExactly(text: string, required: seq<string>)
    requires Required(required)
    ensures Converges(text, required)
       <==> Terminated(text) || HasLegacy(Lines(text)) || forall l | l in required :: l in Lines(text)
  {
    if Terminated(text) || HasLegacy(Lines(text)) {
      InstalledLines(text, required);
    } else {
      CurrentLines(Lines(text));
      if forall l | l in required :: l in Lines(text) {
        EnsuredAllNothing(text, required);
      } else {
        var whole, last := LastUnfinished(text);
        UnfinishedIsChanged(whole, last, required);
      }
    }
  }

  // ---------------------------------------------------------------- the scheduled helpers

  predicate NoMark(s: string) {
    NL !in s && 'g' !in s
  }

  lemma OccursChars(pattern: string, s: string, c: char)
    requires c in pattern && Occurs(pattern, s)
    ensures c in s
  {
    var i := Occurrence(pattern, s);
    var k :| 0 <= k < |pattern| && pattern[k] == c;
    assert s[i + k] == s[i..i + |pattern|][k];
  }

  lemma NoMarkIsNotLegacy(line: string)
    requires 'g' !in line
    ensures !IsLegacy(line)
  {
    var metrics, sqm := "openwrt-grafana-monitor-metrics", "openwrt-grafana-monitor-sqm";
    assert metrics[8] == 'g' && sqm[8] == 'g';
    if Occurs(metrics, line) {
      OccursChars(metrics, line, 'g');
    }
    if Occurs(sqm, line) {
      OccursChars(sqm, line, 'g');
    }
  }

  lemma NameIsOneLine(h: Helper)
    ensures NL !in Name(h)
  {
  }

  lemma NameHasNoMark(h: Helper)
    ensures 'g' !in Name(h)
  {
  }

  lemma NamePlain(h: Helper)
    ensures NoMark(Name(h))
  {
    NameIsOneLine(h);
    NameHasNoMark(h);
  }

  lemma MinutesPlain(h: Helper)
    ensures NoMark(Minutes(h))
  {
  }

  lemma LinePlain(minutes: string, name: string)
    requires NoMark(minutes) && NoMark(name)
    ensures NoMark("*/" + minutes + " " + (COMMAND + (name + ".sh")))
  {
    assert NoMark(COMMAND);
    assert NoMark("*/") && NoMark(" ") && NoMark(".sh");
  }

  lemma {:induction false} CronLinesRequired(helpers: seq<Helper>)
    ensures Required(CronLines(helpers))
    ensures forall h | h in helpers :: CronLine(h) in CronLines(helpers)
    decreases |helpers|
  {
    if helpers != [] {
      var h := helpers[0];
      NamePlain(h);
      MinutesPlain(h);
      LinePlain(Minutes(h), Name(h));
      NoMarkIsNotLegacy(CronLine(h));
      CronLinesRequired(helpers[1..]);
      assert helpers == [h] + helpers[1..];
    }
  }

  // A name is told by its length and first letter.
  function Length(h: Helper): nat {
    match h
    case DeviceStatus => 13 case ServiceHealth => 14 case PacketLoss => 11 case WanInfo => 8 case WanQuality => 11
    case Filesystem => 10 case DhcpPool => 9 case LinkHealth => 11 case Softnet => 7 case Ipv6Health => 11
    case Inodes => 6 case FirewallCounters => 17 case Sqm => 3 case WifiRadio => 10
    case ClientTraffic => 14 case ClientConntrack => 16 case NetflowHealth => 14
  }

  function Initial(h: Helper): char {
    match h
    case DeviceStatus => 'd' case ServiceHealth => 's' case PacketLoss => 'p' case WanInfo => 'w' case WanQuality => 'w'
    case Filesystem => 'f' case DhcpPool => 'd' case LinkHealth => 'l' case Softnet => 's' case Ipv6Health => 'i'
    case Inodes => 'i' case FirewallCounters => 'f' case Sqm => 's' case WifiRadio => 'w'
    case ClientTraffic => 'c' case ClientConntrack => 'c' case NetflowHealth => 'n'
  }

  lemma NameTold(h: Helper)
    ensures |Name(h)| == Length(h) > 0 && Name(h)[0] == Initial(h)
  {
  }

  lemma SameName(h: Helper, g: Helper)
    ensures Name(h) == Name(g) ==> h == g
  {
    NameTold(h);
    NameTold(g);
  }

  lemma MinutesNoSpace(h: Helper)
    ensures ' ' !in Minutes(h)
  {
  }

  lemma LineParts(h: Helper)
    ensures Cut(CronLine(h), ' ') == Some(("*/" + Minutes(h), COMMAND + (Name(h) + ".sh")))
  {
    MinutesNoSpace(h);
    CutAt("*/" + Minutes(h), ' ', COMMAND + (Name(h) + ".sh"));
  }

  lemma SameEnds(first: string, a: string, b: string, last: string)
    requires first + (a + last) == first + (b + last)
    ensures a == b
  {
    var x, y := first + (a + last), first + (b + last);
    assert x[|first|..] == a + last && y[|first|..] == b + last;
    assert (a + last)[..|a|] == a && (b + last)[..|b|] == b;
  }

  lemma SameLine(h: Helper, g: Helper)
    requires CronLine(h) == CronLine(g)
    ensures h == g
  {
    LineParts(h);
    LineParts(g);
    SameEnds(COMMAND, Name(h), Name(g), ".sh");
    SameName(h, g);
  }

  lemma {:induction false} LineOfHelper(h: Helper, helpers: seq<Helper>)
    ensures CronLine(h) in CronLines(helpers) <==> h in helpers
    decreases |helpers|
  {
    if helpers != [] {
      LineOfHelper(h, helpers[1..]);
      assert helpers == [helpers[0]] + helpers[1..];
      if CronLine(h) == CronLine(helpers[0]) {
        SameLine(h, helpers[0]);
      }
    }
  }

  // Which helpers an accepted profile list asks for.
  predicate Wanted(h: Helper, profiles: string) {
    match h
    case ClientTraffic | ClientConntrack => profiles == "full" || "clients" in Split(profiles, ',')
    case NetflowHealth => profiles == "full" || "netflow" in Split(profiles, ',')
    case _ => true
  }

  lemma ScheduledExactly(h: Helper, profiles: string)
    requires ShellAccepts(profiles)
    ensures h in Schedule(profiles) <==> Wanted(h, profiles)
  {
    EnabledIsMember(profiles, "clients");
    EnabledIsMember(profiles, "netflow");
    ScheduleHolds(h, profiles);
  }

  lemma CommonHolds(h: Helper)
    ensures h in COMMON <==> h != ClientTraffic && h != ClientConntrack && h != NetflowHealth
  {
    assert COMMON[0] == DeviceStatus && COMMON[1] == ServiceHealth && COMMON[2] == PacketLoss && COMMON[3] == WanInfo;
    assert COMMON[4] == WanQuality && COMMON[5] == Filesystem && COMMON[6] == DhcpPool && COMMON[7] == LinkHealth;
    assert COMMON[8] == Softnet && COMMON[9] == Ipv6Health && COMMON[10] == Inodes && COMMON[11] == FirewallCounters;
    assert COMMON[12] == Sqm && COMMON[13] == WifiRadio;
  }

  lemma InThree<T>(x: T, a: seq<T>, b: seq<T>, c: seq<T>)
    ensures x in a + b + c <==> x in a || x in b || x in c
  {
  }

  lemma ScheduleHolds(h: Helper, profiles: string)
    ensures h in Schedule(profiles)
       <==> h in COMMON || (ProfileEnabled(profiles, "clients") && (h == ClientTraffic || h == ClientConntrack))
            || (ProfileEnabled(profiles, "netflow") && h == NetflowHealth)
    ensures h in COMMON <==> h != ClientTraffic && h != ClientConntrack && h != NetflowHealth
  {
    CommonHolds(h);
    InThree(h, COMMON, if ProfileEnabled(profiles, "clients") then [ClientTraffic, ClientConntrack] else [],
            if ProfileEnabled(profiles, "netflow") then [NetflowHealth] else []);
  }

  // After a run, a helper's line is in the crontab exactly if it was there, or the profile list asks
  // for the helper.
  lemma HelpersScheduled(text: string, profiles: string, h: Helper)
    requires Terminated(text) && ShellAccepts(profiles)
    ensures CronLine(h) in Lines(Installed(text, CronLines(Schedule(profiles))))
       <==> CronLine(h) in Lines(text) || Wanted(h, profiles)
  {
    var required, have := CronLines(Schedule(profiles)), Current(Lines(text));
    CronLinesRequired(Schedule(profiles));
    CronLinesRequired([h]);
    assert CronLines([h]) == [CronLine(h)];
    InstalledLines(text, required);
    MissingLines(have, required);
    LineOfHelper(h, Schedule(profiles));
    ScheduledExactly(h, profiles);
    CurrentKeeps(Lines(text), CronLine(h));
  }

  lemma {:induction false} CurrentKeeps(lines: seq<string>, line: string)
    requires !IsLegacy(line)
    ensures line in Current(lines) <==> line in lines
    decreases |lines|
  {
    if lines != [] {
      CurrentKeeps(lines[1..], line);
      assert lines == [lines[0]] + lines[1..];
    }
  }

  lemma UnfinishedLineFails(text: string, required: seq<string>, line: string)
    requires Required(required) && line in required && line != text
    requires text != "" && NL !in text && !IsLegacy(text)
    ensures !Converges(text, required)
  {
    LineUnfinished(text);
    assert text[|text| - 1] in text;
    ConvergesExactly(text, required);
  }

  const REBOOT := "0 5 * * * reboot"

  lemma RebootIsOther()
    ensures REBOOT != "" && NL !in REBOOT && !IsLegacy(REBOOT) && REBOOT[0] == '0'
  {
    NoMarkIsNotLegacy(REBOOT);
  }

  // A crontab of one unfinished line does not converge, whatever the profiles are: the line is lost
  // in a longer one.
  lemma UnfinishedCrontabFails(profiles: string)
    ensures !Converges(REBOOT, CronLines(Schedule(profiles)))
  {
    CronLinesRequired(Schedule(profiles));
    assert COMMON[0] in Schedule(profiles);
    RebootIsOther();
    LineStarts(COMMON[0]);
    UnfinishedLineFails(REBOOT, CronLines(Schedule(profiles)), CronLine(COMMON[0]));
  }

  lemma LineStarts(h: Helper)
    ensures CronLine(h) != "" && CronLine(h)[0] == '*'
  {
  }

  // ---------------------------------------------------------------- the installer's edits

  // No line is lost, moved or repeated, what is missing is added, nothing legacy is left, and running
  // the edits again changes nothing.
  predicate AfterInstall(before: string, after: string, required: seq<string>) {
    && Lines(after) == Current(Lines(before)) + Missing(Current(Lines(before)), required)
    && !HasLegacy(Lines(after))
    && Installed(after, required) == after
  }

  lemma InstallConverges(before: string, profiles: string)
    ensures Terminated(before) ==>
      AfterInstall(before, Installed(before, CronLines(Schedule(profiles))), CronLines(Schedule(profiles)))
  {
    var required := CronLines(Schedule(profiles));
    CronLinesRequired(Schedule(profiles));
    if Terminated(before) {
      InstalledLines(before, required);
      SecondRunChangesNothing(before, required);
    }
  }

  class CrontabFile {
    var text: string

    constructor (content: string)
      ensures text == content
    {
      text := content;
    }

    method RemoveLegacy()
      modifies this
      ensures text == Cleaned(old(text))
      ensures Lines(text) == Current(Lines(old(text))) && !HasLegacy(Lines(text))
      ensures !HasLegacy(Lines(old(text))) ==> text == old(text)
    {
      CleanedLines(text);
      if HasLegacy(Lines(text)) {
        text := Text(Current(Lines(text)));
      }
    }

    method EnsureCronLine(line: string)
      modifies this
      ensures text == Ensured(old(text), line)
      ensures line in Lines(old(text)) ==> text == old(text)
      ensures NL !in line && Terminated(old(text)) ==>
                Terminated(text) && Lines(text) == if line in Lines(old(text)) then Lines(old(text)) else Lines(old(text)) + [line]
    {
      if Terminated(text) && NL !in line {
        EnsuredLines(text, line);
      }
      if line !in Lines(text) {
        text := text + line + [NL];
      }
    }

    method EnsureCronLines(required: seq<string>)
      modifies this
      ensures text == EnsuredAll(old(text), required)
    {
      var i := 0;
      while i < |required|
        invariant i <= |required|
        invariant EnsuredAll(text, required[i..]) == EnsuredAll(old(text), required)
      {
        assert required[i..][1..] == required[i + 1..];
        EnsureCronLine(required[i]);
        i := i + 1;
      }
    }

    // The clean-up and the calls of ensure_cron_line, for an accepted profile list.
    method Install(profiles: string)
      modifies this
      ensures text == Installed(old(text), CronLines(Schedule(profiles)))
      ensures Terminated(old(text)) ==> AfterInstall(old(text), text, CronLines(Schedule(profiles)))
      ensures Terminated(old(text)) ==> forall line | line in Lines(text) ::
                !Occurs("openwrt-grafana-monitor-metrics", line) && !Occurs("openwrt-grafana-monitor-sqm", line)
    {
      ghost var before := text;
      RemoveLegacy();
      EnsureCronLines(CronLines(Schedule(profiles)));
      InstallConverges(before, profiles);
    }
  }
}
