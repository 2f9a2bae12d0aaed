// The allowlist of routers, name=host[:port] separated by commas: the parser, its printer, and
// when the two are inverse.
module RouterInventory {
  import opened Wrappers
  import opened SeqLaws
  import opened Strings
  import opened Policy
  import opened Profiles
  import opened ServerCommands

  const DEFAULT_PORT: nat := 22

  datatype Router = Router(name: string, host: string, port: nat)

  // ---------------------------------------------------------------- the parser

  predicate IsNumber(s: string) {
    s != "" && forall c | c in s :: IsDigit(c)
  }

  // The two sides of the only colon; none if there is no colon or more than one.
  function AtOnlyColon(address: string): Option<(string, string)> {
    var cut := Cut(address, ':');
    if cut.Some? && ':' !in cut.value.1 then cut else None
  }

  function ParseHostPort(address: string, isAddress: string -> bool): Verdict<(string, nat)> {
    if address == "" then Rejected(EmptyAddress)
    else
      var sides := AtOnlyColon(address);
      if sides.Some? && IsNumber(sides.value.1) then
        var port :- ValidatePort(DigitsValue(sides.value.1));
        var host :- ValidateHost(sides.value.0, isAddress);
        Accepted((host, port))
      else
        var host :- ValidateHost(address, isAddress);
        Accepted((host, DEFAULT_PORT))
  }

  function ParseEntry(raw: string, isAddress: string -> bool): Verdict<Router> {
    var entry := Strip(raw);
    if entry == "" then Rejected(EmptyEntry)
    else if '=' !in entry then Rejected(MissingEquals)
    else
      CutNone(entry, '=');
      var (left, right) := Cut(entry, '=').value;
      var name := Strip(left);
      if !IsLabel(name) then Rejected(BadName)
      else
        var address :- ParseHostPort(Strip(right), isAddress);
        Accepted(Router(name, address.0, address.1))
  }

  function ParseEntries(entries: seq<string>, isAddress: string -> bool, routers: map<string, Router>)
    : Verdict<map<string, Router>>
    decreases |entries|
  {
    if entries == [] then Accepted(routers)
    else
      var r :- ParseEntry(entries[0], isAddress);
      if r.name in routers then Rejected(DuplicateName)
      else ParseEntries(entries[1..], isAddress, routers[r.name := r])
  }

  function Parse(raw: string, isAddress: string -> bool): Verdict<map<string, Router>> {
    if Strip(raw) == "" then Rejected(EmptyInventory)
    else ParseEntries(Split(Strip(raw), ','), isAddress, map[])
  }

  method ParseInventory(raw: string, isAddress: string -> bool) returns (r: Verdict<map<string, Router>>)
    ensures r == Parse(raw, isAddress)
  {
    var text := Strip(raw);
    if text == "" {
      return Rejected(EmptyInventory);
    }
    var routers: map<string, Router> := map[];
    var entries := Split(text, ',');
    var i := 0;
    while i < |entries|
      invariant i <= |entries|
      invariant ParseEntries(entries[i..], isAddress, routers) == ParseEntries(entries, isAddress, map[])
    {
      assert entries[i..][1..] == entries[i + 1..];
      var entry := ParseEntry(entries[i], isAddress);
      if entry.Rejected? {
        return Rejected(entry.reason);
      }
      var router := entry.value;
      if router.name in routers {
        return Rejected(DuplicateName);
      }
      routers := routers[router.name := router];
      i := i + 1;
    }
    r := Accepted(routers);
  }

  // ---------------------------------------------------------------- the first error

  function NameAt(entries: seq<string>, isAddress: string -> bool, i: int): string {
    if 0 <= i < |entries| && ParseEntry(entries[i], isAddress).Accepted? then ParseEntry(entries[i], isAddress).value.name else ""
  }

  // The first k entries are readable and their names, and these taken ones, all differ.
  ghost predicate Fine(entries: seq<string>, isAddress: string -> bool, taken: set<string>, k: int) {
    && 0 <= k <= |entries|
    && (forall i | 0 <= i < k :: ParseEntry(entries[i], isAddress).Accepted? && NameAt(entries, isAddress, i) !in taken)
    && (forall i, j | 0 <= i < j < k :: NameAt(entries, isAddress, i) != NameAt(entries, isAddress, j))
  }

  // The k-th entry is unreadable for this reason, or has a name that is taken.
  ghost predicate FailsAt(entries: seq<string>, isAddress: string -> bool, taken: set<string>, k: int, r: Reason) {
    && 0 <= k < |entries| && Fine(entries, isAddress, taken, k)
    && (match ParseEntry(entries[k], isAddress)
        case Rejected(reason) => r == reason
        case Accepted(router) =>
          r == DuplicateName && (router.name in taken || exists i | 0 <= i < k :: NameAt(entries, isAddress, i) == router.name))
  }

  lemma NameShifted(entries: seq<string>, isAddress: string -> bool, i: int)
    requires entries != [] && 0 <= i
    ensures NameAt(entries[1..], isAddress, i) == NameAt(entries, isAddress, i + 1)
    ensures i + 1 < |entries| ==> entries[1..][i] == entries[i + 1]
  {
  }

  lemma FineTail(entries: seq<string>, isAddress: string -> bool, taken: set<string>, k: int)
    requires entries != [] && k >= 1 && Fine(entries, isAddress, taken, k)
    ensures Fine(entries[1..], isAddress, taken + {NameAt(entries, isAddress, 0)}, k - 1)
  {
    var rest := entries[1..];
    forall i | 0 <= i < k - 1
      ensures ParseEntry(rest[i], isAddress).Accepted? && NameAt(rest, isAddress, i) !in taken + {NameAt(entries, isAddress, 0)}
    {
      NameShifted(entries, isAddress, i);
    }
    forall i, j | 0 <= i < j < k - 1 ensures NameAt(rest, isAddress, i) != NameAt(rest, isAddress, j) {
      NameShifted(entries, isAddress, i);
      NameShifted(entries, isAddress, j);
    }
  }

  lemma FineCons(entries: seq<string>, isAddress: string -> bool, taken: set<string>, k: int)
    requires entries != [] && ParseEntry(entries[0], isAddress).Accepted? && NameAt(entries, isAddress, 0) !in taken
    requires k >= 1 && Fine(entries[1..], isAddress, taken + {NameAt(entries, isAddress, 0)}, k - 1)
    ensures Fine(entries, isAddress, taken, k)
  {
    var rest := entries[1..];
    forall i | 0 < i < k
      ensures ParseEntry(entries[i], isAddress).Accepted? && NameAt(entries, isAddress, i) !in taken + {NameAt(entries, isAddress, 0)}
    {
      NameShifted(entries, isAddress, i - 1);
      assert ParseEntry(rest[i - 1], isAddress).Accepted?;
    }
    forall i, j | 0 < i < j < k ensures NameAt(entries, isAddress, i) != NameAt(entries, isAddress, j) {
      NameShifted(entries, isAddress, i - 1);
      NameShifted(entries, isAddress, j - 1);
    }
  }

  lemma FailureShifted(entries: seq<string>, isAddress: string -> bool, taken: set<string>, k: int, r: Reason)
    requires entries != [] && ParseEntry(entries[0], isAddress).Accepted? && NameAt(entries, isAddress, 0) !in taken
    ensures FailsAt(entries, isAddress, taken, k, r)
       <==> k >= 1 && FailsAt(entries[1..], isAddress, taken + {NameAt(entries, isAddress, 0)}, k - 1, r)
  {
    if 1 <= k < |entries| {
      var rest, more := entries[1..], taken + {NameAt(entries, isAddress, 0)};
      NameShifted(entries, isAddress, k - 1);
      forall i | 0 <= i < k - 1 ensures NameAt(rest, isAddress, i) == NameAt(entries, isAddress, i + 1) {
        NameShifted(entries, isAddress, i);
      }
      assert forall i | 0 < i < k :: NameAt(entries, isAddress, i) == NameAt(rest, isAddress, i - 1);
      if Fine(entries, isAddress, taken, k) {
        FineTail(entries, isAddress, taken, k);
      }
      if Fine(rest, isAddress, more, k - 1) {
        FineCons(entries, isAddress, taken, k);
      }
    }
  }

  lemma {:induction false} EntriesRejected(entries: seq<string>, isAddress: string -> bool, routers: map<string, Router>)
    ensures forall r :: ParseEntries(entries, isAddress, routers) == Rejected(r)
                   <==> exists k :: FailsAt(entries, isAddress, routers.Keys, k, r)
    decreases |entries|
  {
    if entries != [] {
      var first := ParseEntry(entries[0], isAddress);
      if first.Rejected? || first.value.name in routers {
        forall k, r | FailsAt(entries, isAddress, routers.Keys, k, r) ensures k == 0 {
        }
        forall r | ParseEntries(entries, isAddress, routers) == Rejected(r) ensures FailsAt(entries, isAddress, routers.Keys, 0, r) {
        }
      } else {
        var more := routers[first.value.name := first.value];
        assert more.Keys == routers.Keys + {NameAt(entries, isAddress, 0)};
        EntriesRejected(entries[1..], isAddress, more);
        forall k, r ensures FailsAt(entries, isAddress, routers.Keys, k, r)
                       <==> k >= 1 && FailsAt(entries[1..], isAddress, more.Keys, k - 1, r)
        {
          FailureShifted(entries, isAddress, routers.Keys, k, r);
        }
        forall r | ParseEntries(entries, isAddress, routers) == Rejected(r)
          ensures exists k :: FailsAt(entries, isAddress, routers.Keys, k, r)
        {
          var k :| FailsAt(entries[1..], isAddress, more.Keys, k, r);
          assert FailsAt(entries, isAddress, routers.Keys, k + 1, r);
        }
      }
    }
  }

  ghost predicate FailsSomewhere(entries: seq<string>, isAddress: string -> bool, r: Reason) {
    exists k :: FailsAt(entries, isAddress, {}, k, r)
  }

  lemma EntriesFail(entries: seq<string>, isAddress: string -> bool, r: Reason)
    ensures ParseEntries(entries, isAddress, map[]) == Rejected(r) <==> FailsSomewhere(entries, isAddress, r)
  {
    var none: map<string, Router> := map[];
    EntriesRejected(entries, isAddress, none);
    assert none.Keys == {};
  }

  // A text is refused for being empty, or for the first entry that cannot be read or repeats a name.
  lemma FirstRefusal(raw: string, isAddress: string -> bool, r: Reason)
    ensures Parse(raw, isAddress) == Rejected(r)
       <==> if Strip(raw) == "" then r == EmptyInventory else FailsSomewhere(Split(Strip(raw), ','), isAddress, r)
  {
    EntriesFail(Split(Strip(raw), ','), isAddress, r);
  }

  // An entry is a name and an address on either side of its first equals sign.
  lemma EntryMeans(raw: string, isAddress: string -> bool, left: string, right: string)
    requires Strip(raw) == left + "=" + right && '=' !in left
    ensures ParseEntry(raw, isAddress)
         == if !IsLabel(Strip(left)) then Rejected(BadName)
            else match ParseHostPort(Strip(right), isAddress)
              case Rejected(reason) => Rejected(reason)
              case Accepted((host, port)) => Accepted(Router(Strip(left), host, port))
  {
    CutAt(left, '=', right);
    assert left + ['='] + right == left + "=" + right;
  }

  lemma NoEntry(raw: string, isAddress: string -> bool)
    requires '=' !in Strip(raw)
    ensures ParseEntry(raw, isAddress) == if Strip(raw) == "" then Rejected(EmptyEntry) else Rejected(MissingEquals)
  {
  }

  // ---------------------------------------------------------------- what an accepted text gives

  predicate ValidHost(host: string, isAddress: string -> bool) {
    IsHostText(host) && (isAddress(host) || IsHostName(host))
  }

  predicate ValidRouter(r: Router, isAddress: string -> bool) {
    IsLabel(r.name) && ValidHost(r.host, isAddress) && 1 <= r.port <= 65535
  }

  lemma EntryValid(raw: string, isAddress: string -> bool)
    requires ParseEntry(raw, isAddress).Accepted?
    ensures ValidRouter(ParseEntry(raw, isAddress).value, isAddress)
  {
  }

  // The name of an accepted entry leads to that entry.
  predicate Found(e: string, isAddress: string -> bool, all: map<string, Router>) {
    var r := ParseEntry(e, isAddress);
    r.Accepted? && r.value.name in all && all[r.value.name] == r.value
  }

  predicate Extends(all: map<string, Router>, routers: map<string, Router>) {
    forall k | k in routers :: k in all && all[k] == routers[k]
  }

  lemma {:induction false} EntriesCounted(entries: seq<string>, isAddress: string -> bool, routers: map<string, Router>)
    requires ParseEntries(entries, isAddress, routers).Accepted?
    ensures |ParseEntries(entries, isAddress, routers).value| == |routers| + |entries|
    decreases |entries|
  {
    if entries != [] {
      var r := ParseEntry(entries[0], isAddress).value;
      EntriesCounted(entries[1..], isAddress, routers[r.name := r]);
    }
  }

  // Every entry is accepted and each name keeps its own entry.
  lemma {:induction false} EntriesKept(entries: seq<string>, isAddress: string -> bool, routers: map<string, Router>)
    requires ParseEntries(entries, isAddress, routers).Accepted?
    ensures Extends(ParseEntries(entries, isAddress, routers).value, routers)
    ensures forall e | e in entries :: Found(e, isAddress, ParseEntries(entries, isAddress, routers).value)
    decreases |entries|
  {
    if entries != [] {
      var r := ParseEntry(entries[0], isAddress).value;
      var more := routers[r.name := r];
      EntriesKept(entries[1..], isAddress, more);
      assert Extends(more, routers) && r.name in more && more[r.name] == r;
      assert entries == [entries[0]] + entries[1..];
    }
  }

  lemma {:induction false} EntriesSound(entries: seq<string>, isAddress: string -> bool, routers: map<string, Router>)
    requires ParseEntries(entries, isAddress, routers).Accepted?
    requires forall k | k in routers :: routers[k].name == k && ValidRouter(routers[k], isAddress)
    ensures var all := ParseEntries(entries, isAddress, routers).value;
      forall k | k in all :: all[k].name == k && ValidRouter(all[k], isAddress)
    decreases |entries|
  {
    if entries != [] {
      var r := ParseEntry(entries[0], isAddress).value;
      EntryValid(entries[0], isAddress);
      EntriesSound(entries[1..], isAddress, routers[r.name := r]);
    }
  }

  lemma InventorySound(raw: string, isAddress: string -> bool)
    requires Parse(raw, isAddress).Accepted?
    ensures var all := Parse(raw, isAddress).value;
      && |all| == |Split(Strip(raw), ',')|
      && (forall k | k in all :: all[k].name == k && ValidRouter(all[k], isAddress))
      && (forall e | e in Split(Strip(raw), ',') :: Found(e, isAddress, all))
  {
    EntriesCounted(Split(Strip(raw), ','), isAddress, map[]);
    EntriesKept(Split(Strip(raw), ','), isAddress, map[]);
    EntriesSound(Split(Strip(raw), ','), isAddress, map[]);
  }

  // ---------------------------------------------------------------- the printer

  function HostPort(host: string, port: nat): string {
    host + ":" + Decimal(port)
  }

  function PrintRouter(r: Router): string {
    r.name + "=" + HostPort(r.host, r.port)
  }

  predicate DistinctNames(rs: seq<Router>) {
    forall i, j | 0 <= i < j < |rs| :: rs[i].name != rs[j].name
  }

  predicate Printable(r: Router, isAddress: string -> bool) {
    ValidRouter(r, isAddress) && ':' !in r.host
  }

  function PrintAll(rs: seq<Router>): (texts: seq<string>)
    ensures |texts| == |rs|
  {
    if rs == [] then [] else [PrintRouter(rs[0])] + PrintAll(rs[1..])
  }

  function Names(rs: seq<Router>): set<string> {
    set r | r in rs :: r.name
  }

  // The inventory of the routers: their names, each leading to its router.
  predicate Inventories(all: map<string, Router>, rs: seq<Router>) {
    all.Keys == Names(rs) && forall r | r in rs :: r.name in all && all[r.name] == r
  }

  // ---------------------------------------------------------------- printing, then parsing

  lemma HostValid(host: string, isAddress: string -> bool)
    requires ValidHost(host, isAddress)
    ensures NoSpace(host) && ValidateHost(host, isAddress) == Accepted(host)
  {
    StripNothing(host);
  }

  lemma DecimalText(n: nat)
    ensures IsNumber(Decimal(n)) && ':' !in Decimal(n) && NoSpace(Decimal(n)) && DigitsValue(Decimal(n)) == n
    ensures forall c | c in Decimal(n) :: IsLabelChar(c)
  {
    DecimalRoundTrip(n);
  }

  // host:port reads back as the same pair exactly when the host holds no colon.
  lemma HostPortRoundTrip(host: string, port: nat, isAddress: string -> bool)
    requires ValidHost(host, isAddress) && 1 <= port <= 65535
    ensures ParseHostPort(HostPort(host, port), isAddress) == Accepted((host, port)) <==> ':' !in host
  {
    var text := HostPort(host, port);
    DecimalText(port);
    HostValid(host, isAddress);
    assert text == host + [':'] + Decimal(port);
    if ':' !in host {
      CutAt(host, ':', Decimal(port));
    } else {
      ManyColons(host, Decimal(port));
      assert NoSpace(text);
      StripNothing(text);
      assert |text| > |host|;
    }
  }

  // An address with one colon before a number is a host and a port; anything else is a host at port 22.
  lemma AddressMeans(address: string, isAddress: string -> bool)
    requires address != ""
    ensures
      var parts, read := Split(address, ':'), ParseHostPort(address, isAddress);
      if |parts| == 2 && parts[1] != "" && (forall c | c in parts[1] :: '0' <= c <= '9') then
        var port := DigitsValue(parts[1]);
        && (read.Accepted? <==> 1 <= port <= 65535 && ValidateHost(parts[0], isAddress).Accepted?)
        && (read.Accepted? ==> read.value == (ValidateHost(parts[0], isAddress).value, port))
      else
        && (read.Accepted? <==> ValidateHost(address, isAddress).Accepted?)
        && (read.Accepted? ==> read.value == (ValidateHost(address, isAddress).value, 22))
  {
    OneColon(address);
  }

  lemma OneColon(address: string)
    ensures AtOnlyColon(address).Some? <==> |Split(address, ':')| == 2
    ensures AtOnlyColon(address).Some? ==> Split(address, ':') == [AtOnlyColon(address).value.0, AtOnlyColon(address).value.1]
  {
    CutNone(address, ':');
    if ':' !in address {
      SplitNone(address, ':');
    } else {
      var (head, tail) := Cut(address, ':').value;
      SplitAt(head, ':', tail);
      CutNone(tail, ':');
      if ':' !in tail {
        SplitNone(tail, ':');
      } else {
        var (middle, rest) := Cut(tail, ':').value;
        SplitAt(middle, ':', rest);
      }
    }
  }

  lemma ManyColons(host: string, tail: string)
    requires ':' in host
    ensures AtOnlyColon(host + [':'] + tail) == None
  {
    var text := host + [':'] + tail;
    CutNone(text, ':');
    CutNone(host, ':');
    var (head, rest) := Cut(host, ':').value;
    assert text == head + [':'] + (rest + [':'] + tail);
    CutAt(head, ':', rest + [':'] + tail);
    assert (rest + [':'] + tail)[|rest|] == ':';
  }

  lemma PrintedText(r: Router, isAddress: string -> bool)
    requires ValidRouter(r, isAddress)
    ensures NoSpace(PrintRouter(r)) && ',' !in PrintRouter(r) && '=' !in r.name && NoSpace(r.name)
    ensures NoSpace(HostPort(r.host, r.port)) && HostPort(r.host, r.port) != ""
  {
    HostValid(r.host, isAddress);
    DecimalText(r.port);
  }

  lemma EntryRoundTrip(r: Router, isAddress: string -> bool)
    requires Printable(r, isAddress)
    ensures ParseEntry(PrintRouter(r), isAddress) == Accepted(r)
  {
    PrintedText(r, isAddress);
    StripNothing(PrintRouter(r));
    StripNothing(r.name);
    StripNothing(HostPort(r.host, r.port));
    assert PrintRouter(r) == r.name + ['='] + HostPort(r.host, r.port);
    CutAt(r.name, '=', HostPort(r.host, r.port));
    assert PrintRouter(r)[|r.name|] == '=';
    HostPortRoundTrip(r.host, r.port, isAddress);
  }

  function Added(routers: map<string, Router>, rs: seq<Router>): map<string, Router>
    decreases |rs|
  {
    if rs == [] then routers else Added(routers[rs[0].name := rs[0]], rs[1..])
  }

  lemma {:induction false} AddedKeys(routers: map<string, Router>, rs: seq<Router>)
    ensures Added(routers, rs).Keys == routers.Keys + Names(rs)
    decreases |rs|
  {
    if rs != [] {
      AddedKeys(routers[rs[0].name := rs[0]], rs[1..]);
      assert rs == [rs[0]] + rs[1..];
      assert Names(rs) == {rs[0].name} + Names(rs[1..]);
    }
  }

  lemma {:induction false} AddedKeeps(routers: map<string, Router>, rs: seq<Router>, k: string)
    requires k in routers && forall r | r in rs :: r.name != k
    ensures k in Added(routers, rs) && Added(routers, rs)[k] == routers[k]
    decreases |rs|
  {
    if rs != [] {
      assert rs[0] in rs && forall r | r in rs[1..] :: r in rs;
      AddedKeeps(routers[rs[0].name := rs[0]], rs[1..], k);
    }
  }

  lemma {:induction false} AddedValue(routers: map<string, Router>, rs: seq<Router>, i: nat)
    requires DistinctNames(rs) && i < |rs|
    ensures rs[i].name in Added(routers, rs) && Added(routers, rs)[rs[i].name] == rs[i]
    decreases |rs|
  {
    if i == 0 {
      forall r | r in rs[1..] ensures r.name != rs[0].name {
        var k :| 0 <= k < |rs[1..]| && rs[1..][k] == r;
        assert rs[k + 1] == r;
      }
      AddedKeeps(routers[rs[0].name := rs[0]], rs[1..], rs[0].name);
    } else {
      AddedValue(routers[rs[0].name := rs[0]], rs[1..], i - 1);
    }
  }

  predicate Reads(r: Router, isAddress: string -> bool) {
    ParseEntry(PrintRouter(r), isAddress) == Accepted(r)
  }

  lemma {:induction false} EntriesRoundTrip(rs: seq<Router>, isAddress: string -> bool, routers: map<string, Router>)
    requires DistinctNames(rs) && (forall r | r in rs :: Reads(r, isAddress) && r.name !in routers)
    ensures ParseEntries(PrintAll(rs), isAddress, routers) == Accepted(Added(routers, rs))
    decreases |rs|
  {
    if rs != [] {
      var r, rest := rs[0], rs[1..];
      assert r in rs && Reads(r, isAddress);
      forall s | s in rest ensures s in rs && s.name != r.name {
        var k :| 0 <= k < |rest| && rest[k] == s;
        assert rs[k + 1] == s;
      }
      EntriesRoundTrip(rest, isAddress, routers[r.name := r]);
      assert PrintAll(rs)[1..] == PrintAll(rest);
    }
  }

  lemma {:induction false} PrintedEntries(rs: seq<Router>, isAddress: string -> bool)
    requires forall r | r in rs :: ValidRouter(r, isAddress)
    ensures forall t | t in PrintAll(rs) :: NoSpace(t) && ',' !in t
    decreases |rs|
  {
    if rs != [] {
      assert rs[0] in rs && forall s | s in rs[1..] :: s in rs;
      PrintedText(rs[0], isAddress);
      PrintedEntries(rs[1..], isAddress);
    }
  }

  lemma PrintedLine(rs: seq<Router>, isAddress: string -> bool)
    requires rs != [] && forall r | r in rs :: ValidRouter(r, isAddress)
    ensures Split(Join(PrintAll(rs), ','), ',') == PrintAll(rs)
    ensures Strip(Join(PrintAll(rs), ',')) == Join(PrintAll(rs), ',') != ""
  {
    var texts := PrintAll(rs);
    var text := Join(texts, ',');
    PrintedEntries(rs, isAddress);
    SplitJoin(texts, ',');
    forall c | c in text ensures !IsSpace(c) {
      JoinChars(texts, ',', c);
    }
    StripNothing(text);
    assert texts[0] == PrintRouter(rs[0]) != "";
    assert text == "" ==> Split(text, ',') == [""];
  }

  // Spaces around the entry, its name and its address do not matter.
  lemma PaddedEntry(r: Router, isAddress: string -> bool, a: string, b: string, c: string, d: string)
    requires Printable(r, isAddress) && Spaces(a) && Spaces(b) && Spaces(c) && Spaces(d)
    ensures ParseEntry(a + (r.name + b + "=" + (c + HostPort(r.host, r.port))) + d, isAddress) == Accepted(r)
  {
    var address := HostPort(r.host, r.port);
    AddressText(r, isAddress);
    HostPortRoundTrip(r.host, r.port, isAddress);
    EntryStripped(r.name, address, a, b, c, d);
    HeadText(r.name, b);
    EntryMeans(a + (r.name + b + "=" + (c + address)) + d, isAddress, r.name + b, c + address);
    PaddedPart("", r.name, b);
    NoneBefore(r.name, b);
    PaddedPart(c, address, "");
    assert c + address + "" == c + address;
  }

  lemma EntryStripped(name: string, address: string, a: string, b: string, c: string, d: string)
    requires Spaces(a) && Spaces(d) && name != "" && NoSpace(name) && address != "" && NoSpace(address)
    ensures Strip(a + (name + b + "=" + (c + address)) + d) == name + b + "=" + (c + address)
  {
    var middle := name + b + "=" + (c + address);
    assert middle[0] == name[0] && name[0] in name;
    assert middle[|middle| - 1] == address[|address| - 1] && address[|address| - 1] in address;
    StripPadded(a, middle, d);
  }

  lemma AddressText(r: Router, isAddress: string -> bool)
    requires Printable(r, isAddress)
    ensures HostPort(r.host, r.port) != "" && NoSpace(HostPort(r.host, r.port)) && r.name != "" && NoSpace(r.name)
  {
    DecimalText(r.port);
    HostValid(r.host, isAddress);
  }

  lemma HeadText(name: string, b: string)
    requires IsLabel(name) && Spaces(b)
    ensures '=' !in name + b
  {
    assert !IsSpace('=') && !IsLabelChar('=');
  }

  lemma PaddedPart(before: string, s: string, after: string)
    requires Spaces(before) && Spaces(after) && s != "" && NoSpace(s)
    ensures Strip(before + s + after) == s
  {
    assert s[0] in s && s[|s| - 1] in s;
    StripPadded(before, s, after);
  }

  // Printing a non-empty inventory and parsing the text gives the inventory back.
  lemma InventoryRoundTrip(rs: seq<Router>, isAddress: string -> bool)
    requires rs != [] && DistinctNames(rs) && forall r | r in rs :: Printable(r, isAddress)
    ensures Parse(Join(PrintAll(rs), ','), isAddress).Accepted?
    ensures Inventories(Parse(Join(PrintAll(rs), ','), isAddress).value, rs)
  {
    forall r | r in rs ensures Reads(r, isAddress) && ValidRouter(r, isAddress) {
      EntryRoundTrip(r, isAddress);
    }
    PrintedLine(rs, isAddress);
    EntriesRoundTrip(rs, isAddress, map[]);
    AddedInventories(rs);
  }

  lemma AddedInventories(rs: seq<Router>)
    requires DistinctNames(rs)
    ensures Inventories(Added(map[], rs), rs)
  {
    AddedKeys(map[], rs);
    forall r | r in rs ensures r.name in Added(map[], rs) && Added(map[], rs)[r.name] == r {
      var i :| 0 <= i < |rs| && rs[i] == r;
      AddedValue(map[], rs, i);
    }
  }
}
