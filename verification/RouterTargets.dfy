// The scrape targets of the metrics collector: the loop over ROUTER_TARGETS and the file it writes,
// which reads back as the list of routers.
module RouterTargets {
  import opened Wrappers
  import opened SeqLaws
  import opened Strings
  import opened Policy
  import opened Profiles
  import opened ServerCommands
  import opened JsonTree
  import opened JsonText

  datatype Target = Target(name: string, address: string)

  // ---------------------------------------------------------------- what the script accepts

  predicate IsTargetAddress(s: string) {
    IsHostText(s) && ':' in s
  }

  predicate IsTarget(t: Target) {
    IsLabel(t.name) && IsTargetAddress(t.address)
  }

  predicate AllTargets(ts: seq<Target>) {
    forall t | t in ts :: IsTarget(t)
  }

  function CheckTarget(t: Target): Verdict<Target> {
    if !IsLabel(t.name) then Rejected(BadName)
    else if !IsTargetAddress(t.address) then Rejected(BadAddress)
    else Accepted(t)
  }

  // Which targets are written: a label, and an address with a colon, in their characters.
  lemma TargetAccepted(t: Target)
    ensures
      var name := t.name != "" && forall c | c in t.name :: '0' <= c <= '9' || 'A' <= c <= 'Z' || 'a' <= c <= 'z' || c in "._-";
      var address := ':' in t.address
                     && forall c | c in t.address :: '0' <= c <= '9' || 'A' <= c <= 'Z' || 'a' <= c <= 'z' || c in "._-:";
      CheckTarget(t) == if !name then Rejected(BadName) else if !address then Rejected(BadAddress) else Accepted(t)
  {
  }

  function ReadEntry(entry: string): Verdict<Target> {
    var cut := Cut(entry, '=');
    if cut.None? then Rejected(MissingEquals) else CheckTarget(Target(cut.value.0, cut.value.1))
  }

  function ReadEntries(entries: seq<string>): Verdict<seq<Target>>
    decreases |entries|
  {
    if entries == [] then Accepted([])
    else
      var first :- ReadEntry(entries[0]);
      var rest :- ReadEntries(entries[1..]);
      Accepted([first] + rest)
  }

  // The list the settings stand for: the comma-separated entries, or the single default router.
  function Targets(list: string, name: string, ip: string, port: string): Verdict<seq<Target>> {
    if list == "" then
      var only :- CheckTarget(Target(name, ip + ":" + port));
      Accepted([only])
    else if "" in Split(list, ',') then Rejected(EmptyEntry)
    else ReadEntries(Split(list, ','))
  }

  // ---------------------------------------------------------------- the file

  function TargetJson(t: Target): Json {
    Obj([Entry("targets", Arr([Str(t.address)])),
         Entry("labels", Obj([Entry("router", Str(t.name)), Entry("job", Str("openwrt"))]))])
  }

  function TargetsJson(ts: seq<Target>): (items: seq<Json>)
    ensures |items| == |ts|
  {
    if ts == [] then [] else [TargetJson(ts[0])] + TargetsJson(ts[1..])
  }

  // {"targets":["address"],"labels":{"router":"name","job":"openwrt"}}
  function TargetText(t: Target): string {
    var labels := "{" + Member("router", Quoted(t.name), "," + Member("job", Quoted("openwrt"), "}"));
    "{" + Member("targets", "[" + (Quoted(t.address) + "]"), "," + Member("labels", labels, "}"))
  }

  function Texts(ts: seq<Target>): (texts: seq<string>)
    ensures |texts| == |ts|
  {
    if ts == [] then [] else [TargetText(ts[0])] + Texts(ts[1..])
  }

  // The elements written so far, separated by commas.
  function Listed(texts: seq<string>): string {
    if texts == [] then "" else texts[0] + if |texts| == 1 then "" else "," + Listed(texts[1..])
  }

  function Written(ts: seq<Target>): string {
    Listed(Texts(ts))
  }

  // ${remaining%%,*} and ${remaining#*,}
  function CutComma(s: string): (cut: (string, string))
    requires ',' in s
    ensures ',' !in cut.0 && s == cut.0 + [','] + cut.1
  {
    CutNone(s, ',');
    Cut(s, ',').value
  }

  // The whole list, when ts is written and remaining is still to be read.
  function Prepended(ts: seq<Target>, remaining: string): Verdict<seq<Target>> {
    if remaining == "" then Accepted(ts)
    else
      var rest :- ReadEntries(Split(remaining, ','));
      Accepted(ts + rest)
  }

  lemma {:induction false} ListedOneMore(texts: seq<string>, x: string)
    ensures Listed(texts + [x]) == Listed(texts) + (if texts == [] then "" else ",") + x
    decreases |texts|
  {
    if texts == [] {
      assert texts + [x] == [x];
      assert "" + "" + x == x;
    } else {
      ListedOneMore(texts[1..], x);
      assert (texts + [x])[1..] == texts[1..] + [x];
      var first, later := texts[0], Listed(texts[1..]);
      if |texts| == 1 {
        assert first + ("," + ("" + "" + x)) == first + "" + "," + x;
      } else {
        assert first + ("," + (later + "," + x)) == first + ("," + later) + "," + x;
      }
    }
  }

  lemma {:induction false} TextsOneMore(ts: seq<Target>, t: Target)
    ensures Texts(ts + [t]) == Texts(ts) + [TargetText(t)]
    decreases |ts|
  {
    if ts == [] {
      assert ts + [t] == [t];
    } else {
      TextsOneMore(ts[1..], t);
      assert (ts + [t])[1..] == ts[1..] + [t];
    }
  }

  lemma WrittenOneMore(text: string, ts: seq<Target>, t: Target)
    requires text == "[" + Written(ts)
    ensures text + (if ts == [] then "" else ",") + TargetText(t) == "[" + Written(ts + [t])
  {
    var x, comma := TargetText(t), if ts == [] then "" else ",";
    TextsOneMore(ts, t);
    ListedOneMore(Texts(ts), x);
    Assoc("[", Written(ts), comma);
    Assoc("[", Written(ts) + comma, x);
  }

  lemma NextEntry(remaining: string, entry: string, rest: string)
    requires remaining == entry + [','] + rest && ',' !in entry && "" !in Split(remaining, ',')
    ensures rest != "" && Split(remaining, ',') == [entry] + Split(rest, ',') && "" !in Split(rest, ',')
  {
    SplitAt(entry, ',', rest);
    assert forall p | p in Split(rest, ',') :: p in [entry] + Split(rest, ',');
    assert rest == "" ==> "" in Split(rest, ',');
  }

  // One entry read: the list is refused with it, or goes on with it written.
  lemma TakeEntry(ts: seq<Target>, entry: string, remaining: string, rest: string)
    requires remaining != "" && Split(remaining, ',') == [entry] + if rest == "" then [] else Split(rest, ',')
    ensures ReadEntry(entry).Rejected? ==> Prepended(ts, remaining) == Rejected(ReadEntry(entry).reason)
    ensures ReadEntry(entry).Accepted? ==> Prepended(ts, remaining) == Prepended(ts + [ReadEntry(entry).value], rest)
  {
    var later := if rest == "" then [] else Split(rest, ',');
    assert Split(remaining, ',')[1..] == later;
    if ReadEntry(entry).Accepted? {
      var t := ReadEntry(entry).value;
      if rest == "" {
        assert [t] + [] == [t];
      } else if ReadEntries(later).Accepted? {
        assert ts + ([t] + ReadEntries(later).value) == ts + [t] + ReadEntries(later).value;
      }
    }
  }

  lemma StartOfList(list: string)
    requires list != ""
    ensures Prepended([], list) == ReadEntries(Split(list, ','))
  {
    var all := ReadEntries(Split(list, ','));
    if all.Accepted? {
      assert [] + all.value == all.value;
    }
  }

  // The script stops with an error exactly when the check refuses, and for the same reason.
  predicate Refuses<T>(checked: Verdict<T>, error: Option<Reason>) {
    error == if checked.Accepted? then None else Some(checked.reason)
  }

  // The output file and the flag of the script; targets is what has been written.
  class TargetFile {
    var text: string
    var first: bool
    ghost var targets: seq<Target>

    ghost predicate Valid()
      reads this
    {
      text == "[" + Written(targets) && (first <==> targets == []) && AllTargets(targets)
    }

    constructor ()
      ensures Valid() && targets == []
    {
      text, first, targets := "[", true, [];
      new;
      assert "[" + "" == "[";
    }

    method WriteTarget(name: string, address: string) returns (error: Option<Reason>)
      requires Valid()
      modifies this
      ensures Valid() && Refuses(CheckTarget(Target(name, address)), error)
      ensures targets == if error.None? then old(targets) + [Target(name, address)] else old(targets)
    {
      var t := Target(name, address);
      var checked := CheckTarget(t);
      if checked.Rejected? {
        return Some(checked.reason);
      }
      WrittenOneMore(text, targets, t);
      if first {
        assert text + "" == text;
      } else {
        text := text + ",";
      }
      text := text + TargetText(t);
      first := false;
      targets := targets + [t];
      error := None;
    }

    // The loop that takes the entries off remaining.
    method WriteList(list: string) returns (error: Option<Reason>)
      requires Valid() && targets == [] && list != "" && "" !in Split(list, ',')
      modifies this
      ensures Valid() && Refuses(ReadEntries(Split(list, ',')), error)
      ensures error.None? ==> targets == ReadEntries(Split(list, ',')).value
    {
      var remaining := list;
      StartOfList(list);
      while remaining != ""
        invariant Valid()
        invariant remaining != "" ==> "" !in Split(remaining, ',')
        invariant ReadEntries(Split(list, ',')) == Prepended(targets, remaining)
        decreases |remaining|
      {
        var entry, rest := remaining, "";
        if ',' in remaining {
          var cut := CutComma(remaining);
          entry, rest := cut.0, cut.1;
          NextEntry(remaining, entry, rest);
        } else {
          SplitNone(remaining, ',');
        }
        TakeEntry(targets, entry, remaining, rest);
        var sides := Cut(entry, '=');
        if sides.None? {
          return Some(MissingEquals);
        }
        error := WriteTarget(sides.value.0, sides.value.1);
        if error.Some? {
          return;
        }
        remaining := rest;
      }
      error := None;
    }

    // The script from the empty file to the closing bracket.
    method Generate(list: string, name: string, ip: string, port: string) returns (error: Option<Reason>)
      requires Valid() && targets == []
      modifies this
      ensures Refuses(Targets(list, name, ip, port), error)
      ensures error.None? ==>
        text == "[" + Written(Targets(list, name, ip, port).value) + "]\n" && Load(text) == Some(Targets(list, name, ip, port).value)
      ensures list == "" && error.None? ==> Load(text) == Some([Target(name, ip + ":" + port)])
    {
      if list != "" {
        GapIsEmptyEntry(list, ',');
        if HasGap(list, ',') {
          return Some(EmptyEntry);
        }
        error := WriteList(list);
      } else {
        error := WriteTarget(name, ip + ":" + port);
        assert [] + [Target(name, ip + ":" + port)] == [Target(name, ip + ":" + port)];
      }
      if error.None? {
        text := text + "]\n";
        FileReads(targets);
      }
    }
  }

  // ---------------------------------------------------------------- the file reads back

  lemma OneItem(j: Json)
    requires Plain(j)
    ensures Plain(Arr([j])) && Print(Arr([j])) == "[" + (Print(j) + "]")
  {
    assert [j][1..] == [];
  }

  lemma TwoFields(first: Entry, second: Entry)
    requires PlainText(first.key) && Plain(first.value) && PlainText(second.key) && Plain(second.value)
    ensures Plain(Obj([first, second]))
    ensures Print(Obj([first, second]))
         == "{" + Member(first.key, Print(first.value), "," + Member(second.key, Print(second.value), "}"))
  {
    assert [first, second][1..] == [second] && [second][1..] == [];
    assert PrintFields([second]) == Member(second.key, Print(second.value), "}");
    assert PrintFields([first, second]) == Member(first.key, Print(first.value), "," + PrintFields([second]));
  }

  function LabelsJson(t: Target): Json {
    Obj([Entry("router", Str(t.name)), Entry("job", Str("openwrt"))])
  }

  lemma LabelsPrint(t: Target)
    requires PlainText(t.name)
    ensures Plain(LabelsJson(t))
    ensures Print(LabelsJson(t)) == "{" + Member("router", Quoted(t.name), "," + Member("job", Quoted("openwrt"), "}"))
  {
    TwoFields(Entry("router", Str(t.name)), Entry("job", Str("openwrt")));
  }

  lemma TargetPrints(t: Target)
    requires IsTarget(t)
    ensures Plain(TargetJson(t)) && Print(TargetJson(t)) == TargetText(t)
  {
    assert PlainText(t.name) && PlainText(t.address);
    OneItem(Str(t.address));
    LabelsPrint(t);
    TwoFields(Entry("targets", Arr([Str(t.address)])), Entry("labels", LabelsJson(t)));
  }

  lemma PrintStep(j: Json, items: seq<Json>)
    requires Plain(j) && PlainItems(items)
    ensures PlainItems([j] + items)
    ensures PrintItems([j] + items) == Print(j) + if items == [] then "]" else "," + PrintItems(items)
  {
    assert ([j] + items)[1..] == items;
  }

  lemma ListedStep(x: string, texts: seq<string>)
    ensures Listed([x] + texts) + "]" == x + if texts == [] then "]" else "," + (Listed(texts) + "]")
  {
    assert ([x] + texts)[1..] == texts;
    if texts == [] {
      assert x + "" + "]" == x + "]";
    } else {
      assert x + ("," + Listed(texts)) + "]" == x + ("," + (Listed(texts) + "]"));
    }
  }

  lemma {:induction false} TargetsPrint(ts: seq<Target>)
    requires AllTargets(ts)
    ensures PlainItems(TargetsJson(ts)) && PrintItems(TargetsJson(ts)) == Written(ts) + "]"
    decreases |ts|
  {
    if ts != [] {
      assert ts[0] in ts && forall t | t in ts[1..] :: t in ts;
      TargetPrints(ts[0]);
      TargetsPrint(ts[1..]);
      PrintStep(TargetJson(ts[0]), TargetsJson(ts[1..]));
      ListedStep(TargetText(ts[0]), Texts(ts[1..]));
    }
  }

  // Which routers a parsed file lists: under the job "openwrt", each with one address.
  function TargetOf(j: Json): Option<Target> {
    if j.Obj? && |j.fields| == 2 && j.fields[0].key == "targets" && j.fields[1].key == "labels"
       && j.fields[0].value.Arr? && |j.fields[0].value.items| == 1 && j.fields[0].value.items[0].Str?
       && j.fields[1].value.Obj? && |j.fields[1].value.fields| == 2
       && j.fields[1].value.fields[0].key == "router" && j.fields[1].value.fields[0].value.Str?
       && j.fields[1].value.fields[1] == Entry("job", Str("openwrt"))
    then Some(Target(j.fields[1].value.fields[0].value.s, j.fields[0].value.items[0].s))
    else None
  }

  function TargetsOf(items: seq<Json>): Option<seq<Target>> {
    if items == [] then Some([])
    else
      match (TargetOf(items[0]), TargetsOf(items[1..]))
      case (Some(t), Some(ts)) => Some([t] + ts)
      case _ => None
  }

  lemma TargetOfJson(t: Target)
    ensures TargetOf(TargetJson(t)) == Some(t)
  {
  }

  lemma TargetsOfOneMore(j: Json, items: seq<Json>, t: Target, ts: seq<Target>)
    requires TargetOf(j) == Some(t) && TargetsOf(items) == Some(ts)
    ensures TargetsOf([j] + items) == Some([t] + ts)
  {
    assert ([j] + items)[1..] == items;
  }

  lemma {:induction false} TargetsOfJson(ts: seq<Target>)
    ensures TargetsOf(TargetsJson(ts)) == Some(ts)
    decreases |ts|
  {
    if ts != [] {
      TargetsOfJson(ts[1..]);
      TargetOfJson(ts[0]);
      TargetsOfOneMore(TargetJson(ts[0]), TargetsJson(ts[1..]), ts[0], ts[1..]);
      assert [ts[0]] + ts[1..] == ts;
    }
  }

  // The routers the collector loads from a file.
  function Load(text: string): Option<seq<Target>> {
    match Read(text)
    case Some((Arr(items), "\n")) => TargetsOf(items)
    case _ => None
  }

  // The written file is JSON that holds the same names and addresses in the same order.
  lemma FileReads(ts: seq<Target>)
    requires AllTargets(ts)
    ensures Load("[" + Written(ts) + "]\n") == Some(ts)
  {
    TargetsPrint(ts);
    var items := TargetsJson(ts);
    PrintReads(Arr(items), "\n");
    assert "[" + Written(ts) + "]\n" == Print(Arr(items)) + "\n";
    TargetsOfJson(ts);
  }

  // ---------------------------------------------------------------- lists of valid targets are accepted as they are

  function ListText(ts: seq<Target>): (texts: seq<string>)
    ensures |texts| == |ts|
  {
    if ts == [] then [] else [ts[0].name + "=" + ts[0].address] + ListText(ts[1..])
  }

  lemma EntryReads(t: Target)
    requires IsTarget(t)
    ensures ReadEntry(t.name + "=" + t.address) == Accepted(t) && ',' !in t.name + "=" + t.address
  {
    EntryMeans(t.name, t.address);
  }

  lemma EntriesOneMore(text: string, texts: seq<string>, t: Target, ts: seq<Target>)
    requires ReadEntry(text) == Accepted(t) && ReadEntries(texts) == Accepted(ts)
    ensures ReadEntries([text] + texts) == Accepted([t] + ts)
  {
    assert ([text] + texts)[1..] == texts;
  }

  lemma {:induction false} ListReads(ts: seq<Target>)
    requires AllTargets(ts)
    ensures ReadEntries(ListText(ts)) == Accepted(ts)
    ensures forall p | p in ListText(ts) :: p != "" && ',' !in p
    decreases |ts|
  {
    if ts != [] {
      assert ts[0] in ts && forall t | t in ts[1..] :: t in ts;
      EntryReads(ts[0]);
      ListReads(ts[1..]);
      EntriesOneMore(ts[0].name + "=" + ts[0].address, ListText(ts[1..]), ts[0], ts[1..]);
      assert [ts[0]] + ts[1..] == ts;
    }
  }

  // Without a list the settings stand for one router: the default name at the default address and port.
  lemma DefaultTarget(name: string, ip: string, port: string)
    ensures
      var only := Target(name, ip + ":" + port);
      Targets("", name, ip, port) == if IsTarget(only) then Accepted([only]) else Rejected(CheckTarget(only).reason)
  {
  }

  // An entry is cut at its first equals sign.
  lemma EntryMeans(name: string, address: string)
    requires '=' !in name
    ensures ReadEntry(name + "=" + address) == CheckTarget(Target(name, address))
  {
    CutAt(name, '=', address);
    assert name + ['='] + address == name + "=" + address;
  }

  // Written out as name=address entries, any non-empty list of valid targets is what the script
  // stands for, and so what the collector loads.
  lemma TargetsRoundTrip(ts: seq<Target>, name: string, ip: string, port: string)
    requires ts != [] && AllTargets(ts)
    ensures Targets(Join(ListText(ts), ','), name, ip, port) == Accepted(ts)
    ensures Load("[" + Written(ts) + "]\n") == Some(ts)
  {
    var texts := ListText(ts);
    ListReads(ts);
    SplitJoin(texts, ',');
    assert texts[0] in texts && Split("", ',') == [""];
    FileReads(ts);
  }
}
