// One collection of the topology exporter: which nodes and edges it emits, from what it has read.
module TopologyExport {
  import opened Wrappers
  import opened Strings
  import opened PromQL
  import opened Topology
  import opened TopologyCollector

  // ---------------------------------------------------------------- what is read before emitting

  // A radio interface in ap mode; its address is missing where neither source gives one.
  datatype Iface = Iface(ssid: string, bssid: Option<string>)

  datatype Station = Station(ifname: string, signal: Option<int>)

  // Everything one collection reads. The modem is the WAN nexthop, where that is a private address;
  // `show` and `value` stand for what a node displays.
  datatype Facts = Facts(
    hosts: Option<set<string>>, ownMacs: set<string>,
    gateway: bool, gatewayIp: Option<string>, hostname: Option<string>,
    modem: Option<string>, modemMac: Option<string>,
    ifaces: map<string, Iface>, assoc: map<string, Station>, assocOk: bool,
    portOf: map<string, string>,
    show: string -> Display, value: string -> real)

  predicate IsIdChar(c: char) {
    'a' <= c <= 'z' || 'A' <= c <= 'Z' || '0' <= c <= '9' || c == '.' || c == '_' || c == '-'
  }

  function Sanitize(value: Option<string>, fallback: string): string {
    if value == None || value.value == "" then fallback
    else seq(|value.value|, i requires 0 <= i < |value.value| => if IsIdChar(value.value[i]) then value.value[i] else '_')
  }

  // ---------------------------------------------------------------- ids

  function ApName(f: Facts): string {
    Sanitize(f.hostname, "unknown")
  }

  function RouterId(f: Facts): string {
    "router:" + if f.gatewayIp.Some? then Sanitize(f.gatewayIp, "unknown") else ApName(f)
  }

  function ApId(f: Facts): string {
    "ap:" + ApName(f)
  }

  function ModemId(modem: string): string {
    "modem:" + Sanitize(Some(modem), "upstream")
  }

  function PortId(f: Facts, port: string): string {
    "port:" + ApName(f) + ":" + Sanitize(Some(port), "port")
  }

  function ClientId(mac: string): string {
    "client:" + mac
  }

  // The BSS node of an interface, where it has one.
  function BssId(f: Facts, ifname: string): Option<string> {
    if ifname in f.ifaces && f.ifaces[ifname].bssid.Some? && f.ifaces[ifname].ssid != ""
    then Some("bss:" + f.ifaces[ifname].bssid.value) else None
  }

  // Clients are told apart from everything else by the first letters of their ids.
  lemma EquipmentIds(f: Facts, name: string)
    ensures IsEquipment("internet") && IsEquipment(RouterId(f)) && IsEquipment(ApId(f)) && IsEquipment(ModemId(name))
    ensures IsEquipment(PortId(f, name)) && IsEquipment("bss:" + name)
  {
    FirstLetter("internet");
    FirstLetter(RouterId(f));
    FirstLetter(ApId(f));
    FirstLetter(ModemId(name));
    FirstLetter(PortId(f, name));
    FirstLetter("bss:" + name);
  }

  lemma FirstLetter(id: string)
    requires id != "" && id[0] != 'c'
    ensures IsEquipment(id)
  {
    assert "client:"[0] == 'c';
  }

  // ---------------------------------------------------------------- the links of clients

  // On a gateway every known host, on a downstream access point the stations of its own radios; own
  // interfaces and the upstream modem are no clients.
  function Clients(f: Facts): set<string>
    requires f.hosts.Some?
  {
    (if f.gateway then f.hosts.value else f.assoc.Keys) - f.ownMacs
    - (if f.gateway && f.modem.Some? && f.modemMac.Some? then {f.modemMac.value} else {})
  }

  function SignalColor(signal: Option<int>): Display {
    match signal
    case None => map[]
    case Some(s) => map["color" := if s >= -60 then "green" else if s >= -72 then "orange" else "red"]
  }

  // The edge drawn to a client: its association, or where associations are known and it has none,
  // its switch port or the router.
  function Link(f: Facts, mac: string): Option<Labels> {
    if mac in f.assoc then
      match BssId(f, f.assoc[mac].ifname)
      case None => None
      case Some(bss) => Some(EdgeLabels("assoc:" + mac, bss, ClientId(mac), true, SignalColor(f.assoc[mac].signal)))
    else if f.assocOk && f.gateway then
      var parent := if mac in f.portOf then PortId(f, f.portOf[mac]) else GatewayNode(f);
      Some(EdgeLabels("lan:" + mac, parent, ClientId(mac), true, map[]))
    else None
  }

  predicate ToClient(l: Labels) {
    "client:" <= Get(l, "target")
  }

  // ---------------------------------------------------------------- what a collection draws

  // Node samples as their ids and authorities, edge samples as their labels.
  ghost function NodesSeen(nodes: seq<Sample>): set<(string, string)> {
    set n | n in nodes :: (Get(n.labels, "id"), Get(n.labels, "authority"))
  }

  ghost function EdgesSeen(edges: seq<Sample>): set<Labels> {
    set e | e in edges :: e.labels
  }

  function Wire(id: string, source: string, target: string): Labels {
    map["id" := id, "source" := source, "target" := target, "authority" := "1"]
  }

  // The gateway as every box of the network calls it.
  function GatewayNode(f: Facts): string {
    match f.gatewayIp
    case Some(ip) => "router:" + Sanitize(Some(ip), "unknown")
    case None => "router:" + Sanitize(f.hostname, "unknown")
  }

  function SpineNodes(f: Facts): set<(string, string)> {
    if !f.gateway then {(GatewayNode(f), "0")}
    else {("internet", "1"), (GatewayNode(f), "1")}
         + match f.modem case None => {} case Some(ip) => {("modem:" + Sanitize(Some(ip), "upstream"), "1")}
  }

  function SpineEdges(f: Facts): set<Labels> {
    if !f.gateway then {}
    else
      match f.modem
      case None => {Wire("wan:" + Sanitize(f.hostname, "unknown"), "internet", GatewayNode(f))}
      case Some(ip) =>
        var modem := "modem:" + Sanitize(Some(ip), "upstream");
        {Wire("wan:" + Sanitize(Some(ip), "upstream"), "internet", modem),
         Wire("nat:" + Sanitize(f.hostname, "unknown"), modem, GatewayNode(f))}
  }

  // The addresses of the interfaces that name a network.
  function Bssids(f: Facts, names: set<string>): set<string> {
    set n | n in names && n in f.ifaces && f.ifaces[n].ssid != "" && f.ifaces[n].bssid.Some? :: f.ifaces[n].bssid.value
  }

  function BssNodes(bssids: set<string>): set<(string, string)> {
    set b | b in bssids :: ("bss:" + b, "1")
  }

  function BssEdges(f: Facts, bssids: set<string>): set<Labels> {
    set b | b in bssids :: Wire("radio:" + b, "ap:" + Sanitize(f.hostname, "unknown"), "bss:" + b)
  }

  function RadioNodes(f: Facts): set<(string, string)> {
    if f.ifaces == map[] then {}
    else {("ap:" + Sanitize(f.hostname, "unknown"), "1")} + BssNodes(Bssids(f, f.ifaces.Keys))
  }

  function RadioEdges(f: Facts): set<Labels> {
    var own := Sanitize(f.hostname, "unknown");
    if f.ifaces == map[] then {}
    else {Wire(if f.gateway then "ap:" + own else "uplink:" + own, GatewayNode(f), "ap:" + own)}
         + BssEdges(f, Bssids(f, f.ifaces.Keys))
  }

  function PortNodes(f: Facts, ports: set<string>): set<(string, string)> {
    set p | p in ports :: ("port:" + Sanitize(f.hostname, "unknown") + ":" + Sanitize(Some(p), "port"), "1")
  }

  function PortEdges(f: Facts, ports: set<string>): set<Labels> {
    set p | p in ports ::
      var place := Sanitize(f.hostname, "unknown") + ":" + Sanitize(Some(p), "port");
      Wire("link:" + place, GatewayNode(f), "port:" + place)
  }

  function ClientNodes(f: Facts, macs: set<string>): set<(string, string)> {
    set mac | mac in macs :: ("client:" + mac, if f.gateway then "1" else "0")
  }

  function Links(f: Facts, macs: set<string>): set<Labels> {
    set mac | mac in macs && Link(f, mac).Some? :: Link(f, mac).value
  }

  // On a gateway the ports behind which it has learned addresses.
  function LearnedPorts(f: Facts): set<string> {
    if f.gateway then set mac | mac in f.portOf :: f.portOf[mac] else {}
  }

  function EquipmentNodes(f: Facts): set<(string, string)> {
    SpineNodes(f) + RadioNodes(f) + PortNodes(f, LearnedPorts(f))
  }

  function EquipmentEdges(f: Facts): set<Labels> {
    SpineEdges(f) + RadioEdges(f) + PortEdges(f, LearnedPorts(f))
  }

  // The snapshot of one collection, exactly.
  ghost predicate Depicts(f: Facts, x: Export)
    requires f.hosts.Some?
  {
    && NodesSeen(x.nodes) == EquipmentNodes(f) + ClientNodes(f, Clients(f))
    && EdgesSeen(x.edges) == EquipmentEdges(f) + Links(f, Clients(f))
    && x.infra == f.ownMacs
  }

  // ---------------------------------------------------------------- what that means

  // The ids a box that is no gateway vouches for: its access point and its radios.
  predicate OwnRadio(id: string) {
    "ap:" <= id || "bss:" <= id
  }

  lemma NotOwnRadio(id: string)
    requires id != "" && id[0] != 'a' && id[0] != 'b'
    ensures !OwnRadio(id)
  {
    assert "ap:"[0] == 'a' && "bss:"[0] == 'b';
  }

  predicate Vouched(f: Facts, node: (string, string)) {
    node.1 == if f.gateway || OwnRadio(node.0) then "1" else "0"
  }

  lemma SpineVouched(f: Facts, node: (string, string))
    requires node in SpineNodes(f)
    ensures Vouched(f, node)
  {
    NotOwnRadio(GatewayNode(f));
  }

  lemma RadiosVouched(f: Facts, node: (string, string))
    requires node in RadioNodes(f)
    ensures Vouched(f, node)
  {
    if node in BssNodes(Bssids(f, f.ifaces.Keys)) {
      var b :| b in Bssids(f, f.ifaces.Keys) && node == ("bss:" + b, "1");
    }
  }

  lemma PortsVouched(f: Facts, node: (string, string))
    requires node in PortNodes(f, LearnedPorts(f))
    ensures Vouched(f, node)
  {
  }

  lemma ClientsVouched(f: Facts, macs: set<string>, node: (string, string))
    requires node in ClientNodes(f, macs)
    ensures Vouched(f, node)
  {
    NotOwnRadio(node.0);
  }

  // A box vouches for itself: off the gateway only for its own access point and radios.
  lemma Authorities(f: Facts, x: Export, n: Sample)
    requires f.hosts.Some? && Depicts(f, x) && n in x.nodes
    ensures
      var id := Get(n.labels, "id");
      Get(n.labels, "authority") == if f.gateway || "ap:" <= id || "bss:" <= id then "1" else "0"
  {
    var node := (Get(n.labels, "id"), Get(n.labels, "authority"));
    assert node in NodesSeen(x.nodes);
    if node in SpineNodes(f) {
      SpineVouched(f, node);
    } else if node in RadioNodes(f) {
      RadiosVouched(f, node);
    } else if node in PortNodes(f, LearnedPorts(f)) {
      PortsVouched(f, node);
    } else {
      ClientsVouched(f, Clients(f), node);
    }
  }

  // Every box that knows the gateway's address gives it the same node, whatever either is called.
  lemma GatewayNamedAlike(f: Facts, g: Facts)
    requires f.gatewayIp.Some? && f.gatewayIp == g.gatewayIp
    ensures GatewayNode(f) == GatewayNode(g)
    ensures f.gateway && !g.gateway ==> (GatewayNode(f), "1") in EquipmentNodes(f) && (GatewayNode(f), "0") in EquipmentNodes(g)
  {
  }

  // Who is drawn as a client: no interface of the box itself, and never the upstream modem.
  lemma WhoIsAClient(f: Facts, mac: string)
    requires f.hosts.Some?
    ensures mac in Clients(f) <==>
      && (f.gateway ==> mac in f.hosts.value && (f.modem.Some? ==> f.modemMac != Some(mac)))
      && (!f.gateway ==> mac in f.assoc)
      && mac !in f.ownMacs
  {
  }

  // The colour of an association edge follows the station's signal, where that is known.
  lemma LinkColor(f: Facts, mac: string)
    requires mac in f.assoc && Link(f, mac).Some?
    ensures
      var signal, color := f.assoc[mac].signal, Get(Link(f, mac).value, "color");
      && (color == "" <==> signal == None)
      && (color == "green" <==> signal.Some? && -60 <= signal.value)
      && (color == "orange" <==> signal.Some? && -72 <= signal.value < -60)
      && (color == "red" <==> signal.Some? && signal.value < -72)
  {
    assert "green"[0] == 'g' && "orange"[0] == 'o' && "red"[0] == 'r';
  }

  // What becomes part of an id: as long as what was read, and the same where its characters allow.
  lemma Sanitized(value: string, fallback: string)
    requires value != ""
    ensures |Sanitize(Some(value), fallback)| == |value|
    ensures forall i | 0 <= i < |value| ::
              var c := value[i];
              Sanitize(Some(value), fallback)[i]
              == if '0' <= c <= '9' || 'A' <= c <= 'Z' || 'a' <= c <= 'z' || c in "._-" then c else '_'
  {
  }

  lemma NotToClient(target: string)
    requires target != "" && target[0] != 'c'
    ensures !("client:" <= target)
  {
    FirstLetter(target);
  }

  lemma SpineTargets(f: Facts, l: Labels)
    requires l in SpineEdges(f)
    ensures !ToClient(l)
  {
    NotToClient(Get(l, "target"));
  }

  lemma RadioTargets(f: Facts, l: Labels)
    requires l in RadioEdges(f)
    ensures !ToClient(l)
  {
    NotToClient(Get(l, "target"));
  }

  lemma PortTargets(f: Facts, l: Labels)
    requires l in PortEdges(f, LearnedPorts(f))
    ensures !ToClient(l)
  {
    NotToClient(Get(l, "target"));
  }

  lemma EquipmentTargets(f: Facts, l: Labels)
    requires l in EquipmentEdges(f)
    ensures !ToClient(l)
  {
    if l in SpineEdges(f) {
      SpineTargets(f, l);
    } else if l in RadioEdges(f) {
      RadioTargets(f, l);
    } else {
      PortTargets(f, l);
    }
  }

  // A snapshot draws no client twice, and names each link after its kind and its client.
  lemma OneEdgePerClient(f: Facts, x: Export, d: Sample, e: Sample)
    requires f.hosts.Some? && Depicts(f, x) && d in x.edges && e in x.edges && "client:" <= Get(d.labels, "target")
    requires Get(d.labels, "target") == Get(e.labels, "target")
    ensures d.labels == e.labels
    ensures exists mac | mac in Clients(f) ::
              Get(d.labels, "target") == ClientId(mac) && Get(d.labels, "id") in {"assoc:" + mac, "lan:" + mac}
  {
    assert d.labels in EdgesSeen(x.edges) && e.labels in EdgesSeen(x.edges);
    var m := LinkOfClient(f, d.labels);
    var n := LinkOfClient(f, e.labels);
    assert ClientId(m)[7..] == m && ClientId(n)[7..] == n;
  }

  lemma LinkOfClient(f: Facts, l: Labels) returns (mac: string)
    requires f.hosts.Some? && l in EquipmentEdges(f) + Links(f, Clients(f)) && ToClient(l)
    ensures mac in Clients(f) && Link(f, mac) == Some(l)
    ensures Get(l, "target") == ClientId(mac) && Get(l, "id") in {"assoc:" + mac, "lan:" + mac}
  {
    if l in EquipmentEdges(f) {
      EquipmentTargets(f, l);
    }
    mac :| mac in Clients(f) && Link(f, mac) == Some(l);
    LinkNamed(f, mac);
  }

  lemma LinkNamed(f: Facts, mac: string)
    requires Link(f, mac).Some?
    ensures var l := Link(f, mac).value;
      Get(l, "target") == ClientId(mac) && Get(l, "id") in {"assoc:" + mac, "lan:" + mac}
  {
  }

  // ---------------------------------------------------------------- emitting

  // What holds between the steps of a collection.
  ghost predicate Drawn(s: Snapshot, nodes: set<(string, string)>, edges: set<Labels>)
    reads s
  {
    s.IsSound() && NodesSeen(s.nodes) == nodes && EdgesSeen(s.edges) == edges
  }

  lemma OneMoreNode(nodes: seq<Sample>, n: Sample)
    ensures NodesSeen(nodes + [n]) == NodesSeen(nodes) + {(Get(n.labels, "id"), Get(n.labels, "authority"))}
  {
    var more := nodes + [n];
    assert more[|nodes|] == n;
    assert forall m | m in nodes :: m in more;
  }

  lemma OneMoreEdge(edges: seq<Sample>, e: Sample)
    ensures EdgesSeen(edges + [e]) == EdgesSeen(edges) + {e.labels}
  {
    var more := edges + [e];
    assert more[|edges|] == e;
    assert forall d | d in edges :: d in more;
  }

  // Every node seen is known to the edges to come.
  lemma Known(s: Snapshot, nodes: set<(string, string)>, edges: set<Labels>, id: string, authority: string)
    requires Drawn(s, nodes, edges) && (id, authority) in nodes
    ensures id in s.knownIds
  {
    var n :| n in s.nodes && (Get(n.labels, "id"), Get(n.labels, "authority")) == (id, authority);
    assert NamesNode(s.nodes, id);
  }

  method DrawNode(f: Facts, s: Snapshot, id: string, authority: bool, ghost nodes: set<(string, string)>, ghost edges: set<Labels>)
    requires Drawn(s, nodes, edges) && id != ""
    modifies s
    ensures Drawn(s, nodes + {(id, if authority then "1" else "0")}, edges)
  {
    OneMoreNode(s.nodes, Sample(NodeLabels(id, f.show(id), authority), f.value(id)));
    s.AddNode(id, f.show(id), f.value(id), authority);
  }

  // An edge from a piece of equipment, both endpoints known.
  method DrawEdge(s: Snapshot, id: string, source: string, target: string, value: real, extra: Display,
                  ghost nodes: set<(string, string)>, ghost edges: set<Labels>)
    requires Drawn(s, nodes, edges) && id != "" && IsEquipment(source)
    requires source in s.knownIds && target in s.knownIds
    modifies s
    ensures Drawn(s, nodes, edges + {EdgeLabels(id, source, target, true, extra)})
  {
    OneMoreEdge(s.edges, Sample(EdgeLabels(id, source, target, true, extra), value));
    s.AddEdge(id, source, target, value, true, extra);
  }

  // Between two pieces of equipment that have been drawn; the first may be a stand-in.
  method DrawWire(f: Facts, s: Snapshot, id: string, source: string, target: string,
                  ghost nodes: set<(string, string)>, ghost edges: set<Labels>)
    requires Drawn(s, nodes, edges) && id != "" && IsEquipment(source)
    requires ((source, "1") in nodes || (source, "0") in nodes) && (target, "1") in nodes
    modifies s
    ensures Drawn(s, nodes, edges + {Wire(id, source, target)})
  {
    Known(s, nodes, edges, source, if (source, "1") in nodes then "1" else "0");
    Known(s, nodes, edges, target, "1");
    PlainEdge(id, source, target);
    DrawEdge(s, id, source, target, f.value(id), map[], nodes, edges);
  }

  lemma PlainEdge(id: string, source: string, target: string)
    ensures EdgeLabels(id, source, target, true, map[]) == Wire(id, source, target)
  {
  }

  // A node and the edge that leads to it.
  method DrawNext(f: Facts, s: Snapshot, link: string, source: string, target: string,
                  ghost nodes: set<(string, string)>, ghost edges: set<Labels>)
    requires Drawn(s, nodes, edges) && link != "" && IsEquipment(source) && target != ""
    requires (source, "1") in nodes || (source, "0") in nodes
    modifies s
    ensures Drawn(s, nodes + {(target, "1")}, edges + {Wire(link, source, target)})
  {
    DrawNode(f, s, target, true, nodes, edges);
    DrawWire(f, s, link, source, target, nodes + {(target, "1")}, edges);
  }

  // The uplink: the gateway draws its way to the internet, an access point a stand-in for the gateway.
  method DrawSpine(f: Facts, s: Snapshot)
    requires Drawn(s, {}, {})
    modifies s
    ensures Drawn(s, SpineNodes(f), SpineEdges(f))
  {
    if f.gateway {
      DrawUplink(f, s);
    } else {
      DrawNode(f, s, RouterId(f), false, {}, {});
      assert {} + {(RouterId(f), "0")} == SpineNodes(f);
    }
  }

  method DrawUplink(f: Facts, s: Snapshot)
    requires Drawn(s, {}, {}) && f.gateway
    modifies s
    ensures Drawn(s, SpineNodes(f), SpineEdges(f))
  {
    DrawNode(f, s, "internet", true, {}, {});
    ghost var nodes := {} + {("internet", "1")};
    DrawNode(f, s, RouterId(f), true, nodes, {});
    nodes := nodes + {(RouterId(f), "1")};
    EquipmentIds(f, "");
    if f.modem.None? {
      DirectSets(f);
      DrawWire(f, s, "wan:" + ApName(f), "internet", RouterId(f), nodes, {});
    } else {
      ModemSets(f, f.modem.value);
      DrawModem(f, s, f.modem.value, nodes);
    }
  }

  lemma DirectSets(f: Facts)
    requires f.gateway && f.modem == None
    ensures SpineNodes(f) == {} + {("internet", "1")} + {(RouterId(f), "1")}
    ensures SpineEdges(f) == {} + {Wire("wan:" + ApName(f), "internet", RouterId(f))}
  {
  }

  lemma ModemSets(f: Facts, ip: string)
    requires f.gateway && f.modem == Some(ip)
    ensures SpineNodes(f) == {} + {("internet", "1")} + {(RouterId(f), "1")} + {(ModemId(ip), "1")}
    ensures SpineEdges(f) == {} + {Wire("wan:" + Sanitize(Some(ip), "upstream"), "internet", ModemId(ip))}
                             + {Wire("nat:" + ApName(f), ModemId(ip), RouterId(f))}
  {
  }

  method DrawModem(f: Facts, s: Snapshot, ip: string, ghost nodes: set<(string, string)>)
    requires Drawn(s, nodes, {}) && ("internet", "1") in nodes && (RouterId(f), "1") in nodes
    modifies s
    ensures Drawn(s, nodes + {(ModemId(ip), "1")},
                  {} + {Wire("wan:" + Sanitize(Some(ip), "upstream"), "internet", ModemId(ip))}
                  + {Wire("nat:" + ApName(f), ModemId(ip), RouterId(f))})
  {
    EquipmentIds(f, ip);
    var wan := "wan:" + Sanitize(Some(ip), "upstream");
    DrawNext(f, s, wan, "internet", ModemId(ip), nodes, {});
    DrawWire(f, s, "nat:" + ApName(f), ModemId(ip), RouterId(f), nodes + {(ModemId(ip), "1")},
             {} + {Wire(wan, "internet", ModemId(ip))});
  }

  // This box as an access point, and one node for each of its radio interfaces.
  method DrawRadios(f: Facts, s: Snapshot, ghost nodes: set<(string, string)>, ghost edges: set<Labels>)
    requires Drawn(s, nodes, edges) && SpineNodes(f) <= nodes
    modifies s
    ensures Drawn(s, nodes + RadioNodes(f), edges + RadioEdges(f))
  {
    if f.ifaces == map[] {
      assert nodes + {} == nodes && edges + {} == edges;
      return;
    }
    EquipmentIds(f, "");
    SpineHasRouter(f);
    var uplink := (if f.gateway then "ap:" else "uplink:") + ApName(f);
    DrawNext(f, s, uplink, RouterId(f), ApId(f), nodes, edges);
    DrawBssNodes(f, s, nodes + {(ApId(f), "1")}, edges + {Wire(uplink, RouterId(f), ApId(f))});
    RadioSets(f, nodes, edges);
  }

  lemma SpineHasRouter(f: Facts)
    ensures (RouterId(f), if f.gateway then "1" else "0") in SpineNodes(f)
  {
  }

  lemma RadioSets(f: Facts, nodes: set<(string, string)>, edges: set<Labels>)
    requires f.ifaces != map[]
    ensures
      var bssids := Bssids(f, f.ifaces.Keys);
      var uplink := (if f.gateway then "ap:" else "uplink:") + ApName(f);
      && nodes + {(ApId(f), "1")} + BssNodes(bssids) == nodes + RadioNodes(f)
      && edges + {Wire(uplink, RouterId(f), ApId(f))} + BssEdges(f, bssids) == edges + RadioEdges(f)
  {
  }

  method DrawBssNodes(f: Facts, s: Snapshot, ghost nodes: set<(string, string)>, ghost edges: set<Labels>)
    requires Drawn(s, nodes, edges) && (ApId(f), "1") in nodes
    modifies s
    ensures Drawn(s, nodes + BssNodes(Bssids(f, f.ifaces.Keys)), edges + BssEdges(f, Bssids(f, f.ifaces.Keys)))
  {
    var todo := f.ifaces.Keys;
    ghost var done, allNodes, allEdges := {}, nodes, edges;
    assert nodes + BssNodes(Bssids(f, {})) == nodes && edges + BssEdges(f, Bssids(f, {})) == edges;
    while todo != {}
      invariant done + todo == f.ifaces.Keys
      invariant allNodes == nodes + BssNodes(Bssids(f, done)) && allEdges == edges + BssEdges(f, Bssids(f, done))
      invariant Drawn(s, allNodes, allEdges)
    {
      var n :| n in todo;
      todo := todo - {n};
      OneMoreBss(f, done, n, nodes, edges);
      allNodes, allEdges := DrawIface(f, s, n, allNodes, allEdges);
      done := done + {n};
    }
  }

  method DrawIface(f: Facts, s: Snapshot, n: string, ghost nodes: set<(string, string)>, ghost edges: set<Labels>)
    returns (ghost nodes': set<(string, string)>, ghost edges': set<Labels>)
    requires n in f.ifaces && (ApId(f), "1") in nodes && Drawn(s, nodes, edges)
    modifies s
    ensures Drawn(s, nodes', edges')
    ensures match BssId(f, n)
      case None => nodes' == nodes && edges' == edges
      case Some(id) => nodes' == nodes + {(id, "1")} && edges' == edges + {Wire("radio:" + f.ifaces[n].bssid.value, ApId(f), id)}
  {
    nodes', edges' := nodes, edges;
    if BssId(f, n).Some? {
      var bssid := f.ifaces[n].bssid.value;
      EquipmentIds(f, bssid);
      DrawNext(f, s, "radio:" + bssid, ApId(f), "bss:" + bssid, nodes, edges);
      nodes', edges' := nodes + {("bss:" + bssid, "1")}, edges + {Wire("radio:" + bssid, ApId(f), "bss:" + bssid)};
    }
  }

  lemma OneMoreBss(f: Facts, done: set<string>, n: string, nodes: set<(string, string)>, edges: set<Labels>)
    requires n in f.ifaces
    ensures
      var before, after := Bssids(f, done), Bssids(f, done + {n});
      match BssId(f, n)
      case None => after == before
      case Some(id) =>
        && nodes + BssNodes(after) == nodes + BssNodes(before) + {(id, "1")}
        && edges + BssEdges(f, after) == edges + BssEdges(f, before) + {Wire("radio:" + f.ifaces[n].bssid.value, ApId(f), id)}
  {
    if BssId(f, n).Some? {
      assert Bssids(f, done + {n}) == Bssids(f, done) + {f.ifaces[n].bssid.value};
    }
  }

  // The switch ports behind which a gateway has learned addresses.
  method DrawPorts(f: Facts, s: Snapshot, ghost nodes: set<(string, string)>, ghost edges: set<Labels>)
    requires Drawn(s, nodes, edges) && SpineNodes(f) <= nodes
    modifies s
    ensures Drawn(s, nodes + PortNodes(f, LearnedPorts(f)), edges + PortEdges(f, LearnedPorts(f)))
  {
    if f.gateway {
      assert f.portOf.Values == LearnedPorts(f);
      DrawPortsOf(f, s, f.portOf.Values, nodes, edges);
    } else {
      assert nodes + PortNodes(f, {}) == nodes && edges + PortEdges(f, {}) == edges;
    }
  }

  function PortLink(f: Facts, port: string): string {
    "link:" + ApName(f) + ":" + Sanitize(Some(port), "port")
  }

  method DrawPortsOf(f: Facts, s: Snapshot, ports: set<string>, ghost nodes: set<(string, string)>, ghost edges: set<Labels>)
    requires Drawn(s, nodes, edges) && SpineNodes(f) <= nodes
    modifies s
    ensures Drawn(s, nodes + PortNodes(f, ports), edges + PortEdges(f, ports))
  {
    var todo := ports;
    ghost var done, allNodes, allEdges := {}, nodes, edges;
    assert nodes + PortNodes(f, {}) == nodes && edges + PortEdges(f, {}) == edges;
    while todo != {}
      invariant done + todo == ports
      invariant allNodes == nodes + PortNodes(f, done) && allEdges == edges + PortEdges(f, done)
      invariant Drawn(s, allNodes, allEdges)
    {
      var p :| p in todo;
      todo := todo - {p};
      OneMorePort(f, done, p, nodes, edges);
      allNodes, allEdges := DrawPort(f, s, p, allNodes, allEdges);
      done := done + {p};
    }
  }

  method DrawPort(f: Facts, s: Snapshot, p: string, ghost nodes: set<(string, string)>, ghost edges: set<Labels>)
    returns (ghost nodes': set<(string, string)>, ghost edges': set<Labels>)
    requires Drawn(s, nodes, edges) && SpineNodes(f) <= nodes
    modifies s
    ensures Drawn(s, nodes', edges')
    ensures nodes' == nodes + {(PortId(f, p), "1")} && edges' == edges + {Wire(PortLink(f, p), RouterId(f), PortId(f, p))}
  {
    SpineHasRouter(f);
    EquipmentIds(f, p);
    DrawNext(f, s, PortLink(f, p), RouterId(f), PortId(f, p), nodes, edges);
    nodes', edges' := nodes + {(PortId(f, p), "1")}, edges + {Wire(PortLink(f, p), RouterId(f), PortId(f, p))};
  }

  lemma OneMorePort(f: Facts, done: set<string>, p: string, nodes: set<(string, string)>, edges: set<Labels>)
    ensures nodes + PortNodes(f, done + {p}) == nodes + PortNodes(f, done) + {(PortId(f, p), "1")}
    ensures edges + PortEdges(f, done + {p}) == edges + PortEdges(f, done) + {Wire(PortLink(f, p), RouterId(f), PortId(f, p))}
  {
    var place := Sanitize(f.hostname, "unknown") + ":" + Sanitize(Some(p), "port");
    assert PortId(f, p) == "port:" + Sanitize(f.hostname, "unknown") + ":" + Sanitize(Some(p), "port") == "port:" + place;
    assert PortLink(f, p) == "link:" + place;
  }

  // The link of a client whose node has been emitted; its other end has been emitted before.
  method DrawLink(f: Facts, s: Snapshot, mac: string, ghost nodes: set<(string, string)>, ghost edges: set<Labels>)
    requires Drawn(s, nodes, edges) && EquipmentNodes(f) <= nodes && ClientId(mac) in s.knownIds
    modifies s
    ensures Drawn(s, nodes, edges + Links(f, {mac}))
  {
    LinkCases(f, mac);
    if mac in f.assoc {
      DrawAssociation(f, s, mac, nodes, edges);
    } else if f.assocOk && f.gateway {
      DrawWired(f, s, mac, nodes, edges);
    } else {
      assert edges + Links(f, {mac}) == edges;
    }
  }

  lemma LinkCases(f: Facts, mac: string)
    ensures Links(f, {mac}) == match Link(f, mac) case None => {} case Some(l) => {l}
  {
  }

  method DrawAssociation(f: Facts, s: Snapshot, mac: string, ghost nodes: set<(string, string)>, ghost edges: set<Labels>)
    requires Drawn(s, nodes, edges) && EquipmentNodes(f) <= nodes && ClientId(mac) in s.knownIds && mac in f.assoc
    modifies s
    ensures Drawn(s, nodes, edges + Links(f, {mac}))
  {
    LinkCases(f, mac);
    var station := f.assoc[mac];
    var bss := BssId(f, station.ifname);
    if bss.None? {
      assert edges + Links(f, {mac}) == edges;
      return;
    }
    BssDrawn(f, station.ifname);
    Known(s, nodes, edges, bss.value, "1");
    DrawEdge(s, "assoc:" + mac, bss.value, ClientId(mac), 1.0, SignalColor(station.signal), nodes, edges);
  }

  lemma BssDrawn(f: Facts, ifname: string)
    requires BssId(f, ifname).Some?
    ensures IsEquipment(BssId(f, ifname).value) && (BssId(f, ifname).value, "1") in EquipmentNodes(f)
  {
    var bssid := f.ifaces[ifname].bssid.value;
    EquipmentIds(f, bssid);
    assert bssid in Bssids(f, f.ifaces.Keys);
    assert ("bss:" + bssid, "1") in BssNodes(Bssids(f, f.ifaces.Keys));
  }

  method DrawWired(f: Facts, s: Snapshot, mac: string, ghost nodes: set<(string, string)>, ghost edges: set<Labels>)
    requires Drawn(s, nodes, edges) && EquipmentNodes(f) <= nodes && ClientId(mac) in s.knownIds
    requires mac !in f.assoc && f.assocOk && f.gateway
    modifies s
    ensures Drawn(s, nodes, edges + Links(f, {mac}))
  {
    LinkCases(f, mac);
    var parent := RouterId(f);
    if mac in f.portOf {
      parent := PortId(f, f.portOf[mac]);
    }
    ParentDrawn(f, mac);
    Known(s, nodes, edges, parent, "1");
    DrawEdge(s, "lan:" + mac, parent, ClientId(mac), 1.0, map[], nodes, edges);
  }

  lemma ParentDrawn(f: Facts, mac: string)
    requires f.gateway
    ensures
      var parent := if mac in f.portOf then PortId(f, f.portOf[mac]) else RouterId(f);
      IsEquipment(parent) && (parent, "1") in EquipmentNodes(f)
  {
    EquipmentIds(f, if mac in f.portOf then f.portOf[mac] else "");
    if mac in f.portOf {
      assert f.portOf[mac] in LearnedPorts(f);
      assert (PortId(f, f.portOf[mac]), "1") in PortNodes(f, LearnedPorts(f));
    }
  }

  method DrawClients(f: Facts, s: Snapshot, ghost nodes: set<(string, string)>, ghost edges: set<Labels>)
    requires f.hosts.Some? && Drawn(s, nodes, edges) && EquipmentNodes(f) <= nodes
    modifies s
    ensures Drawn(s, nodes + ClientNodes(f, Clients(f)), edges + Links(f, Clients(f)))
  {
    var todo := Clients(f);
    ghost var done, allNodes, allEdges := {}, nodes, edges;
    assert nodes + ClientNodes(f, {}) == nodes && edges + Links(f, {}) == edges;
    while todo != {}
      invariant done + todo == Clients(f)
      invariant allNodes == nodes + ClientNodes(f, done) && allEdges == edges + Links(f, done)
      invariant Drawn(s, allNodes, allEdges)
    {
      var mac :| mac in todo;
      todo := todo - {mac};
      OneMoreClient(f, done, mac, nodes, edges);
      DrawClient(f, s, mac, allNodes, allEdges);
      allNodes, allEdges := allNodes + {ClientNode(f, mac)}, allEdges + Links(f, {mac});
      done := done + {mac};
    }
  }

  // The gateway knows who its clients are, an access point only that they are there.
  function ClientNode(f: Facts, mac: string): (string, string) {
    (ClientId(mac), if f.gateway then "1" else "0")
  }

  lemma OneMoreClient(f: Facts, done: set<string>, mac: string, nodes: set<(string, string)>, edges: set<Labels>)
    ensures nodes + ClientNodes(f, done + {mac}) == nodes + ClientNodes(f, done) + {ClientNode(f, mac)}
    ensures edges + Links(f, done + {mac}) == edges + Links(f, done) + Links(f, {mac})
  {
  }

  method DrawClient(f: Facts, s: Snapshot, mac: string, ghost nodes: set<(string, string)>, ghost edges: set<Labels>)
    requires Drawn(s, nodes, edges) && EquipmentNodes(f) <= nodes
    modifies s
    ensures Drawn(s, nodes + {ClientNode(f, mac)}, edges + Links(f, {mac}))
  {
    DrawNode(f, s, ClientId(mac), f.gateway, nodes, edges);
    Known(s, nodes + {ClientNode(f, mac)}, edges, ClientId(mac), ClientNode(f, mac).1);
    DrawLink(f, s, mac, nodes + {ClientNode(f, mac)}, edges);
  }

  // One collection. Without hosts it emits nothing. Otherwise the snapshot is sound and depicts exactly
  // the equipment and the clients: the guard of AddEdge drops no edge.
  method Collect(f: Facts) returns (ok: bool, x: Export)
    ensures ok <==> f.hosts.Some?
    ensures !ok ==> x == Export([], [], {})
    ensures Sound(x)
    ensures ok ==> Depicts(f, x)
  {
    if f.hosts.None? {
      return false, Export([], [], {});
    }
    var s := new Snapshot();
    DrawSpine(f, s);
    DrawRadios(f, s, SpineNodes(f), SpineEdges(f));
    DrawPorts(f, s, SpineNodes(f) + RadioNodes(f), SpineEdges(f) + RadioEdges(f));
    DrawClients(f, s, EquipmentNodes(f), EquipmentEdges(f));
    return true, Export(s.nodes, s.edges, f.ownMacs);
  }
}
