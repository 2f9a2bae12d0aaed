// One exporter's snapshot of its own network, and why the snapshots of any number of exporters
// give the dashboard only edges whose endpoints some exporter names.
module TopologyCollector {
  import opened PromQL
  import opened VectorLaws
  import opened TopologyQueries
  import opened Reconciliation
  import opened Throughput
  import opened Topology
  import opened TopologyChecks

  datatype Sample = Sample(labels: Labels, value: real)

  // What one exporter shows: node and edge samples, and the addresses of its own interfaces.
  datatype Export = Export(nodes: seq<Sample>, edges: seq<Sample>, infra: set<string>)

  ghost predicate NamesNode(nodes: seq<Sample>, id: string) {
    exists n | n in nodes :: Get(n.labels, "id") == id
  }

  ghost predicate Closed(nodes: seq<Sample>, edges: seq<Sample>) {
    forall e | e in edges :: NamesNode(nodes, Get(e.labels, "source")) && NamesNode(nodes, Get(e.labels, "target"))
  }

  // ---------------------------------------------------------------- well-labelled samples

  const STRUCTURE := {"id", "authority", "source", "target"}

  // Labels for people: they say nothing about the shape of the graph.
  predicate ForDisplay(labels: Labels) {
    labels.Keys !! STRUCTURE
  }

  type Display = l: Labels | ForDisplay(l) witness map[]

  predicate IsEquipment(id: string) {
    id != "" && !("client:" <= id)
  }

  predicate WellNode(l: Labels) {
    Get(l, "id") != "" && Get(l, "authority") in {"0", "1"} && "source" !in l && "target" !in l
  }

  predicate WellEdge(l: Labels) {
    && Get(l, "id") != "" && Get(l, "authority") in {"0", "1"}
    && IsEquipment(Get(l, "source")) && Get(l, "target") != ""
  }

  ghost predicate WellLabelled(nodes: seq<Sample>, edges: seq<Sample>) {
    (forall n | n in nodes :: WellNode(n.labels)) && (forall e | e in edges :: WellEdge(e.labels))
  }

  ghost predicate Sound(x: Export) {
    Closed(x.nodes, x.edges) && WellLabelled(x.nodes, x.edges)
  }

  lemma ClosedOneMore(nodes: seq<Sample>, edges: seq<Sample>, e: Sample)
    ensures Closed(nodes, edges + [e])
       <==> Closed(nodes, edges) && NamesNode(nodes, Get(e.labels, "source")) && NamesNode(nodes, Get(e.labels, "target"))
  {
    var more := edges + [e];
    assert more[|more| - 1] == e;
    assert forall d | d in edges :: d in more;
    assert forall d | d in more :: d in edges || d == e;
  }

  // The labels of an emitted edge: the table of extra labels is written last and may override.
  function EdgeLabels(id: string, source: string, target: string, authority: bool, extra: Labels): Labels {
    map["id" := id, "source" := source, "target" := target, "authority" := if authority then "1" else "0"] + extra
  }

  function NodeLabels(id: string, labels: Labels, authority: bool): Labels {
    labels["id" := id]["authority" := if authority then "1" else "0"]
  }

  lemma WellOneMoreNode(nodes: seq<Sample>, edges: seq<Sample>, n: Sample)
    requires WellLabelled(nodes, edges) && WellNode(n.labels)
    ensures WellLabelled(nodes + [n], edges)
  {
  }

  lemma WellOneMoreEdge(nodes: seq<Sample>, edges: seq<Sample>, e: Sample)
    requires WellLabelled(nodes, edges) && WellEdge(e.labels)
    ensures WellLabelled(nodes, edges + [e])
  {
  }

  lemma NamedHasId(nodes: seq<Sample>, edges: seq<Sample>, id: string)
    requires WellLabelled(nodes, edges) && NamesNode(nodes, id)
    ensures id != ""
  {
  }

  lemma ClosedMoreNodes(nodes: seq<Sample>, edges: seq<Sample>, n: Sample)
    requires Closed(nodes, edges)
    ensures Closed(nodes + [n], edges)
  {
    forall id | NamesNode(nodes, id) ensures NamesNode(nodes + [n], id) {
      var m :| m in nodes && Get(m.labels, "id") == id;
      assert m in nodes + [n];
    }
  }

  class Snapshot {
    var nodes: seq<Sample>
    var edges: seq<Sample>
    var knownIds: set<string>

    ghost predicate Valid()
      reads this
    {
      forall id :: id in knownIds <==> NamesNode(nodes, id)
    }

    ghost predicate IsClosed()
      reads this
    {
      Closed(nodes, edges)
    }

    ghost predicate IsSound()
      reads this
    {
      Valid() && IsClosed() && WellLabelled(nodes, edges)
    }

    constructor ()
      ensures IsSound() && nodes == [] && edges == [] && knownIds == {}
    {
      nodes, edges, knownIds := [], [], {};
    }

    // Emits the node and remembers its id for the edges to come.
    method AddNode(id: string, labels: Labels, value: real, authority: bool)
      requires Valid()
      modifies this
      ensures Valid() && (old(IsClosed()) ==> IsClosed()) && edges == old(edges) && knownIds == old(knownIds) + {id}
      ensures nodes == old(nodes) + [Sample(NodeLabels(id, labels, authority), value)]
      ensures old(IsSound()) && id != "" && ForDisplay(labels) ==> IsSound()
    {
      var n := Sample(NodeLabels(id, labels, authority), value);
      if IsClosed() {
        ClosedMoreNodes(nodes, edges, n);
      }
      if IsSound() && id != "" && ForDisplay(labels) {
        WellOneMoreNode(nodes, edges, n);
      }
      nodes := nodes + [n];
      knownIds := knownIds + {id};
      assert nodes[|nodes| - 1] == n;
      assert forall m | m in old(nodes) :: m in nodes;
      assert forall m | m in nodes :: m in old(nodes) || m == n;
    }

    // Emits the edge only when both endpoints are already known. A closed snapshot stays closed,
    // unless the extra labels replace an endpoint by an unknown id.
    method AddEdge(id: string, source: string, target: string, value: real, authority: bool, extra: Labels)
      requires Valid()
      modifies this
      ensures Valid() && nodes == old(nodes) && knownIds == old(knownIds)
      ensures edges == if source in knownIds && target in knownIds
                       then old(edges) + [Sample(EdgeLabels(id, source, target, authority, extra), value)]
                       else old(edges)
      ensures var l := EdgeLabels(id, source, target, authority, extra);
        var emitted := source in knownIds && target in knownIds;
        IsClosed() <==> (old(IsClosed()) && (emitted ==> Get(l, "source") in knownIds && Get(l, "target") in knownIds))
      ensures old(IsClosed()) && "source" !in extra && "target" !in extra ==> IsClosed()
      ensures old(IsSound()) && id != "" && IsEquipment(source) && ForDisplay(extra) ==> IsSound()
    {
      if !(source in knownIds && target in knownIds) {
        return;
      }
      var e := Sample(EdgeLabels(id, source, target, authority, extra), value);
      ClosedOneMore(nodes, edges, e);
      if IsSound() && id != "" && IsEquipment(source) && ForDisplay(extra) {
        NamedHasId(nodes, edges, target);
        WellOneMoreEdge(nodes, edges, e);
      }
      edges := edges + [e];
    }
  }

  // Scraping adds the metric name, the job and the router.
  function Stamp(l: Labels, metric: string, router: string): Labels {
    l[METRIC_NAME := metric]["job" := "openwrt"]["router" := router]
  }

  function InfraLabels(mac: string): Labels {
    map["mac" := mac]
  }

  // The stored samples come from the exporters' last snapshots.
  ghost predicate Stores(env: Env, exports: map<string, Export>) {
    && (forall l | l in env.samples && Get(l, METRIC_NAME) == EDGE_METRIC && Get(l, "job") == "openwrt" ::
          exists r, e | r in exports && e in exports[r].edges :: l == Stamp(e.labels, EDGE_METRIC, r))
    && (forall l | l in env.samples && Get(l, METRIC_NAME) == NODE_METRIC && Get(l, "job") == "openwrt" ::
          exists r, n | r in exports && n in exports[r].nodes :: l == Stamp(n.labels, NODE_METRIC, r))
    && (forall l | l in env.samples && Get(l, METRIC_NAME) == INFRA_METRIC && Get(l, "job") == "openwrt" ::
          exists r, mac | r in exports && mac in exports[r].infra :: l == Stamp(InfraLabels(mac), INFRA_METRIC, r))
    && (forall r, n | r in exports && n in exports[r].nodes :: Stamp(n.labels, NODE_METRIC, r) in env.samples)
  }

  lemma StampKeeps(l: Labels, metric: string, router: string, n: string)
    requires n != METRIC_NAME && n != "job" && n != "router"
    ensures Get(Stamp(l, metric, router), n) == Get(l, n)
    ensures Get(Stamp(l, metric, router), METRIC_NAME) == metric
    ensures Get(Stamp(l, metric, router), "job") == "openwrt"
    ensures Get(Stamp(l, metric, router), "router") == router
  {
  }

  lemma StampSelected(env: Env, l: Labels, metric: string, router: string)
    requires Stamp(l, metric, router) in env.samples && env.router(router)
    ensures Stamp(l, metric, router) in Raw(env, metric)
  {
    var stamped := Stamp(l, metric, router);
    StampKeeps(l, metric, router, "");
    assert Satisfies(env, FILTER[0], stamped) && Satisfies(env, FILTER[1], stamped);
  }

  lemma StampedNode(env: Env, exports: map<string, Export>, r: string, id: string)
    requires Stores(env, exports) && r in exports && env.router(r)
    requires NamesNode(exports[r].nodes, id)
    ensures HasValue(Raw(env, NODE_METRIC), "id", id)
  {
    var n :| n in exports[r].nodes && Get(n.labels, "id") == id;
    StampKeeps(n.labels, NODE_METRIC, r, "id");
    StampSelected(env, n.labels, NODE_METRIC, r);
  }

  lemma StoredEdge(env: Env, exports: map<string, Export>, l: Labels) returns (r: string, e: Sample)
    requires Stores(env, exports) && l in Raw(env, EDGE_METRIC)
    ensures r in exports && e in exports[r].edges && env.router(r)
    ensures Get(l, "source") == Get(e.labels, "source") && Get(l, "target") == Get(e.labels, "target")
  {
    assert Satisfies(env, FILTER[0], l) && Satisfies(env, FILTER[1], l);
    r, e :| r in exports && e in exports[r].edges && l == Stamp(e.labels, EDGE_METRIC, r);
    StampKeeps(e.labels, EDGE_METRIC, r, "source");
    StampKeeps(e.labels, EDGE_METRIC, r, "target");
  }

  // Whatever routers the dashboard selects, every selected edge has both endpoints among the
  // selected nodes, because each snapshot is closed on its own.
  lemma SnapshotsClose(env: Env, exports: map<string, Export>)
    requires Stores(env, exports)
    requires forall r | r in exports :: Closed(exports[r].nodes, exports[r].edges)
    ensures EndpointsKnown(env)
  {
    forall l | l in Raw(env, EDGE_METRIC)
      ensures HasValue(Raw(env, NODE_METRIC), "id", Get(l, "source"))
      ensures HasValue(Raw(env, NODE_METRIC), "id", Get(l, "target"))
    {
      var r, e := StoredEdge(env, exports, l);
      StampedNode(env, exports, r, Get(l, "source"));
      StampedNode(env, exports, r, Get(l, "target"));
    }
  }

  // ---------------------------------------------------------------- the shape of what is stored

  lemma StampedEdgeShape(l: Labels, router: string)
    requires WellEdge(l)
    ensures WellEdge(Stamp(l, EDGE_METRIC, router))
  {
    StampKeeps(l, EDGE_METRIC, router, "id");
    StampKeeps(l, EDGE_METRIC, router, "authority");
    StampKeeps(l, EDGE_METRIC, router, "source");
    StampKeeps(l, EDGE_METRIC, router, "target");
  }

  lemma StampedNodeShape(l: Labels, router: string)
    requires WellNode(l)
    ensures WellNode(Stamp(l, NODE_METRIC, router))
  {
    StampKeeps(l, NODE_METRIC, router, "id");
    StampKeeps(l, NODE_METRIC, router, "authority");
  }

  lemma StoredEdgeShape(env: Env, exports: map<string, Export>, l: Labels)
    requires Stores(env, exports) && (forall r | r in exports :: Sound(exports[r])) && l in Raw(env, EDGE_METRIC)
    ensures WellEdge(l)
  {
    assert Satisfies(env, FILTER[0], l);
    var r, e :| r in exports && e in exports[r].edges && l == Stamp(e.labels, EDGE_METRIC, r);
    StampedEdgeShape(e.labels, r);
  }

  lemma StoredNodeShape(env: Env, exports: map<string, Export>, l: Labels)
    requires Stores(env, exports) && (forall r | r in exports :: Sound(exports[r])) && l in Raw(env, NODE_METRIC)
    ensures WellNode(l)
  {
    assert Satisfies(env, FILTER[0], l);
    var r, n :| r in exports && n in exports[r].nodes && l == Stamp(n.labels, NODE_METRIC, r);
    StampedNodeShape(n.labels, r);
  }

  lemma StoredInfraShape(env: Env, exports: map<string, Export>, l: Labels)
    requires Stores(env, exports) && l in Raw(env, INFRA_METRIC)
    ensures "id" !in l && "target" !in l
  {
    assert Satisfies(env, FILTER[0], l);
    var r, mac :| r in exports && mac in exports[r].infra && l == Stamp(InfraLabels(mac), INFRA_METRIC, r);
  }

  // A client is suppressed by exactly the addresses that selected exporters name as their own.
  lemma SuppressedExactly(env: Env, exports: map<string, Export>, mac: string)
    requires Stores(env, exports) && mac != ""
    requires forall r, m | r in exports && m in exports[r].infra :: Stamp(InfraLabels(m), INFRA_METRIC, r) in env.samples
    ensures InfraId(env, "client:" + mac) <==> exists r | r in exports :: env.router(r) && mac in exports[r].infra
  {
    if r :| r in exports && env.router(r) && mac in exports[r].infra {
      StampSelected(env, InfraLabels(mac), INFRA_METRIC, r);
      StampKeeps(InfraLabels(mac), INFRA_METRIC, r, "mac");
      assert Get(Stamp(InfraLabels(mac), INFRA_METRIC, r), "mac") == mac;
    }
    if InfraId(env, "client:" + mac) {
      var l :| l in Raw(env, INFRA_METRIC) && Get(l, "mac") != "" && "client:" + mac == "client:" + Get(l, "mac");
      var r, m := StoredInfra(env, exports, l);
      assert ("client:" + mac)[7..] == mac && ("client:" + m)[7..] == m;
    }
  }

  lemma StoredInfra(env: Env, exports: map<string, Export>, l: Labels) returns (r: string, m: string)
    requires Stores(env, exports) && l in Raw(env, INFRA_METRIC)
    ensures r in exports && env.router(r) && m in exports[r].infra && Get(l, "mac") == m
  {
    assert Satisfies(env, FILTER[0], l) && Satisfies(env, FILTER[1], l);
    r, m :| r in exports && m in exports[r].infra && l == Stamp(InfraLabels(m), INFRA_METRIC, r);
    StampKeeps(InfraLabels(m), INFRA_METRIC, r, "mac");
  }

  // The counters of the traffic collector name their device, and not an address.
  ghost predicate TrafficByDevice(env: Env) {
    forall l | l in Select(env, env.rates, TRAFFIC_METRIC, FILTER) :: "mac" !in l
  }

  // What sound snapshots leave in store has the shape the queries rely on, and no edge starts at a client.
  lemma StoredShape(env: Env, exports: map<string, Export>)
    requires Stores(env, exports) && (forall r | r in exports :: Sound(exports[r])) && TrafficByDevice(env)
    ensures WellShaped(env) && NoInfraSource(env)
  {
    forall l | l in Raw(env, EDGE_METRIC) ensures WellEdge(l) {
      StoredEdgeShape(env, exports, l);
    }
    forall l | l in Raw(env, NODE_METRIC) ensures WellNode(l) {
      StoredNodeShape(env, exports, l);
    }
    forall l | l in Raw(env, INFRA_METRIC) ensures "id" !in l && "target" !in l {
      StoredInfraShape(env, exports, l);
    }
    EquipmentIsShown(env);
  }

  lemma EquipmentIsShown(env: Env)
    requires forall e | e in Raw(env, EDGE_METRIC) :: WellEdge(e)
    ensures NoInfraSource(env)
  {
    forall e | e in Edges(env) ensures !InfraId(env, Get(e, "source")) {
      assert e in Raw(env, EDGE_METRIC);
    }
  }

  // End to end: sound snapshots from any number of exporters, any router selection, any overlap
  // of claims and placeholders, and both dangling-edge stats read 0.
  lemma DashboardNeverDangles(env: Env, exports: map<string, Export>)
    requires Stores(env, exports) && forall r | r in exports :: Sound(exports[r])
    requires TrafficByDevice(env) && DeviceInfoUnique(env)
    ensures Reads(DanglingEdges("source"), env, 0.0) && Reads(DanglingEdges("target"), env, 0.0)
  {
    StoredShape(env, exports);
    SnapshotsClose(env, exports);
    DanglingStatsReadZero(env);
  }
}
