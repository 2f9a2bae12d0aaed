// The two node-graph queries of the topology dashboard, as query trees. The mission-control
// dashboard carries a second copy of the same builders over the same filter.
module TopologyQueries {
  import opened PromQL

  const NODE_METRIC := "openwrt_topology_node"
  const EDGE_METRIC := "openwrt_topology_edge"
  const INFRA_METRIC := "openwrt_topology_infra_mac"
  const TRAFFIC_METRIC := "openwrt_device_traffic_bytes_total"
  const INFO_METRIC := "openwrt_device_info"

  const FILTER := [Matcher("job", IsEqual, "openwrt"), Matcher("router", IsMatch, "$router")]

  function SelectorOf(metric: string, extra: seq<Matcher>): Expr {
    Selector(metric, FILTER + extra)
  }

  function WithAuthority(metric: string, authority: string): Expr {
    SelectorOf(metric, [Matcher("authority", IsEqual, authority)])
  }

  function UnlessOn(l: Expr, name: string, r: Expr): Expr {
    Binary(Unless, On([name]), l, r)
  }

  function OrElse(l: Expr, r: Expr): Expr {
    Binary(Or, NoMatching, l, r)
  }

  function PreferAuthority(metric: string): Expr {
    var first := WithAuthority(metric, "1");
    OrElse(first, UnlessOn(WithAuthority(metric, "0"), "id", first))
  }

  function InfraAs(name: string): Expr {
    MoveLabel(SelectorOf(INFRA_METRIC, []), name, "client:", "mac", "")
  }

  function TrafficByMac(): Expr {
    Aggregate(SumOf, ["mac"],
              Binary(Times, OnGroupLeft(["device"], ["mac"]),
                     RateOf(TRAFFIC_METRIC, FILTER), SelectorOf(INFO_METRIC, [])))
  }

  function TrafficAs(prefix: string): Expr {
    Aggregate(SumOf, ["id"], MoveLabel(TrafficByMac(), "id", prefix + ":", "mac", ""))
  }

  function OverlayTraffic(base: Expr, traffic: Expr): Expr {
    var zeroed := Binary(Times, NoMatching, base, Number(0.0));
    OrElse(Binary(Plus, OnGroupLeft(["id"], []), zeroed, traffic), zeroed)
  }

  function ReconciledNodes(): Expr {
    UnlessOn(PreferAuthority(NODE_METRIC), "id", InfraAs("id"))
  }

  function NodesExpr(): Expr {
    OverlayTraffic(ReconciledNodes(), TrafficAs("client"))
  }

  function AssocAsLan(): Expr {
    MoveLabel(SelectorOf(EDGE_METRIC, [Matcher("id", IsMatch, "assoc:.+")]), "id", "lan:", "id", "assoc:")
  }

  function ReconciledEdges(): Expr {
    UnlessOn(UnlessOn(PreferAuthority(EDGE_METRIC), "id", AssocAsLan()), "target", InfraAs("target"))
  }

  function EdgesExpr(): Expr {
    OverlayTraffic(ReconciledEdges(), OrElse(TrafficAs("lan"), TrafficAs("assoc")))
  }

  function CountOrZero(e: Expr): Expr {
    OrElse(Aggregate(CountOf, [], e), VectorOf(0.0))
  }

  // Stat 201: ids claimed first-hand by more than one series.
  function CollidingNodeIds(): Expr {
    CountOrZero(Binary(Greater, NoMatching,
                       Aggregate(CountOf, ["id"], WithAuthority(NODE_METRIC, "1")), Number(1.0)))
  }

  // Stats 202 and 203: rendered edges whose `endpoint` label names no rendered node.
  function DanglingEdges(endpoint: string): Expr {
    CountOrZero(UnlessOn(EdgesExpr(), endpoint, MoveLabel(NodesExpr(), endpoint, "", "id", "")))
  }
}
