// The theorems about the two node-graph frames: when they evaluate, that no edge dangles, that
// every client keeps exactly one link, and when rendered ids are unique.
module Topology {
  import opened PromQL
  import opened VectorLaws
  import opened TopologyQueries
  import opened Reconciliation
  import opened Throughput

  // ---------------------------------------------------------------- the rendered frames

  ghost function NodeTraffic(env: Env): Vector {
    PerLink("client", Totals(env))
  }

  ghost function EdgeTraffic(env: Env): Vector {
    VectorOr(PerLink("lan", Totals(env)), PerLink("assoc", Totals(env)))
  }

  lemma EvalZeroed(env: Env, base: Expr, b: Vector)
    requires Eval(base, env) == Ok(Vec(b))
    ensures Eval(Binary(Times, NoMatching, base, Number(0.0)), env) == EvalScalarArithmetic(Times, b, 0.0)
  {
    assert Eval(Number(0.0), env) == Ok(Scalar(0.0));
    EvalBinaryStep(env, Times, NoMatching, base, Number(0.0), Vec(b), Scalar(0.0));
  }

  lemma JoinOnId(x: Vector, y: Vector)
    requires Join(Plus, x, y, ID, []).Ok?
    ensures EvalJoin(Plus, OnGroupLeft(["id"], []), x, y) == Ok(Vec(Join(Plus, x, y, ID, []).value))
  {
    assert ToSet(["id"]) == ID;
  }

  lemma EvalAdded(env: Env, many: Expr, one: Expr, x: Vector, y: Vector)
    requires Eval(many, env) == Ok(Vec(x)) && Eval(one, env) == Ok(Vec(y)) && Join(Plus, x, y, ID, []).Ok?
    ensures Eval(Binary(Plus, OnGroupLeft(["id"], []), many, one), env) == Ok(Vec(Join(Plus, x, y, ID, []).value))
  {
    var onId := OnGroupLeft(["id"], []);
    EvalBinaryStep(env, Plus, onId, many, one, Vec(x), Vec(y));
    BinaryIsJoin(onId, x, y);
    JoinOnId(x, y);
  }

  lemma BinaryIsJoin(m: Matching, x: Vector, y: Vector)
    ensures EvalBinary(Plus, m, Vec(x), Vec(y)) == EvalJoin(Plus, m, x, y)
  {
  }

  lemma EvalOverlay(env: Env, base: Expr, traffic: Expr, b: Vector, t: Vector)
    requires Eval(base, env) == Ok(Vec(b)) && Eval(traffic, env) == Ok(Vec(t)) && Overlay(b, t).Ok?
    ensures Eval(OverlayTraffic(base, traffic), env) == Ok(Vec(Overlay(b, t).value))
  {
    var zeroed := Binary(Times, NoMatching, base, Number(0.0));
    var z := Zeroed(b).value;
    EvalZeroed(env, base, b);
    EvalAdded(env, zeroed, traffic, z, t);
    var j := Join(Plus, z, t, ID, []).value;
    EvalOrElse(env, Binary(Plus, OnGroupLeft(["id"], []), zeroed, traffic), zeroed, j, z);
  }

  lemma OverlayRenders(env: Env, base: Expr, traffic: Expr, b: Vector, t: Vector) returns (rows: Vector)
    requires Eval(base, env) == Ok(Vec(b)) && Eval(traffic, env) == Ok(Vec(t))
    requires Injective(DropMetricName, b) && (b == map[] || UniqueOn(t, ID))
    ensures Eval(OverlayTraffic(base, traffic), env) == Ok(Vec(rows))
    ensures Overlaid(b, t, rows)
  {
    OverlayTotal(b, t);
    EvalOverlay(env, base, traffic, b, t);
    rows := Overlay(b, t).value;
  }

  lemma OverlayFails(env: Env, base: Expr, traffic: Expr)
    requires Eval(traffic, env).Err?
    ensures Eval(OverlayTraffic(base, traffic), env).Err?
  {
  }

  lemma OneMetricInjective(env: Env, metric: string, v: Vector)
    requires metric != "" && v.Keys <= Raw(env, metric).Keys
    ensures Injective(DropMetricName, v)
  {
    DropNameInjectiveOnMetric(v, metric);
  }

  lemma TrafficAsFails(env: Env, prefix: string)
    requires Eval(TrafficByMac(), env).Err?
    ensures Eval(TrafficAs(prefix), env).Err?
  {
  }

  lemma OrElseFails(env: Env, l: Expr, r: Expr)
    requires Eval(l, env).Err?
    ensures Eval(OrElse(l, r), env).Err?
  {
  }

  lemma NodeTrafficUnique(env: Env)
    ensures UniqueOn(NodeTraffic(env), ID)
  {
    LinkValues("client", Totals(env), "x");
    IdKeyedUnique(NodeTraffic(env));
  }

  lemma EdgeTrafficUnique(env: Env)
    ensures UniqueOn(EdgeTraffic(env), ID)
  {
    TwoLinkValues("lan", "assoc", Totals(env), "x");
    IdKeyedUnique(EdgeTraffic(env));
  }

  lemma EvalTraffic(env: Env, prefix: string)
    requires WellShaped(env) && DeviceInfoUnique(env)
    ensures Eval(TrafficAs(prefix), env) == Ok(Vec(PerLink(prefix, Totals(env))))
  {
    TrafficByMacMeaning(env);
    EvalTrafficAs(env, prefix, Totals(env));
  }

  lemma EvalEdgeTraffic(env: Env)
    requires WellShaped(env) && DeviceInfoUnique(env)
    ensures Eval(OrElse(TrafficAs("lan"), TrafficAs("assoc")), env) == Ok(Vec(EdgeTraffic(env)))
  {
    EvalTraffic(env, "lan");
    EvalTraffic(env, "assoc");
    EvalOrElse(env, TrafficAs("lan"), TrafficAs("assoc"), PerLink("lan", Totals(env)), PerLink("assoc", Totals(env)));
  }

  // On every scrape in which no device is identified twice the node query renders each reconciled
  // node exactly once, at its client's throughput or at 0 ...
  lemma NodesRender(env: Env) returns (rows: Vector)
    requires WellShaped(env) && DeviceInfoUnique(env)
    ensures Eval(NodesExpr(), env) == Ok(Vec(rows))
    ensures Overlaid(Nodes(env), NodeTraffic(env), rows)
  {
    EvalTraffic(env, "client");
    NodesReconciled(env);
    OneMetricInjective(env, NODE_METRIC, Nodes(env));
    NodeTrafficUnique(env);
    rows := OverlayRenders(env, ReconciledNodes(), TrafficAs("client"), Nodes(env), NodeTraffic(env));
  }

  // ... and so does the edge query.
  lemma EdgesRender(env: Env) returns (rows: Vector)
    requires WellShaped(env) && DeviceInfoUnique(env)
    ensures Eval(EdgesExpr(), env) == Ok(Vec(rows))
    ensures Overlaid(Edges(env), EdgeTraffic(env), rows)
  {
    EvalEdgeTraffic(env);
    EdgesReconciled(env);
    OneMetricInjective(env, EDGE_METRIC, Edges(env));
    EdgeTrafficUnique(env);
    rows := OverlayRenders(env, ReconciledEdges(), OrElse(TrafficAs("lan"), TrafficAs("assoc")), Edges(env), EdgeTraffic(env));
  }

  // Where any counter is rated, one device identified twice takes both frames down, whatever else
  // the scrape holds.
  lemma FramesFailTogether(env: Env)
    requires WellShaped(env) && !DeviceInfoUnique(env)
    ensures Eval(NodesExpr(), env).Err? && Eval(EdgesExpr(), env).Err?
  {
    TrafficByMacMeaning(env);
    TrafficAsFails(env, "client");
    OverlayFails(env, ReconciledNodes(), TrafficAs("client"));
    TrafficAsFails(env, "lan");
    OrElseFails(env, TrafficAs("lan"), TrafficAs("assoc"));
    OverlayFails(env, ReconciledEdges(), OrElse(TrafficAs("lan"), TrafficAs("assoc")));
  }

  // Two routers that run the traffic profile both know a device by the host name it asked for.
  function PhoneSeries(metric: string, router: string): Labels {
    map["__name__" := metric, "job" := "openwrt", "router" := router, "device" := "phone"]
  }

  function PhoneInfo(router: string): Labels {
    PhoneSeries(INFO_METRIC, router)["mac" := "aa:bb:cc:00:00:01"]
  }

  ghost function SharedPhone(): Env {
    Env(map[PhoneInfo("gateway") := 1.0, PhoneInfo("ap") := 1.0],
        map[PhoneSeries(TRAFFIC_METRIC, "gateway") := 5.0], r => true)
  }

  lemma PhoneSelected(metric: string, l: Labels)
    requires Get(l, METRIC_NAME) == metric && Get(l, "job") == "openwrt"
    ensures Selects(SharedPhone(), metric, FILTER, l)
  {
    assert Satisfies(SharedPhone(), FILTER[0], l) && Satisfies(SharedPhone(), FILTER[1], l);
  }

  lemma SharedPhoneRated()
    ensures Rated(SharedPhone()) != map[]
  {
    var env := SharedPhone();
    var counter := PhoneSeries(TRAFFIC_METRIC, "gateway");
    PhoneSelected(TRAFFIC_METRIC, counter);
    var v := Select(env, env.rates, TRAFFIC_METRIC, FILTER);
    assert counter in v;
    DropNameInjectiveOnMetric(v, TRAFFIC_METRIC);
    assert Names(DropMetricName, v)[counter] in Rated(env);
  }

  lemma SharedPhoneSamples(metric: string, l: Labels)
    requires l in Raw(SharedPhone(), metric)
    ensures metric == INFO_METRIC
  {
    assert l == PhoneInfo("gateway") || l == PhoneInfo("ap");
    assert Get(l, METRIC_NAME) == INFO_METRIC;
  }

  lemma SharedPhoneNothingElse(metric: string)
    requires metric != INFO_METRIC
    ensures Raw(SharedPhone(), metric) == map[]
  {
    if l :| l in Raw(SharedPhone(), metric) {
      SharedPhoneSamples(metric, l);
    }
  }

  lemma SharedPhoneShape()
    ensures WellShaped(SharedPhone())
  {
    var env := SharedPhone();
    SharedPhoneNothingElse(NODE_METRIC);
    SharedPhoneNothingElse(EDGE_METRIC);
    SharedPhoneNothingElse(INFRA_METRIC);
    forall l | l in Select(env, env.rates, TRAFFIC_METRIC, FILTER) ensures "mac" !in l {
      assert l == PhoneSeries(TRAFFIC_METRIC, "gateway");
    }
  }

  lemma SharedPhoneTwice()
    ensures !UniqueOn(Info(SharedPhone()), DEVICE)
  {
    var a, b := PhoneInfo("gateway"), PhoneInfo("ap");
    PhoneSelected(INFO_METRIC, a);
    PhoneSelected(INFO_METRIC, b);
    assert a["router"] != b["router"];
    assert SameOn(a, b, DEVICE);
  }

  // So both frames fail although every router exports the device once.
  lemma SharedPhoneFails()
    ensures WellShaped(SharedPhone())
    ensures Eval(NodesExpr(), SharedPhone()).Err? && Eval(EdgesExpr(), SharedPhone()).Err?
  {
    SharedPhoneShape();
    SharedPhoneRated();
    SharedPhoneTwice();
    FramesFailTogether(SharedPhone());
  }

  // ---------------------------------------------------------------- no dangling edge

  // What each exporter guarantees for its own series, on the selected routers together.
  ghost predicate EndpointsKnown(env: Env) {
    forall e | e in Raw(env, EDGE_METRIC) ::
      && HasValue(Raw(env, NODE_METRIC), "id", Get(e, "source"))
      && HasValue(Raw(env, NODE_METRIC), "id", Get(e, "target"))
  }

  ghost predicate InfraId(env: Env, id: string) {
    id in InfraClients(Raw(env, INFRA_METRIC))
  }

  // No id is lost to the preference for first-hand series.
  lemma NodeIds(env: Env, id: string)
    requires WellShaped(env)
    ensures HasValue(Nodes(env), "id", id) <==> HasValue(Raw(env, NODE_METRIC), "id", id) && !InfraId(env, id)
  {
    var raw := Raw(env, NODE_METRIC);
    if HasValue(raw, "id", id) && !InfraId(env, id) {
      if Claimed(raw, id) {
        var k :| k in raw && Get(k, "authority") == "1" && Get(k, "id") == id;
        assert k in Nodes(env);
      } else {
        var k :| k in raw && Get(k, "id") == id;
        assert k in Nodes(env);
      }
    }
  }

  lemma RowValue(base: Vector, traffic: Vector, rows: Vector, name: string, x: string)
    requires Overlaid(base, traffic, rows) && name != METRIC_NAME
    ensures HasValue(rows, name, x) <==> HasValue(base, name, x)
  {
    if HasValue(rows, name, x) {
      var k :| k in rows && Get(k, name) == x;
      var l := RowSource(base, traffic, rows, k);
      assert Get(l, name) == x;
    }
    if HasValue(base, name, x) {
      var l :| l in base && Get(l, name) == x;
      var row := RowOf(base, traffic, rows, l);
      assert Get(row, name) == x;
    }
  }

  lemma RowSource(base: Vector, traffic: Vector, rows: Vector, row: Labels) returns (l: Labels)
    requires Overlaid(base, traffic, rows) && row in rows
    ensures l in base && DropName(l) == row
    ensures forall n | n != METRIC_NAME :: Get(l, n) == Get(row, n)
  {
    l :| l in base && DropName(l) == row;
  }

  lemma RowOf(base: Vector, traffic: Vector, rows: Vector, l: Labels) returns (row: Labels)
    requires Overlaid(base, traffic, rows) && l in base
    ensures row == DropName(l) && row in rows && rows[row] == ValueOfId(traffic, Get(l, "id"))
    ensures forall n | n != METRIC_NAME :: Get(row, n) == Get(l, n)
  {
    row := DropName(l);
  }

  // The frames as they are rendered.
  ghost predicate Rendered(env: Env, nodes: Vector, edges: Vector) {
    && Overlaid(Nodes(env), NodeTraffic(env), nodes)
    && Overlaid(Edges(env), EdgeTraffic(env), edges)
  }

  lemma FramesRender(env: Env) returns (nodes: Vector, edges: Vector)
    requires WellShaped(env) && DeviceInfoUnique(env)
    ensures Eval(NodesExpr(), env) == Ok(Vec(nodes)) && Eval(EdgesExpr(), env) == Ok(Vec(edges))
    ensures Rendered(env, nodes, edges)
  {
    nodes := NodesRender(env);
    edges := EdgesRender(env);
  }

  ghost predicate Resolves(nodes: Vector, row: Labels, endpoint: string) {
    HasValue(nodes, "id", Get(row, endpoint))
  }

  // The edge's side: an endpoint is a reconciled node unless it is suppressed, and targets never are.
  lemma EdgeEndpoint(env: Env, l: Labels, endpoint: string)
    requires WellShaped(env) && EndpointsKnown(env) && l in Edges(env) && endpoint in {"source", "target"}
    ensures HasValue(Nodes(env), "id", Get(l, endpoint)) <==> !InfraId(env, Get(l, endpoint))
    ensures endpoint == "target" ==> !InfraId(env, Get(l, endpoint))
  {
    assert l in Raw(env, EDGE_METRIC);
    NodeIds(env, Get(l, endpoint));
  }

  // The node's side: the rendered ids are the reconciled ones.
  lemma NodeShown(env: Env, nodes: Vector, edges: Vector, id: string)
    requires Rendered(env, nodes, edges)
    ensures HasValue(nodes, "id", id) <==> HasValue(Nodes(env), "id", id)
  {
    RowValue(Nodes(env), NodeTraffic(env), nodes, "id", id);
  }

  // A rendered endpoint resolves exactly when it is not one of the routers' own client entries,
  // and a target never is one.
  lemma EndpointResolves(env: Env, nodes: Vector, edges: Vector, row: Labels, endpoint: string)
    requires WellShaped(env) && EndpointsKnown(env) && Rendered(env, nodes, edges)
    requires row in edges && endpoint in {"source", "target"}
    ensures Resolves(nodes, row, endpoint) <==> !InfraId(env, Get(row, endpoint))
    ensures endpoint == "target" ==> Resolves(nodes, row, endpoint)
  {
    var l := RowSource(Edges(env), EdgeTraffic(env), edges, row);
    var x := Get(row, endpoint);
    assert Get(l, endpoint) == x;
    EdgeEndpoint(env, l, endpoint);
    NodeShown(env, nodes, edges, x);
  }

  ghost predicate NoInfraSource(env: Env) {
    forall e | e in Edges(env) :: !InfraId(env, Get(e, "source"))
  }

  ghost predicate AllResolve(nodes: Vector, edges: Vector, endpoint: string) {
    forall row | row in edges :: Resolves(nodes, row, endpoint)
  }

  lemma SourceResolves(env: Env, nodes: Vector, edges: Vector, e: Labels)
    requires WellShaped(env) && EndpointsKnown(env) && Rendered(env, nodes, edges)
    requires e in Edges(env)
    ensures DropName(e) in edges
    ensures Resolves(nodes, DropName(e), "source") <==> !InfraId(env, Get(e, "source"))
  {
    var row := RowOf(Edges(env), EdgeTraffic(env), edges, e);
    EndpointResolves(env, nodes, edges, row, "source");
  }

  // The invariant that keeps the panel from crashing, on every scrape: targets always resolve,
  // and sources resolve exactly when no surviving edge starts at a suppressed client.
  lemma NoDanglingTargets(env: Env, nodes: Vector, edges: Vector)
    requires WellShaped(env) && EndpointsKnown(env) && Rendered(env, nodes, edges)
    ensures AllResolve(nodes, edges, "target")
  {
    forall row | row in edges ensures Resolves(nodes, row, "target") {
      EndpointResolves(env, nodes, edges, row, "target");
    }
  }

  lemma NoDanglingSources(env: Env, nodes: Vector, edges: Vector)
    requires WellShaped(env) && EndpointsKnown(env) && Rendered(env, nodes, edges)
    ensures AllResolve(nodes, edges, "source") <==> NoInfraSource(env)
  {
    if NoInfraSource(env) {
      forall row | row in edges ensures Resolves(nodes, row, "source") {
        var l := RowSource(Edges(env), EdgeTraffic(env), edges, row);
        SourceResolves(env, nodes, edges, l);
      }
    }
    if AllResolve(nodes, edges, "source") {
      forall e | e in Edges(env) ensures !InfraId(env, Get(e, "source")) {
        SourceResolves(env, nodes, edges, e);
      }
    }
  }
}
