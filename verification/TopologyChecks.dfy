// The Data Quality stats 201-203: what they count, and what a zero on them guarantees.
module TopologyChecks {
  import opened PromQL
  import opened VectorLaws
  import opened TopologyQueries
  import opened Reconciliation
  import opened Throughput
  import opened Topology

  // ---------------------------------------------------------------- count(...) or vector(0)

  lemma NoGroupKey(l: Labels)
    ensures GroupKey(l, {}) == map[]
  {
  }

  lemma CountAll(v: Vector)
    requires v != map[]
    ensures AggregateBy(CountOf, v, {}) == map[map[] := |v| as real]
  {
    forall l | l in v ensures GroupKey(l, {}) == map[] {
      NoGroupKey(l);
    }
    var l :| l in v;
    assert GroupKey(l, {}) in GroupKeys(v, {});
    AggregateAt(CountOf, v, {}, map[]);
    SameMap(Members(v, map[], {}), v);
    SameMap(AggregateBy(CountOf, v, {}), map[map[] := |v| as real]);
  }

  lemma OrZero(v: Vector)
    ensures VectorOr(AggregateBy(CountOf, v, {}), map[map[] := 0.0]) == map[map[] := |v| as real]
  {
    var zero: Vector := map[map[] := 0.0];
    var none: Labels := map[];
    if v == map[] {
      assert AggregateBy(CountOf, v, {}) == map[];
      assert !HasTwin(none, map[]);
    } else {
      CountAll(v);
      assert DropName(none) == DropName(none);
      assert HasTwin(none, map[none := |v| as real]);
    }
  }

  lemma EvalCount(env: Env, e: Expr, v: Vector)
    requires Eval(e, env) == Ok(Vec(v))
    ensures Eval(Aggregate(CountOf, [], e), env) == Ok(Vec(AggregateBy(CountOf, v, {})))
  {
    assert ToSet([]) == {};
  }

  lemma EvalCountOrZero(env: Env, e: Expr, v: Vector)
    requires Eval(e, env) == Ok(Vec(v))
    ensures Eval(CountOrZero(e), env) == Ok(Vec(map[map[] := |v| as real]))
  {
    EvalCount(env, e, v);
    EvalOrElse(env, Aggregate(CountOf, [], e), VectorOf(0.0), AggregateBy(CountOf, v, {}), map[map[] := 0.0]);
    OrZero(v);
  }

  // ---------------------------------------------------------------- stats 202 and 203

  ghost function Unresolved(nodes: Vector, edges: Vector, endpoint: string): Vector {
    map row | row in edges && !Resolves(nodes, row, endpoint) :: edges[row]
  }

  lemma EndpointRow(l: Labels, endpoint: string)
    requires endpoint !in l
    ensures Get(Rewrite(Moved(endpoint, "", "id", ""), l), endpoint) == Get(l, "id")
  {
    MovedRow(l, endpoint, "", "id");
  }

  lemma EndpointValues(nodes: Vector, w: Vector, endpoint: string, x: string)
    requires forall l | l in nodes :: endpoint !in l
    requires Relabel(Moved(endpoint, "", "id", ""), nodes) == Ok(w)
    ensures HasValue(w, endpoint, x) <==> HasValue(nodes, "id", x)
  {
    var name := Names(Moved(endpoint, "", "id", ""), nodes);
    if HasValue(w, endpoint, x) {
      var k :| k in w && Get(k, endpoint) == x;
      var l :| l in name && name[l] == k;
      EndpointRow(l, endpoint);
    }
    if HasValue(nodes, "id", x) {
      var l :| l in nodes && Get(l, "id") == x;
      EndpointRow(l, endpoint);
      assert name[l] in w;
    }
  }

  lemma EvalEndpointIds(env: Env, e: Expr, nodes: Vector, endpoint: string) returns (w: Vector)
    requires Eval(e, env) == Ok(Vec(nodes)) && forall l | l in nodes :: endpoint !in l
    ensures Eval(MoveLabel(e, endpoint, "", "id", ""), env) == Ok(Vec(w))
    ensures forall x | x != "" :: HasValue(w, endpoint, x) <==> HasValue(nodes, "id", x)
  {
    EvalMoved(env, e, nodes, endpoint, "", "id", "");
    ReplaceFreshLabelInjective(Moved(endpoint, "", "id", ""), nodes);
    w := Relabel(Moved(endpoint, "", "id", ""), nodes).value;
    forall x | x != "" ensures HasValue(w, endpoint, x) <==> HasValue(nodes, "id", x) {
      EndpointValues(nodes, w, endpoint, x);
    }
  }

  lemma UnlessIsUnresolved(nodes: Vector, edges: Vector, w: Vector, endpoint: string)
    requires forall row | row in edges :: Get(row, endpoint) != ""
    requires forall x | x != "" :: HasValue(w, endpoint, x) <==> HasValue(nodes, "id", x)
    ensures VectorUnless(edges, w, {endpoint}) == Unresolved(nodes, edges, endpoint)
  {
    var v := VectorUnless(edges, w, {endpoint});
    forall row ensures row in v.Keys <==> row in Unresolved(nodes, edges, endpoint).Keys {
      UnlessRow(edges, w, endpoint, row);
    }
    SameMap(v, Unresolved(nodes, edges, endpoint));
  }

  lemma EvalDangling(env: Env, ee: Expr, ne: Expr, nodes: Vector, edges: Vector, endpoint: string)
    requires Eval(ne, env) == Ok(Vec(nodes)) && Eval(ee, env) == Ok(Vec(edges))
    requires forall l | l in nodes :: endpoint !in l
    requires forall row | row in edges :: Get(row, endpoint) != ""
    ensures Eval(CountOrZero(UnlessOn(ee, endpoint, MoveLabel(ne, endpoint, "", "id", ""))), env)
            == Ok(Vec(map[map[] := |Unresolved(nodes, edges, endpoint)| as real]))
  {
    var w := EvalEndpointIds(env, ne, nodes, endpoint);
    var ids := MoveLabel(ne, endpoint, "", "id", "");
    EvalUnlessOn(env, ee, endpoint, ids, edges, w);
    UnlessIsUnresolved(nodes, edges, w, endpoint);
    EvalCountOrZero(env, UnlessOn(ee, endpoint, ids), Unresolved(nodes, edges, endpoint));
  }

  lemma RowsShaped(env: Env, nodes: Vector, edges: Vector, endpoint: string)
    requires WellShaped(env) && Rendered(env, nodes, edges) && endpoint in {"source", "target"}
    ensures forall l | l in nodes :: endpoint !in l
    ensures forall row | row in edges :: Get(row, endpoint) != ""
  {
    forall row | row in nodes ensures endpoint !in row {
      var l :| l in Nodes(env) && DropName(l) == row;
      assert l in Raw(env, NODE_METRIC);
    }
    forall row | row in edges ensures Get(row, endpoint) != "" {
      var l := RowSource(Edges(env), EdgeTraffic(env), edges, row);
      assert l in Raw(env, EDGE_METRIC);
    }
  }

  // Stats 202 and 203 count exactly the rendered edges with an unresolved source or target.
  lemma DanglingStatCounts(env: Env, nodes: Vector, edges: Vector, endpoint: string)
    requires WellShaped(env) && Rendered(env, nodes, edges) && endpoint in {"source", "target"}
    requires Eval(NodesExpr(), env) == Ok(Vec(nodes)) && Eval(EdgesExpr(), env) == Ok(Vec(edges))
    ensures Eval(DanglingEdges(endpoint), env)
            == Ok(Vec(map[map[] := |Unresolved(nodes, edges, endpoint)| as real]))
  {
    RowsShaped(env, nodes, edges, endpoint);
    EvalDangling(env, EdgesExpr(), NodesExpr(), nodes, edges, endpoint);
  }

  lemma UnresolvedNone(nodes: Vector, edges: Vector, endpoint: string)
    ensures |Unresolved(nodes, edges, endpoint)| == 0 <==> AllResolve(nodes, edges, endpoint)
  {
    if row :| row in edges && !Resolves(nodes, row, endpoint) {
      assert row in Unresolved(nodes, edges, endpoint);
    }
    if AllResolve(nodes, edges, endpoint) {
      assert Unresolved(nodes, edges, endpoint) == map[];
    }
  }

  ghost predicate Reads(e: Expr, env: Env, x: real) {
    Eval(e, env) == Ok(Vec(map[map[] := x]))
  }

  // Stat 203 reads 0 on every scrape; stat 202 reads 0 exactly when no surviving edge starts at
  // a suppressed client.
  lemma DanglingStatsReadZero(env: Env)
    requires WellShaped(env) && DeviceInfoUnique(env) && EndpointsKnown(env)
    ensures Reads(DanglingEdges("target"), env, 0.0)
    ensures Reads(DanglingEdges("source"), env, 0.0) <==> NoInfraSource(env)
  {
    var nodes, edges := FramesRender(env);
    NoDanglingTargets(env, nodes, edges);
    NoDanglingSources(env, nodes, edges);
    StatIsZero(env, nodes, edges, "target");
    StatIsZero(env, nodes, edges, "source");
  }

  lemma StatIsZero(env: Env, nodes: Vector, edges: Vector, endpoint: string)
    requires WellShaped(env) && Rendered(env, nodes, edges) && endpoint in {"source", "target"}
    requires Eval(NodesExpr(), env) == Ok(Vec(nodes)) && Eval(EdgesExpr(), env) == Ok(Vec(edges))
    ensures Reads(DanglingEdges(endpoint), env, 0.0) <==> AllResolve(nodes, edges, endpoint)
  {
    DanglingStatCounts(env, nodes, edges, endpoint);
    UnresolvedNone(nodes, edges, endpoint);
    var n := |Unresolved(nodes, edges, endpoint)| as real;
    SampleInjective(n, 0.0);
  }

  lemma SampleInjective(x: real, y: real)
    ensures Ok(Vec(map[map[] := x])) == Ok(Vec(map[map[] := y])) ==> x == y
  {
    var a: Vector, b: Vector := map[map[] := x], map[map[] := y];
    assert a[map[]] == x && b[map[]] == y;
  }
}
