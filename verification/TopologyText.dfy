// The texts the topology generator composes, and the trees Prometheus reads them as.
module TopologyText {
  import opened PromQL
  import opened PromText
  import opened PromTextLaws
  import opened TopologyQueries

  function Parens(ts: Text): Text {
    [LP] + ts + [RP]
  }

  function SelectText(metric: string, extra: seq<Matcher>): Text {
    SelectorText(metric, FILTER + extra)
  }

  lemma SelectReads(metric: string, extra: seq<Matcher>)
    requires !Reserved(metric)
    ensures ReadsAt(PRIMARY, SelectText(metric, extra), SelectorOf(metric, extra))
  {
    SelectorReads(metric, FILTER + extra);
  }

  // Parenthesised binary operators: the form every generator function returns.
  lemma ParensBinary(op: BinOp, m: Matching, a: Text, b: Text, x: Expr, y: Expr)
    requires ReadsAt(PRIMARY, a, x) && ReadsAt(PRIMARY, b, y)
    ensures ReadsAt(PRIMARY, Parens(BinaryText(op, m, a, b)), Binary(op, m, x, y))
  {
    Loosen(PRIMARY, Level(op), a, x);
    Loosen(PRIMARY, Level(op) + 1, b, y);
    BinaryReads(op, m, a, b, x, y);
    Loosen(Level(op), 0, BinaryText(op, m, a, b), Binary(op, m, x, y));
    InParens(BinaryText(op, m, a, b), Binary(op, m, x, y));
  }

  function PreferAuthorityText(metric: string): Text {
    var first := SelectText(metric, [Matcher("authority", IsEqual, "1")]);
    var fallback := SelectText(metric, [Matcher("authority", IsEqual, "0")]);
    Parens(BinaryText(Or, NoMatching, first, Parens(BinaryText(Unless, On(["id"]), fallback, first))))
  }

  // For every metric name, including ones no dashboard uses yet.
  lemma PreferAuthorityReads(metric: string)
    requires !Reserved(metric)
    ensures ReadsAt(PRIMARY, PreferAuthorityText(metric), PreferAuthority(metric))
  {
    var one, zero := [Matcher("authority", IsEqual, "1")], [Matcher("authority", IsEqual, "0")];
    SelectReads(metric, one);
    SelectReads(metric, zero);
    var first, fallback := SelectText(metric, one), SelectText(metric, zero);
    ParensBinary(Unless, On(["id"]), fallback, first, SelectorOf(metric, zero), SelectorOf(metric, one));
    ParensBinary(Or, NoMatching, first, Parens(BinaryText(Unless, On(["id"]), fallback, first)),
                 SelectorOf(metric, one), UnlessOn(SelectorOf(metric, zero), "id", SelectorOf(metric, one)));
  }

  function InfraAsText(name: string): Text {
    MoveText(SelectText(INFRA_METRIC, []), name, "client:", "mac", "")
  }

  lemma InfraAsReads(name: string)
    ensures ReadsAt(PRIMARY, InfraAsText(name), InfraAs(name))
  {
    SelectReads(INFRA_METRIC, []);
    Loosen(PRIMARY, 0, SelectText(INFRA_METRIC, []), SelectorOf(INFRA_METRIC, []));
    MoveReads(SelectText(INFRA_METRIC, []), name, "client:", "mac", "", SelectorOf(INFRA_METRIC, []));
  }

  function TrafficByMacText(): Text {
    AggregateText(SumOf, ["mac"],
                  BinaryText(Times, OnGroupLeft(["device"], ["mac"]),
                             RateText(TRAFFIC_METRIC, FILTER), SelectText(INFO_METRIC, [])))
  }

  lemma TrafficByMacReads()
    ensures ReadsAt(PRIMARY, TrafficByMacText(), TrafficByMac())
  {
    var rate, info := RateText(TRAFFIC_METRIC, FILTER), SelectText(INFO_METRIC, []);
    var x, y := RateOf(TRAFFIC_METRIC, FILTER), SelectorOf(INFO_METRIC, []);
    var m := OnGroupLeft(["device"], ["mac"]);
    RateReads(TRAFFIC_METRIC, FILTER);
    SelectReads(INFO_METRIC, []);
    Loosen(PRIMARY, Level(Times), rate, x);
    BinaryReads(Times, m, rate, info, x, y);
    Loosen(Level(Times), 0, BinaryText(Times, m, rate, info), Binary(Times, m, x, y));
    AggregateReads(SumOf, ["mac"], BinaryText(Times, m, rate, info), Binary(Times, m, x, y));
  }

  function TrafficAsText(prefix: string): Text {
    AggregateText(SumOf, ["id"], MoveText(TrafficByMacText(), "id", prefix + ":", "mac", ""))
  }

  lemma TrafficAsReads(prefix: string)
    requires Literal(prefix)
    ensures ReadsAt(PRIMARY, TrafficAsText(prefix), TrafficAs(prefix))
  {
    TrafficByMacReads();
    Loosen(PRIMARY, 0, TrafficByMacText(), TrafficByMac());
    MoveReads(TrafficByMacText(), "id", prefix + ":", "mac", "", TrafficByMac());
    var arg := MoveText(TrafficByMacText(), "id", prefix + ":", "mac", "");
    var e := MoveLabel(TrafficByMac(), "id", prefix + ":", "mac", "");
    Loosen(PRIMARY, 0, arg, e);
    AggregateReads(SumOf, ["id"], arg, e);
  }

  function OverlayTrafficText(base: Text, traffic: Text): Text {
    var zeroed := Parens(BinaryText(Times, NoMatching, Parens(base), [Num(0.0)]));
    Parens(BinaryText(Or, NoMatching,
                      Parens(BinaryText(Plus, OnGroupLeft(["id"], []), zeroed, Parens(traffic))),
                      zeroed))
  }

  // The overlay is safe around every pair of operand texts that parse on their own.
  lemma OverlayTrafficReads(base: Text, traffic: Text, b: Expr, t: Expr)
    requires ReadsAs(base, b) && ReadsAs(traffic, t)
    ensures ReadsAt(PRIMARY, OverlayTrafficText(base, traffic), OverlayTraffic(b, t))
  {
    InParens(base, b);
    InParens(traffic, t);
    NumberReads(0.0);
    ParensBinary(Times, NoMatching, Parens(base), [Num(0.0)], b, Number(0.0));
    var zeroed := Parens(BinaryText(Times, NoMatching, Parens(base), [Num(0.0)]));
    var z := Binary(Times, NoMatching, b, Number(0.0));
    var m := OnGroupLeft(["id"], []);
    ParensBinary(Plus, m, zeroed, Parens(traffic), z, t);
    ParensBinary(Or, NoMatching, Parens(BinaryText(Plus, m, zeroed, Parens(traffic))), zeroed, Binary(Plus, m, z, t), z);
  }

  function ReconciledNodesText(): Text {
    Parens(BinaryText(Unless, On(["id"]), PreferAuthorityText(NODE_METRIC), InfraAsText("id")))
  }

  lemma ReconciledNodesReads()
    ensures ReadsAt(PRIMARY, ReconciledNodesText(), ReconciledNodes())
  {
    PreferAuthorityReads(NODE_METRIC);
    InfraAsReads("id");
    ParensBinary(Unless, On(["id"]), PreferAuthorityText(NODE_METRIC), InfraAsText("id"), PreferAuthority(NODE_METRIC), InfraAs("id"));
  }

  function NodesText(): Text {
    OverlayTrafficText(ReconciledNodesText(), TrafficAsText("client"))
  }

  lemma OverlayPrimaries(base: Text, traffic: Text, b: Expr, t: Expr)
    requires ReadsAt(PRIMARY, base, b) && ReadsAt(PRIMARY, traffic, t)
    ensures ReadsAt(PRIMARY, OverlayTrafficText(base, traffic), OverlayTraffic(b, t))
  {
    Loosen(PRIMARY, 0, base, b);
    Loosen(PRIMARY, 0, traffic, t);
    OverlayTrafficReads(base, traffic, b, t);
  }

  lemma NodesTextReads()
    ensures ReadsAt(PRIMARY, NodesText(), NodesExpr())
  {
    ReconciledNodesReads();
    TrafficAsReads("client");
    OverlayPrimaries(ReconciledNodesText(), TrafficAsText("client"), ReconciledNodes(), TrafficAs("client"));
  }

  const ASSOC := [Matcher("id", IsMatch, "assoc:.+")]

  function ReconciledEdgesText(): Text {
    var assocAsLan := MoveText(SelectText(EDGE_METRIC, ASSOC), "id", "lan:", "id", "assoc:");
    var current := Parens(BinaryText(Unless, On(["id"]), PreferAuthorityText(EDGE_METRIC), assocAsLan));
    Parens(BinaryText(Unless, On(["target"]), current, InfraAsText("target")))
  }

  lemma ReconciledEdgesReads()
    ensures ReadsAt(PRIMARY, ReconciledEdgesText(), ReconciledEdges())
  {
    PreferAuthorityReads(EDGE_METRIC);
    SelectReads(EDGE_METRIC, ASSOC);
    Loosen(PRIMARY, 0, SelectText(EDGE_METRIC, ASSOC), SelectorOf(EDGE_METRIC, ASSOC));
    MoveReads(SelectText(EDGE_METRIC, ASSOC), "id", "lan:", "id", "assoc:", SelectorOf(EDGE_METRIC, ASSOC));
    var assocAsLan := MoveText(SelectText(EDGE_METRIC, ASSOC), "id", "lan:", "id", "assoc:");
    ParensBinary(Unless, On(["id"]), PreferAuthorityText(EDGE_METRIC), assocAsLan, PreferAuthority(EDGE_METRIC), AssocAsLan());
    var current := Parens(BinaryText(Unless, On(["id"]), PreferAuthorityText(EDGE_METRIC), assocAsLan));
    InfraAsReads("target");
    ParensBinary(Unless, On(["target"]), current, InfraAsText("target"),
                 UnlessOn(PreferAuthority(EDGE_METRIC), "id", AssocAsLan()), InfraAs("target"));
  }

  function EdgeTrafficText(): Text {
    Parens(BinaryText(Or, NoMatching, TrafficAsText("lan"), TrafficAsText("assoc")))
  }

  lemma EdgeTrafficReads()
    ensures ReadsAt(PRIMARY, EdgeTrafficText(), OrElse(TrafficAs("lan"), TrafficAs("assoc")))
  {
    TrafficAsReads("lan");
    TrafficAsReads("assoc");
    ParensBinary(Or, NoMatching, TrafficAsText("lan"), TrafficAsText("assoc"), TrafficAs("lan"), TrafficAs("assoc"));
  }

  function EdgesText(): Text {
    OverlayTrafficText(ReconciledEdgesText(), EdgeTrafficText())
  }

  lemma EdgesTextReads()
    ensures ReadsAt(PRIMARY, EdgesText(), EdgesExpr())
  {
    ReconciledEdgesReads();
    EdgeTrafficReads();
    OverlayPrimaries(ReconciledEdgesText(), EdgeTrafficText(), ReconciledEdges(), OrElse(TrafficAs("lan"), TrafficAs("assoc")));
  }

  // count(...) or vector(0)
  function CountOrZeroText(arg: Text): Text {
    BinaryText(Or, NoMatching, AggregateText(CountOf, [], arg), [Word("vector"), LP, Num(0.0), RP])
  }

  lemma CountOrZeroReads(arg: Text, e: Expr)
    requires ReadsAs(arg, e)
    ensures ReadsAs(CountOrZeroText(arg), CountOrZero(e))
  {
    AggregateReads(CountOf, [], arg, e);
    VectorReads(0.0);
    var a, b := AggregateText(CountOf, [], arg), [Word("vector"), LP, Num(0.0), RP];
    Loosen(PRIMARY, 1, a, Aggregate(CountOf, [], e));
    Loosen(PRIMARY, 2, b, VectorOf(0.0));
    BinaryReads(Or, NoMatching, a, b, Aggregate(CountOf, [], e), VectorOf(0.0));
    Loosen(1, 0, CountOrZeroText(arg), CountOrZero(e));
  }

  function UnresolvedText(edges: Text, endpoint: string, nodes: Text): Text {
    CountOrZeroText(BinaryText(Unless, On([endpoint]), edges, MoveText(nodes, endpoint, "", "id", "")))
  }

  lemma UnresolvedReads(edges: Text, endpoint: string, nodes: Text, ee: Expr, ne: Expr)
    requires ReadsAt(PRIMARY, edges, ee) && ReadsAt(PRIMARY, nodes, ne)
    ensures ReadsAs(UnresolvedText(edges, endpoint, nodes),
                    CountOrZero(UnlessOn(ee, endpoint, MoveLabel(ne, endpoint, "", "id", ""))))
  {
    var ids := MoveText(nodes, endpoint, "", "id", "");
    var e := MoveLabel(ne, endpoint, "", "id", "");
    Loosen(PRIMARY, 0, nodes, ne);
    MoveReads(nodes, endpoint, "", "id", "", ne);
    Loosen(PRIMARY, 2, edges, ee);
    Loosen(PRIMARY, 3, ids, e);
    BinaryReads(Unless, On([endpoint]), edges, ids, ee, e);
    var both := BinaryText(Unless, On([endpoint]), edges, ids);
    Loosen(2, 0, both, UnlessOn(ee, endpoint, e));
    CountOrZeroReads(both, UnlessOn(ee, endpoint, e));
  }

  lemma DanglingTextReads(endpoint: string)
    ensures ReadsAs(UnresolvedText(EdgesText(), endpoint, NodesText()), DanglingEdges(endpoint))
  {
    NodesTextReads();
    EdgesTextReads();
    UnresolvedReads(EdgesText(), endpoint, NodesText(), EdgesExpr(), NodesExpr());
  }

  // count by (id) (...) > 1
  function RepeatedText(arg: Text): Text {
    BinaryText(Greater, NoMatching, AggregateText(CountOf, ["id"], arg), [Num(1.0)])
  }

  lemma RepeatedReads(arg: Text, e: Expr)
    requires ReadsAs(arg, e)
    ensures ReadsAs(RepeatedText(arg), Binary(Greater, NoMatching, Aggregate(CountOf, ["id"], e), Number(1.0)))
  {
    var counted, a := Aggregate(CountOf, ["id"], e), AggregateText(CountOf, ["id"], arg);
    AggregateReads(CountOf, ["id"], arg, e);
    NumberReads(1.0);
    Loosen(PRIMARY, 3, a, counted);
    Loosen(PRIMARY, 4, [Num(1.0)], Number(1.0));
    BinaryReads(Greater, NoMatching, a, [Num(1.0)], counted, Number(1.0));
    Loosen(3, 0, RepeatedText(arg), Binary(Greater, NoMatching, counted, Number(1.0)));
  }

  function CollidingText(): Text {
    CountOrZeroText(RepeatedText(SelectText(NODE_METRIC, [Matcher("authority", IsEqual, "1")])))
  }

  lemma CollidingTextReads()
    ensures ReadsAs(CollidingText(), CollidingNodeIds())
  {
    var first, e := SelectText(NODE_METRIC, [Matcher("authority", IsEqual, "1")]), WithAuthority(NODE_METRIC, "1");
    SelectReads(NODE_METRIC, [Matcher("authority", IsEqual, "1")]);
    Loosen(PRIMARY, 0, first, e);
    RepeatedReads(first, e);
    CountOrZeroReads(RepeatedText(first), Binary(Greater, NoMatching, Aggregate(CountOf, ["id"], e), Number(1.0)));
  }
}
