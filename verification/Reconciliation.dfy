// What the topology queries mean on every scrape of every set of routers.
module Reconciliation {
  import opened PromQL
  import opened VectorLaws
  import opened TopologyQueries

  // ---------------------------------------------------------------- reconciliation, said directly

  ghost function Raw(env: Env, metric: string): Vector {
    Select(env, env.samples, metric, FILTER)
  }

  // The series of a metric that one selected router exports.
  ghost function Exported(env: Env, v: Vector, metric: string): Vector {
    map l | l in v && Get(l, "__name__") == metric && Get(l, "job") == "openwrt" && env.router(Get(l, "router")) :: v[l]
  }

  lemma SelectsExported(env: Env, v: Vector, metric: string)
    ensures Select(env, v, metric, FILTER) == Exported(env, v, metric)
  {
    forall l ensures Selects(env, metric, FILTER, l)
                <==> Get(l, "__name__") == metric && Get(l, "job") == "openwrt" && env.router(Get(l, "router"))
    {
      assert FILTER[0] in FILTER && FILTER[1] in FILTER;
      assert forall m | m in FILTER :: m == FILTER[0] || m == FILTER[1];
      assert Satisfies(env, FILTER[0], l) <==> Get(l, "job") == "openwrt";
      assert Satisfies(env, FILTER[1], l) <==> env.router(Get(l, "router"));
    }
  }

  // The series the topology queries read.
  lemma SeriesRead(env: Env)
    ensures Raw(env, NODE_METRIC) == Exported(env, env.samples, "openwrt_topology_node")
    ensures Raw(env, EDGE_METRIC) == Exported(env, env.samples, "openwrt_topology_edge")
    ensures Raw(env, INFRA_METRIC) == Exported(env, env.samples, "openwrt_topology_infra_mac")
    ensures Raw(env, INFO_METRIC) == Exported(env, env.samples, "openwrt_device_info")
    ensures Select(env, env.rates, TRAFFIC_METRIC, FILTER) == Exported(env, env.rates, "openwrt_device_traffic_bytes_total")
  {
    SelectsExported(env, env.samples, NODE_METRIC);
    SelectsExported(env, env.samples, EDGE_METRIC);
    SelectsExported(env, env.samples, INFRA_METRIC);
    SelectsExported(env, env.samples, INFO_METRIC);
    SelectsExported(env, env.rates, TRAFFIC_METRIC);
  }

  ghost predicate Claimed(raw: Vector, id: string) {
    exists k | k in raw :: Get(k, "authority") == "1" && Get(k, "id") == id
  }

  // A first-hand series, or a placeholder for an id nobody claims first-hand.
  ghost predicate Prefers(raw: Vector, l: Labels) {
    Get(l, "authority") == "1" || (Get(l, "authority") == "0" && !Claimed(raw, Get(l, "id")))
  }

  ghost function Preferred(raw: Vector): Vector {
    map l | l in raw && Prefers(raw, l) :: raw[l]
  }

  ghost function InfraClients(infra: Vector): iset<string> {
    iset i | i in infra && Get(i, "mac") != "" :: "client:" + Get(i, "mac")
  }

  // A wired guess `lan:m` gives way as soon as some radio reports `assoc:m`.
  ghost predicate Superseded(raw: Vector, id: string) {
    exists k | k in raw :: "assoc:" < Get(k, "id") && id == "lan:" + Get(k, "id")[6..]
  }

  ghost function NodeFrame(raw: Vector, infra: iset<string>): Vector {
    map l | l in raw && Prefers(raw, l) && Get(l, "id") !in infra :: raw[l]
  }

  ghost function EdgeFrame(raw: Vector, infra: iset<string>): Vector {
    map l | l in raw && Prefers(raw, l) && !Superseded(raw, Get(l, "id")) && Get(l, "target") !in infra :: raw[l]
  }

  // ---------------------------------------------------------------- the queries compute it

  ghost function Narrowed(env: Env, v: Vector, m: Matcher): Vector {
    map l | l in v && Satisfies(env, m, l) :: v[l]
  }

  lemma SelectMore(env: Env, metric: string, m: Matcher)
    ensures Select(env, env.samples, metric, FILTER + [m]) == Narrowed(env, Raw(env, metric), m)
  {
    forall l ensures Selects(env, metric, FILTER + [m], l) <==> Selects(env, metric, FILTER, l) && Satisfies(env, m, l) {
      assert (FILTER + [m])[|FILTER|] == m;
      assert forall k | k in FILTER :: k in FILTER + [m];
    }
  }

  lemma EvalSelector(env: Env, metric: string)
    ensures Eval(SelectorOf(metric, []), env) == Ok(Vec(Raw(env, metric)))
  {
    assert FILTER + [] == FILTER;
  }

  lemma EvalNarrowed(env: Env, metric: string, m: Matcher)
    ensures Eval(SelectorOf(metric, [m]), env) == Ok(Vec(Narrowed(env, Raw(env, metric), m)))
  {
    SelectMore(env, metric, m);
  }

  lemma EvalBinaryStep(env: Env, op: BinOp, m: Matching, l: Expr, r: Expr, a: Value, b: Value)
    requires Eval(l, env) == Ok(a) && Eval(r, env) == Ok(b)
    ensures Eval(Binary(op, m, l, r), env) == EvalBinary(op, m, a, b)
  {
  }

  lemma EvalUnlessOn(env: Env, l: Expr, name: string, r: Expr, x: Vector, y: Vector)
    requires Eval(l, env) == Ok(Vec(x)) && Eval(r, env) == Ok(Vec(y))
    ensures Eval(UnlessOn(l, name, r), env) == Ok(Vec(VectorUnless(x, y, {name})))
  {
    PartnerOnOne(map[], y, name);
    EvalBinaryStep(env, Unless, On([name]), l, r, Vec(x), Vec(y));
  }

  lemma EvalOrElse(env: Env, l: Expr, r: Expr, x: Vector, y: Vector)
    requires Eval(l, env) == Ok(Vec(x)) && Eval(r, env) == Ok(Vec(y))
    ensures Eval(OrElse(l, r), env) == Ok(Vec(VectorOr(x, y)))
  {
    EvalBinaryStep(env, Or, NoMatching, l, r, Vec(x), Vec(y));
  }

  lemma UnlessRow(a: Vector, b: Vector, name: string, l: Labels)
    ensures l in VectorUnless(a, b, {name}) <==> l in a && !HasValue(b, name, Get(l, name))
  {
    PartnerOnOne(l, b, name);
  }

  lemma OtherAuthorityNoTwin(l: Labels, v: Vector)
    requires forall k | k in v :: Get(k, "authority") != Get(l, "authority")
    ensures !HasTwin(l, v)
  {
    forall k | k in v ensures DropName(k) != DropName(l) {
      assert Get(DropName(k), "authority") == Get(k, "authority");
      assert Get(DropName(l), "authority") == Get(l, "authority");
    }
  }

  lemma PreferRow(env: Env, raw: Vector, l: Labels)
    ensures
      var first := Narrowed(env, raw, Matcher("authority", IsEqual, "1"));
      var fallback := Narrowed(env, raw, Matcher("authority", IsEqual, "0"));
      l in VectorOr(first, VectorUnless(fallback, first, {"id"})) <==> l in raw && Prefers(raw, l)
  {
    var first := Narrowed(env, raw, Matcher("authority", IsEqual, "1"));
    var fallback := Narrowed(env, raw, Matcher("authority", IsEqual, "0"));
    UnlessRow(fallback, first, "id", l);
    if l in fallback {
      OtherAuthorityNoTwin(l, first);
    }
    assert HasValue(first, "id", Get(l, "id")) <==> Claimed(raw, Get(l, "id"));
  }

  lemma EvalPrefer(env: Env, metric: string)
    ensures Eval(PreferAuthority(metric), env) == Ok(Vec(Preferred(Raw(env, metric))))
  {
    var raw := Raw(env, metric);
    var first := Narrowed(env, raw, Matcher("authority", IsEqual, "1"));
    var fallback := Narrowed(env, raw, Matcher("authority", IsEqual, "0"));
    EvalNarrowed(env, metric, Matcher("authority", IsEqual, "1"));
    EvalNarrowed(env, metric, Matcher("authority", IsEqual, "0"));
    EvalUnlessOn(env, WithAuthority(metric, "0"), "id", WithAuthority(metric, "1"), fallback, first);
    var u := VectorUnless(fallback, first, {"id"});
    EvalOrElse(env, WithAuthority(metric, "1"), UnlessOn(WithAuthority(metric, "0"), "id", WithAuthority(metric, "1")), first, u);
    PreferRows(env, raw);
  }

  lemma PreferRows(env: Env, raw: Vector)
    ensures
      var first := Narrowed(env, raw, Matcher("authority", IsEqual, "1"));
      var fallback := Narrowed(env, raw, Matcher("authority", IsEqual, "0"));
      VectorOr(first, VectorUnless(fallback, first, {"id"})) == Preferred(raw)
  {
    var first := Narrowed(env, raw, Matcher("authority", IsEqual, "1"));
    var fallback := Narrowed(env, raw, Matcher("authority", IsEqual, "0"));
    var v := VectorOr(first, VectorUnless(fallback, first, {"id"}));
    forall l ensures l in v.Keys <==> l in Preferred(raw).Keys {
      PreferRow(env, raw, l);
    }
    SameMap(v, Preferred(raw));
  }

  // ---------------------------------------------------------------- prefixes moved between labels

  // The relabelling of label_replace(v, dst, "to$1", src, "from(.+)").
  ghost function Moved(dst: string, to: string, src: string, from: string): Relabelling {
    Replace(dst, PrefixGroup(to), src, PrefixRest(from))
  }

  lemma EvalReplaceStep(env: Env, arg: Expr, a: Value, dst: string, template: Template, src: string, pattern: Pattern)
    requires Eval(arg, env) == Ok(a)
    ensures Eval(LabelReplace(arg, dst, template, src, pattern), env) == EvalRelabel(Replace(dst, template, src, pattern), a)
  {
    var e := LabelReplace(arg, dst, template, src, pattern);
    assert Eval(e.arg, env) == Ok(a);
  }

  lemma EvalMoved(env: Env, arg: Expr, v: Vector, dst: string, to: string, src: string, from: string)
    requires Eval(arg, env) == Ok(Vec(v))
    ensures Eval(MoveLabel(arg, dst, to, src, from), env) == EvalRelabel(Moved(dst, to, src, from), Vec(v))
  {
    EvalReplaceStep(env, arg, Vec(v), dst, PrefixGroup(to), src, PrefixRest(from));
  }

  lemma MovedRow(l: Labels, dst: string, to: string, src: string)
    ensures Rewrite(Moved(dst, to, src, ""), l)
            == if Get(l, src) == "" then l else l[dst := to + Get(l, src)]
  {
    var s := Get(l, src);
    assert s != "" ==> "" < s && s[0..] == s;
  }

  lemma InfraRow(i: Labels, name: string)
    requires name !in i
    ensures Get(Rewrite(Moved(name, "client:", "mac", ""), i), name)
            == if Get(i, "mac") == "" then "" else "client:" + Get(i, "mac")
  {
    MovedRow(i, name, "client:", "mac");
  }

  lemma EvalInfraAs(env: Env, name: string) returns (w: Vector)
    requires forall i | i in Raw(env, INFRA_METRIC) :: name !in i
    ensures Eval(InfraAs(name), env) == Ok(Vec(w))
    ensures forall x | x != "" :: HasValue(w, name, x) <==> x in InfraClients(Raw(env, INFRA_METRIC))
  {
    var infra := Raw(env, INFRA_METRIC);
    var move := Moved(name, "client:", "mac", "");
    EvalSelector(env, INFRA_METRIC);
    EvalMoved(env, SelectorOf(INFRA_METRIC, []), infra, name, "client:", "mac", "");
    ReplaceFreshLabelInjective(move, infra);
    w := Relabel(move, infra).value;
    forall x | x != "" ensures HasValue(w, name, x) <==> x in InfraClients(infra) {
      InfraValue(infra, w, name, x);
    }
  }

  lemma InfraValue(infra: Vector, w: Vector, name: string, x: string)
    requires x != "" && forall i | i in infra :: name !in i
    requires Relabel(Moved(name, "client:", "mac", ""), infra) == Ok(w)
    ensures HasValue(w, name, x) <==> x in InfraClients(infra)
  {
    var move := Moved(name, "client:", "mac", "");
    if HasValue(w, name, x) {
      var k :| k in w && Get(k, name) == x;
      var i :| i in infra && Rewrite(move, i) == k;
      InfraRow(i, name);
    }
    if x in InfraClients(infra) {
      var i :| i in infra && Get(i, "mac") != "" && x == "client:" + Get(i, "mac");
      InfraRow(i, name);
      assert Rewrite(move, i) in w;
    }
  }

  lemma AssocRow(l: Labels)
    requires "assoc:" < Get(l, "id")
    ensures Rewrite(Moved("id", "lan:", "id", "assoc:"), l) == l["id" := "lan:" + Get(l, "id")[6..]]
  {
  }

  lemma AssocInjective(v: Vector)
    requires forall l | l in v :: "assoc:" < Get(l, "id")
    ensures Injective(Moved("id", "lan:", "id", "assoc:"), v)
  {
    var move := Moved("id", "lan:", "id", "assoc:");
    forall a, b | a in v && b in v && Rewrite(move, a) == Rewrite(move, b) ensures a == b {
      AssocRow(a);
      AssocRow(b);
      var x, y := Get(a, "id")[6..], Get(b, "id")[6..];
      assert Rewrite(move, a)["id"] == "lan:" + x && Rewrite(move, b)["id"] == "lan:" + y;
      assert ("lan:" + x)[4..] == x && ("lan:" + y)[4..] == y;
      assert a["id"] == "assoc:" + x && b["id"] == "assoc:" + y;
      assert Rewrite(move, a)["id" := a["id"]] == a && Rewrite(move, b)["id" := b["id"]] == b;
    }
  }

  lemma EvalAssocAsLan(env: Env) returns (w: Vector)
    ensures Eval(AssocAsLan(), env) == Ok(Vec(w))
    ensures forall x :: HasValue(w, "id", x) <==> Superseded(Raw(env, EDGE_METRIC), x)
  {
    var m := Matcher("id", IsMatch, "assoc:.+");
    var raw := Raw(env, EDGE_METRIC);
    var v := Narrowed(env, raw, m);
    var move := Moved("id", "lan:", "id", "assoc:");
    EvalNarrowed(env, EDGE_METRIC, m);
    assert "assoc:.+"[..6] == "assoc:" && "assoc:.+"[6..] == ".+";
    assert forall l :: Satisfies(env, m, l) <==> "assoc:" < Get(l, "id");
    EvalMoved(env, SelectorOf(EDGE_METRIC, [m]), v, "id", "lan:", "id", "assoc:");
    AssocInjective(v);
    w := Relabel(move, v).value;
    forall x ensures HasValue(w, "id", x) <==> Superseded(raw, x) {
      AssocValue(raw, v, w, x);
    }
  }

  lemma AssocValue(raw: Vector, v: Vector, w: Vector, x: string)
    requires forall l :: l in v <==> l in raw && "assoc:" < Get(l, "id")
    requires Relabel(Moved("id", "lan:", "id", "assoc:"), v) == Ok(w)
    ensures HasValue(w, "id", x) <==> Superseded(raw, x)
  {
    var move := Moved("id", "lan:", "id", "assoc:");
    if HasValue(w, "id", x) {
      var k :| k in w && Get(k, "id") == x;
      var l :| l in v && Rewrite(move, l) == k;
      AssocRow(l);
    }
    if Superseded(raw, x) {
      var l :| l in raw && "assoc:" < Get(l, "id") && x == "lan:" + Get(l, "id")[6..];
      AssocRow(l);
      assert Rewrite(move, l) in w;
    }
  }

  // ---------------------------------------------------------------- what a scrape looks like

  // The shape the exporters give their series: every id and endpoint is present, authority is
  // "1" or "0", and no series carries a label that the queries write for their own bookkeeping.
  ghost predicate WellShaped(env: Env) {
    && (forall l | l in Raw(env, NODE_METRIC) ::
          Get(l, "id") != "" && Get(l, "authority") in {"0", "1"} && "source" !in l && "target" !in l)
    && (forall l | l in Raw(env, EDGE_METRIC) ::
          Get(l, "id") != "" && Get(l, "authority") in {"0", "1"} && Get(l, "source") != "" && Get(l, "target") != "")
    && (forall l | l in Raw(env, INFRA_METRIC) :: "id" !in l && "target" !in l)
    && (forall l | l in Select(env, env.rates, TRAFFIC_METRIC, FILTER) :: "mac" !in l)
  }

  ghost function Nodes(env: Env): Vector {
    NodeFrame(Raw(env, NODE_METRIC), InfraClients(Raw(env, INFRA_METRIC)))
  }

  ghost function Edges(env: Env): Vector {
    EdgeFrame(Raw(env, EDGE_METRIC), InfraClients(Raw(env, INFRA_METRIC)))
  }

  lemma NodesReconciled(env: Env)
    requires WellShaped(env)
    ensures Eval(ReconciledNodes(), env) == Ok(Vec(Nodes(env)))
  {
    var raw, infra := Raw(env, NODE_METRIC), InfraClients(Raw(env, INFRA_METRIC));
    EvalPrefer(env, NODE_METRIC);
    var w := EvalInfraAs(env, "id");
    EvalUnlessOn(env, PreferAuthority(NODE_METRIC), "id", InfraAs("id"), Preferred(raw), w);
    var v := VectorUnless(Preferred(raw), w, {"id"});
    forall l ensures l in v.Keys <==> l in Nodes(env).Keys {
      UnlessRow(Preferred(raw), w, "id", l);
    }
    SameMap(v, Nodes(env));
  }

  lemma EdgesReconciled(env: Env)
    requires WellShaped(env)
    ensures Eval(ReconciledEdges(), env) == Ok(Vec(Edges(env)))
  {
    var raw, infra := Raw(env, EDGE_METRIC), InfraClients(Raw(env, INFRA_METRIC));
    EvalPrefer(env, EDGE_METRIC);
    var a := EvalAssocAsLan(env);
    var w := EvalInfraAs(env, "target");
    var inner := UnlessOn(PreferAuthority(EDGE_METRIC), "id", AssocAsLan());
    EvalUnlessOn(env, PreferAuthority(EDGE_METRIC), "id", AssocAsLan(), Preferred(raw), a);
    var u := VectorUnless(Preferred(raw), a, {"id"});
    EvalUnlessOn(env, inner, "target", InfraAs("target"), u, w);
    var v := VectorUnless(u, w, {"target"});
    forall l ensures l in v.Keys <==> l in Edges(env).Keys {
      UnlessRow(Preferred(raw), a, "id", l);
      UnlessRow(u, w, "target", l);
    }
    SameMap(v, Edges(env));
  }
}
