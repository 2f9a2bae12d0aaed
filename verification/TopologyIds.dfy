// Node ids across routers: what stat 201 checks, when rendered ids are unique, and why the
// second needs more than the first.
module TopologyIds {
  import opened PromQL
  import opened VectorLaws
  import opened TopologyQueries
  import opened Reconciliation
  import opened Throughput
  import opened Topology
  import opened TopologyChecks

  const FIRST_HAND := Matcher("authority", IsEqual, "1")

  ghost function FirstHand(env: Env): Vector {
    Narrowed(env, Raw(env, NODE_METRIC), FIRST_HAND)
  }

  lemma IdOfGroup(l: Labels)
    ensures Get(GroupKey(l, ID), "id") == Get(l, "id")
  {
  }

  lemma SameIdSameGroup(a: Labels, b: Labels)
    requires Get(a, "id") == Get(b, "id")
    ensures GroupKey(a, ID) == GroupKey(b, ID)
  {
    var x, y := GroupKey(a, ID), GroupKey(b, ID);
    IdOfGroup(a);
    IdOfGroup(b);
    assert forall n | n in x :: n == "id";
    assert forall n | n in y :: n == "id";
    assert x == IdKey(Get(a, "id")) && y == IdKey(Get(b, "id"));
  }

  lemma OneMember(v: Vector, key: Labels)
    requires UniqueOn(v, ID)
    ensures |Members(v, key, ID)| <= 1
  {
    var m := Members(v, key, ID);
    if a :| a in m {
      forall b | b in m ensures b == a {
        IdOfGroup(a);
        IdOfGroup(b);
        SameOnOne(a, b, "id");
      }
      assert m.Keys == {a};
      assert |m| == |m.Keys|;
    }
  }

  lemma TwoMembers(v: Vector, a: Labels, b: Labels)
    requires a in v && b in v && a != b && Get(a, "id") == Get(b, "id")
    ensures |Members(v, GroupKey(a, ID), ID)| >= 2
  {
    SameIdSameGroup(a, b);
    var m := Members(v, GroupKey(a, ID), ID);
    assert {a, b} <= m.Keys;
    assert m.Keys == {a, b} + (m.Keys - {a, b});
    assert |m| == |m.Keys|;
  }

  lemma CollisionsCounted(v: Vector)
    ensures |Filtered(Greater, AggregateBy(CountOf, v, ID), 1.0)| == 0 <==> UniqueOn(v, ID)
  {
    var grouped := AggregateBy(CountOf, v, ID);
    var found := Filtered(Greater, grouped, 1.0);
    if UniqueOn(v, ID) {
      forall k | k in grouped ensures k !in found {
        AggregateAt(CountOf, v, ID, k);
        OneMember(v, k);
      }
      assert found == map[];
    } else {
      var a, b :| a in v && b in v && SameOn(a, b, ID) && a != b;
      SameOnOne(a, b, "id");
      var k := GroupKey(a, ID);
      assert k in GroupKeys(v, ID);
      AggregateAt(CountOf, v, ID, k);
      TwoMembers(v, a, b);
      assert k in found;
    }
  }

  lemma EvalGreater(env: Env, e: Expr, v: Vector, c: real)
    requires Eval(e, env) == Ok(Vec(v))
    ensures Eval(Binary(Greater, NoMatching, e, Number(c)), env) == Ok(Vec(Filtered(Greater, v, c)))
  {
  }

  lemma EvalCountById(env: Env, e: Expr, v: Vector)
    requires Eval(e, env) == Ok(Vec(v))
    ensures Eval(Aggregate(CountOf, ["id"], e), env) == Ok(Vec(AggregateBy(CountOf, v, ID)))
  {
    assert ToSet(["id"]) == ID;
  }

  // Stat 201 reads 0 exactly when no id is claimed first-hand by two series.
  lemma CollidingStatReadsZero(env: Env)
    ensures Reads(CollidingNodeIds(), env, 0.0) <==> UniqueOn(FirstHand(env), ID)
  {
    var first := WithAuthority(NODE_METRIC, "1");
    var grouped := AggregateBy(CountOf, FirstHand(env), ID);
    var found := Filtered(Greater, grouped, 1.0);
    EvalNarrowed(env, NODE_METRIC, FIRST_HAND);
    EvalCountById(env, first, FirstHand(env));
    EvalGreater(env, Aggregate(CountOf, ["id"], first), grouped, 1.0);
    EvalCountOrZero(env, Binary(Greater, NoMatching, Aggregate(CountOf, ["id"], first), Number(1.0)), found);
    SampleInjective(|found| as real, 0.0);
    CollisionsCounted(FirstHand(env));
  }

  // Two placeholders for one id that nobody claims and that is not suppressed.
  ghost predicate PlaceholdersUnique(env: Env) {
    forall a, b |
      && a in Raw(env, NODE_METRIC) && b in Raw(env, NODE_METRIC)
      && Get(a, "authority") == "0" && Get(b, "authority") == "0"
      && Get(a, "id") == Get(b, "id")
      && !Claimed(Raw(env, NODE_METRIC), Get(a, "id")) && !InfraId(env, Get(a, "id"))
      :: a == b
  }

  // With stat 201 at 0, rendered node ids are unique exactly when no id rests on two
  // placeholders: the preference for first-hand series does not choose between placeholders.
  lemma RenderedIdsUnique(env: Env)
    requires WellShaped(env) && Reads(CollidingNodeIds(), env, 0.0)
    ensures UniqueOn(Nodes(env), ID) <==> PlaceholdersUnique(env)
  {
    CollidingStatReadsZero(env);
    if PlaceholdersUnique(env) {
      forall a, b | a in Nodes(env) && b in Nodes(env) && SameOn(a, b, ID) ensures a == b {
        SameOnOne(a, b, "id");
        SameKind(env, a, b);
      }
    }
    if UniqueOn(Nodes(env), ID) {
      forall a, b |
        && a in Raw(env, NODE_METRIC) && b in Raw(env, NODE_METRIC)
        && Get(a, "authority") == "0" && Get(b, "authority") == "0"
        && Get(a, "id") == Get(b, "id")
        && !Claimed(Raw(env, NODE_METRIC), Get(a, "id")) && !InfraId(env, Get(a, "id"))
        ensures a == b
      {
        SameOnOne(a, b, "id");
        assert a in Nodes(env) && b in Nodes(env);
      }
    }
  }

  // A placeholder never stands beside a first-hand series for its id.
  lemma BothFirstHand(env: Env, a: Labels, b: Labels)
    requires a in Nodes(env) && b in Nodes(env) && Get(a, "id") == Get(b, "id")
    requires Get(a, "authority") == "1" || Get(b, "authority") == "1"
    ensures Get(a, "authority") == "1" && Get(b, "authority") == "1"
  {
    assert Claimed(Raw(env, NODE_METRIC), Get(a, "id"));
  }

  lemma SameKind(env: Env, a: Labels, b: Labels)
    requires a in Nodes(env) && b in Nodes(env) && Get(a, "id") == Get(b, "id")
    requires UniqueOn(FirstHand(env), ID) && PlaceholdersUnique(env)
    ensures a == b
  {
    if Get(a, "authority") == "1" || Get(b, "authority") == "1" {
      BothFirstHand(env, a, b);
      assert a in FirstHand(env) && b in FirstHand(env);
      SameOnOne(a, b, "id");
    }
  }

  lemma RowsUniqueIfBase(base: Vector, traffic: Vector, rows: Vector)
    requires Overlaid(base, traffic, rows) && UniqueOn(base, ID)
    ensures UniqueOn(rows, ID)
  {
    forall x, y | x in rows && y in rows && SameOn(x, y, ID) ensures x == y {
      var a := RowSource(base, traffic, rows, x);
      var b := RowSource(base, traffic, rows, y);
      SameOnOne(x, y, "id");
      SameOnOne(a, b, "id");
    }
  }

  lemma BaseUniqueIfRows(base: Vector, traffic: Vector, rows: Vector)
    requires Overlaid(base, traffic, rows) && UniqueOn(rows, ID) && Injective(DropMetricName, base)
    ensures UniqueOn(base, ID)
  {
    forall a, b | a in base && b in base && SameOn(a, b, ID) ensures a == b {
      var x := RowOf(base, traffic, rows, a);
      var y := RowOf(base, traffic, rows, b);
      SameOnOne(a, b, "id");
      SameOnOne(x, y, "id");
      var name := Names(DropMetricName, base);
      assert name[a] == x && name[b] == y;
    }
  }

  lemma RowsKeepIds(env: Env, nodes: Vector, edges: Vector)
    requires Rendered(env, nodes, edges)
    ensures UniqueOn(nodes, ID) <==> UniqueOn(Nodes(env), ID)
  {
    OneMetricInjective(env, NODE_METRIC, Nodes(env));
    if UniqueOn(Nodes(env), ID) {
      RowsUniqueIfBase(Nodes(env), NodeTraffic(env), nodes);
    }
    if UniqueOn(nodes, ID) {
      BaseUniqueIfRows(Nodes(env), NodeTraffic(env), nodes);
    }
  }

  // The gateway's exporter is down and two access points still name it.
  function Stand(router: string): Labels {
    map["__name__" := NODE_METRIC, "job" := "openwrt", "router" := router,
        "id" := "router:192.168.0.1", "authority" := "0"]
  }

  ghost function GatewayDown(): Env {
    Env(map[Stand("ap1") := 1.0, Stand("ap2") := 1.0], map[], r => true)
  }

  lemma GatewayDownRaw()
    ensures Raw(GatewayDown(), NODE_METRIC) == GatewayDown().samples
    ensures forall metric | metric != NODE_METRIC :: Raw(GatewayDown(), metric) == map[]
  {
    var env := GatewayDown();
    forall l | l in env.samples ensures Selects(env, NODE_METRIC, FILTER, l) && Get(l, METRIC_NAME) == NODE_METRIC {
      assert l == Stand("ap1") || l == Stand("ap2");
      assert Satisfies(env, FILTER[0], l) && Satisfies(env, FILTER[1], l);
    }
  }

  lemma GatewayDownShape()
    ensures WellShaped(GatewayDown()) && DeviceInfoUnique(GatewayDown()) && EndpointsKnown(GatewayDown())
    ensures FirstHand(GatewayDown()) == map[]
  {
    var env := GatewayDown();
    GatewayDownRaw();
    forall l | l in Raw(env, NODE_METRIC)
      ensures Get(l, "id") != "" && Get(l, "authority") == "0" && "source" !in l && "target" !in l
    {
      assert l == Stand("ap1") || l == Stand("ap2");
    }
  }

  lemma GatewayDownCollides()
    ensures !PlaceholdersUnique(GatewayDown())
  {
    var env := GatewayDown();
    GatewayDownRaw();
    var a, b := Stand("ap1"), Stand("ap2");
    assert a["router"] != b["router"];
    forall l | l in Raw(env, NODE_METRIC) ensures Get(l, "authority") == "0" {
      assert l == a || l == b;
    }
    assert !Claimed(Raw(env, NODE_METRIC), Get(a, "id"));
    assert a in Raw(env, NODE_METRIC) && b in Raw(env, NODE_METRIC);
  }

  // Stat 201 at 0 does not keep two placeholders apart.
  lemma PlaceholdersCollide()
    ensures WellShaped(GatewayDown()) && DeviceInfoUnique(GatewayDown()) && EndpointsKnown(GatewayDown())
    ensures Reads(CollidingNodeIds(), GatewayDown(), 0.0)
    ensures !UniqueOn(Nodes(GatewayDown()), ID)
  {
    GatewayDownShape();
    CollidingStatReadsZero(GatewayDown());
    GatewayDownCollides();
    RenderedIdsUnique(GatewayDown());
  }
}
