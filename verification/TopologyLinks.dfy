// What reconciliation does to the clients: one link each, and the same throughput on both frames.
module TopologyLinks {
  import opened PromQL
  import opened VectorLaws
  import opened TopologyQueries
  import opened Reconciliation
  import opened Throughput
  import opened Topology

  // Wired guesses and associations point at the client they are named after.
  ghost predicate ClientLinks(raw: Vector) {
    forall l | l in raw ::
      && Get(l, "authority") in {"0", "1"}
      && ("lan:" < Get(l, "id") ==> Get(l, "target") == "client:" + Get(l, "id")[4..])
      && ("assoc:" < Get(l, "id") ==> Get(l, "target") == "client:" + Get(l, "id")[6..])
  }

  lemma PrefersSome(raw: Vector, id: string)
    requires HasValue(raw, "id", id) && forall l | l in raw :: Get(l, "authority") in {"0", "1"}
    ensures exists l | l in raw :: Prefers(raw, l) && Get(l, "id") == id
  {
    if Claimed(raw, id) {
      var k :| k in raw && Get(k, "authority") == "1" && Get(k, "id") == id;
      assert Prefers(raw, k);
    } else {
      var k :| k in raw && Get(k, "id") == id;
      assert Prefers(raw, k);
    }
  }

  lemma SupersededLan(raw: Vector, mac: string)
    requires mac != ""
    ensures Superseded(raw, "lan:" + mac) <==> HasValue(raw, "id", "assoc:" + mac)
    ensures !Superseded(raw, "assoc:" + mac)
  {
    var lan := "lan:" + mac;
    if Superseded(raw, lan) {
      var k :| k in raw && "assoc:" < Get(k, "id") && lan == "lan:" + Get(k, "id")[6..];
      assert lan[4..] == mac && ("lan:" + Get(k, "id")[6..])[4..] == Get(k, "id")[6..];
      assert Get(k, "id") == "assoc:" + mac;
    }
    if HasValue(raw, "id", "assoc:" + mac) {
      var k :| k in raw && Get(k, "id") == "assoc:" + mac;
      assert Get(k, "id")[6..] == mac;
    }
    assert ("assoc:" + mac)[0] == 'a';
  }

  // An id survives among the edges unless it is superseded or leads to a suppressed client.
  lemma LinkSurvives(raw: Vector, infra: iset<string>, id: string, target: string)
    requires forall l | l in raw :: Get(l, "authority") in {"0", "1"}
    requires forall l | l in raw && Get(l, "id") == id :: Get(l, "target") == target
    ensures HasValue(EdgeFrame(raw, infra), "id", id)
            <==> HasValue(raw, "id", id) && !Superseded(raw, id) && target !in infra
  {
    var f := EdgeFrame(raw, infra);
    if HasValue(raw, "id", id) && !Superseded(raw, id) && target !in infra {
      PrefersSome(raw, id);
      var l :| l in raw && Prefers(raw, l) && Get(l, "id") == id;
      assert l in f;
    }
  }

  // Reconciliation never isolates a client and never links it twice: a client with a wired guess
  // or an association keeps exactly one of the two, the association whenever some radio has it.
  // A router's own client entry loses both.
  lemma OneLinkPerClient(raw: Vector, infra: iset<string>, mac: string)
    requires ClientLinks(raw) && mac != ""
    ensures
      var f := EdgeFrame(raw, infra);
      var shown := "client:" + mac !in infra;
      var radio, wired := HasValue(raw, "id", "assoc:" + mac), HasValue(raw, "id", "lan:" + mac);
      && (HasValue(f, "id", "assoc:" + mac) <==> radio && shown)
      && (HasValue(f, "id", "lan:" + mac) <==> wired && !radio && shown)
  {
    SupersededLan(raw, mac);
    var lan, assoc := "lan:" + mac, "assoc:" + mac;
    assert lan[4..] == mac && assoc[6..] == mac;
    LinkSurvives(raw, infra, lan, "client:" + mac);
    LinkSurvives(raw, infra, assoc, "client:" + mac);
  }

  // Reconciling a reconciled frame changes nothing.
  lemma ReconcilingTwice(raw: Vector, infra: iset<string>)
    ensures EdgeFrame(EdgeFrame(raw, infra), infra) == EdgeFrame(raw, infra)
    ensures NodeFrame(NodeFrame(raw, infra), infra) == NodeFrame(raw, infra)
  {
    var f, g := EdgeFrame(raw, infra), NodeFrame(raw, infra);
    forall l | l in f ensures Prefers(f, l) && !Superseded(f, Get(l, "id")) {
      StillPreferred(raw, f, l);
      StillCurrent(raw, f, Get(l, "id"));
    }
    forall l | l in g ensures Prefers(g, l) {
      StillPreferred(raw, g, l);
    }
    SameMap(EdgeFrame(f, infra), f);
    SameMap(NodeFrame(g, infra), g);
  }

  lemma StillPreferred(raw: Vector, f: Vector, l: Labels)
    requires f.Keys <= raw.Keys && Prefers(raw, l)
    ensures Prefers(f, l)
  {
    if Claimed(f, Get(l, "id")) {
      var k :| k in f && Get(k, "authority") == "1" && Get(k, "id") == Get(l, "id");
      assert k in raw;
    }
  }

  lemma StillCurrent(raw: Vector, f: Vector, id: string)
    requires f.Keys <= raw.Keys
    ensures Superseded(f, id) ==> Superseded(raw, id)
  {
    if Superseded(f, id) {
      var k :| k in f && "assoc:" < Get(k, "id") && id == "lan:" + Get(k, "id")[6..];
      assert k in raw;
    }
  }

  // ---------------------------------------------------------------- values

  lemma RowReads(base: Vector, traffic: Vector, rows: Vector, row: Labels)
    requires Overlaid(base, traffic, rows) && row in rows
    ensures HasValue(base, "id", Get(row, "id"))
    ensures rows[row] == ValueOfId(traffic, Get(row, "id"))
  {
    var l := RowSource(base, traffic, rows, row);
  }

  lemma NodeIdPresent(env: Env, id: string)
    requires WellShaped(env) && HasValue(Nodes(env), "id", id)
    ensures id != ""
  {
    var l :| l in Nodes(env) && Get(l, "id") == id;
    assert l in Raw(env, NODE_METRIC);
  }

  lemma EdgeIdPresent(env: Env, id: string)
    requires WellShaped(env) && HasValue(Edges(env), "id", id)
    ensures id != ""
  {
    var l :| l in Edges(env) && Get(l, "id") == id;
    assert l in Raw(env, EDGE_METRIC);
  }

  lemma NodeValue(env: Env, nodes: Vector, edges: Vector, row: Labels)
    requires WellShaped(env) && Rendered(env, nodes, edges) && row in nodes
    ensures nodes[row] == LinkRate("client", Totals(env), Get(row, "id"))
  {
    RowReads(Nodes(env), NodeTraffic(env), nodes, row);
    NodeIdPresent(env, Get(row, "id"));
    LinkValues("client", Totals(env), Get(row, "id"));
  }

  lemma EdgeRate(totals: map<string, real>, id: string)
    requires id != ""
    ensures ValueOfId(VectorOr(PerLink("lan", totals), PerLink("assoc", totals)), id)
            == LinkRate("lan", totals, id) + LinkRate("assoc", totals, id)
  {
    assert ("lan" + ":")[0] == 'l' && ("assoc" + ":")[0] == 'a';
    TwoLinkValues("lan", "assoc", totals, id);
  }

  lemma EdgeValue(env: Env, nodes: Vector, edges: Vector, row: Labels)
    requires WellShaped(env) && Rendered(env, nodes, edges) && row in edges
    ensures edges[row] == LinkRate("lan", Totals(env), Get(row, "id")) + LinkRate("assoc", Totals(env), Get(row, "id"))
  {
    RowReads(Edges(env), EdgeTraffic(env), edges, row);
    EdgeIdPresent(env, Get(row, "id"));
    EdgeRate(Totals(env), Get(row, "id"));
  }

  // What a client's node and link should read: the sum over the counters of its devices, or 0.
  ghost function ClientTotal(totals: map<string, real>, mac: string): real {
    if mac in totals then totals[mac] else 0.0
  }

  lemma RateOfLink(prefix: string, totals: map<string, real>, mac: string)
    requires mac != ""
    ensures LinkRate(prefix, totals, prefix + ":" + mac) == ClientTotal(totals, mac)
  {
    assert (prefix + ":" + mac)[|prefix| + 1..] == mac;
  }

  lemma LinkRates(totals: map<string, real>, mac: string, id: string)
    requires mac != "" && id in {"lan:" + mac, "assoc:" + mac}
    ensures LinkRate("lan", totals, id) + LinkRate("assoc", totals, id) == ClientTotal(totals, mac)
  {
    RateOfLink("lan", totals, mac);
    RateOfLink("assoc", totals, mac);
    assert "lan" + ":" + mac == "lan:" + mac && "assoc" + ":" + mac == "assoc:" + mac;
    assert ("lan:" + mac)[0] == 'l' && ("assoc:" + mac)[0] == 'a';
  }

  lemma ClientRate(totals: map<string, real>, mac: string)
    requires mac != ""
    ensures LinkRate("client", totals, "client:" + mac) == ClientTotal(totals, mac)
  {
    RateOfLink("client", totals, mac);
    assert "client" + ":" + mac == "client:" + mac;
  }

  lemma NodeReadsClient(env: Env, nodes: Vector, edges: Vector, node: Labels, mac: string)
    requires WellShaped(env) && Rendered(env, nodes, edges) && mac != ""
    requires node in nodes && Get(node, "id") == "client:" + mac
    ensures nodes[node] == ClientTotal(Totals(env), mac)
  {
    ClientRate(Totals(env), mac);
    NodeValue(env, nodes, edges, node);
  }

  lemma LinkReadsClient(env: Env, nodes: Vector, edges: Vector, link: Labels, mac: string)
    requires WellShaped(env) && Rendered(env, nodes, edges) && mac != ""
    requires link in edges && Get(link, "id") in {"lan:" + mac, "assoc:" + mac}
    ensures edges[link] == ClientTotal(Totals(env), mac)
  {
    EdgeValue(env, nodes, edges, link);
    LinkReadsTotal(Totals(env), mac, Get(link, "id"), edges[link]);
  }

  lemma LinkReadsTotal(totals: map<string, real>, mac: string, id: string, x: real)
    requires mac != "" && id in {"lan:" + mac, "assoc:" + mac}
    requires x == LinkRate("lan", totals, id) + LinkRate("assoc", totals, id)
    ensures x == ClientTotal(totals, mac)
  {
    LinkRates(totals, mac, id);
  }

  // A client reads the same throughput on its node and on whichever link it kept.
  lemma ClientAndLinkAgree(env: Env, nodes: Vector, edges: Vector, node: Labels, link: Labels, mac: string)
    requires WellShaped(env) && Rendered(env, nodes, edges) && mac != ""
    requires node in nodes && Get(node, "id") == "client:" + mac
    requires link in edges && Get(link, "id") in {"lan:" + mac, "assoc:" + mac}
    ensures nodes[node] == edges[link] == ClientTotal(Totals(env), mac)
  {
    NodeReadsClient(env, nodes, edges, node, mac);
    LinkReadsClient(env, nodes, edges, link, mac);
  }
}
