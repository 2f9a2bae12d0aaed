// The node graph of local hosts and external networks: two queries over the heaviest
// host-to-network pairs.
module FlowGraph {
  import opened SetSizes
  import opened PromQL
  import opened VectorLaws

  // One row of the `pairs` subquery: grouped by host, AS number (as text) and AS name.
  datatype Pair = Pair(host: string, asn: string, asName: string, bytes: real, flows: nat)

  // The node and edge frames, with their main and secondary stats.
  datatype NodeRow = NodeRow(id: string, title: string, subtitle: string, bytes: real, flows: real)

  datatype EdgeRow = EdgeRow(id: string, source: string, target: string, bytes: real, flows: real)

  // ---------------------------------------------------------------- GROUP BY with sum

  function At<K(==)>(m: map<K, real>, k: K): real {
    if k in m then m[k] else 0.0
  }

  function Add<K(==)>(m: map<K, real>, key: K, x: real): map<K, real> {
    m[key := At(m, key) + x]
  }

  function GroupSum<K(==)>(keys: seq<K>, values: seq<real>): map<K, real>
    requires |keys| == |values|
  {
    if keys == [] then map[] else Add(GroupSum(keys[1..], values[1..]), keys[0], values[0])
  }

  function Total(values: seq<real>): real {
    if values == [] then 0.0 else values[0] + Total(values[1..])
  }

  lemma {:induction false} GroupedKeys<K>(keys: seq<K>, values: seq<real>)
    requires |keys| == |values|
    ensures forall k :: k in GroupSum(keys, values) <==> k in keys
    decreases |keys|
  {
    if keys != [] {
      GroupedKeys(keys[1..], values[1..]);
      assert keys == [keys[0]] + keys[1..];
    }
  }

  lemma AddTotal<K(!new)>(m: map<K, real>, key: K, x: real)
    ensures Sum(Add(m, key, x)) == Sum(m) + x
  {
    var more := Add(m, key, x);
    SumPick(more, key);
    assert more - {key} == m - {key};
    if key in m {
      SumPick(m, key);
    } else {
      assert m - {key} == m;
    }
  }

  // Grouping loses nothing and invents nothing.
  lemma {:induction false} GroupTotal<K(!new)>(keys: seq<K>, values: seq<real>)
    requires |keys| == |values|
    ensures Sum(GroupSum(keys, values)) == Total(values)
    decreases |keys|
  {
    if keys != [] {
      GroupTotal(keys[1..], values[1..]);
      AddTotal(GroupSum(keys[1..], values[1..]), keys[0], values[0]);
    }
  }

  lemma {:induction false} GroupSize<K>(keys: seq<K>, values: seq<real>)
    requires |keys| == |values|
    ensures |GroupSum(keys, values)| <= |keys|
    decreases |keys|
  {
    if keys != [] {
      GroupSize(keys[1..], values[1..]);
      var m := GroupSum(keys[1..], values[1..]);
      var more := Add(m, keys[0], values[0]);
      assert more.Keys == m.Keys + {keys[0]};
      assert |more| == |more.Keys| && |m| == |m.Keys|;
    }
  }

  // ---------------------------------------------------------------- the frames

  function Hosts(pairs: seq<Pair>): seq<string> {
    seq(|pairs|, i requires 0 <= i < |pairs| => pairs[i].host)
  }

  function Networks(pairs: seq<Pair>): seq<(string, string)> {
    seq(|pairs|, i requires 0 <= i < |pairs| => (pairs[i].asn, pairs[i].asName))
  }

  function Bytes(pairs: seq<Pair>): seq<real> {
    seq(|pairs|, i requires 0 <= i < |pairs| => pairs[i].bytes)
  }

  function FlowCounts(pairs: seq<Pair>): seq<real> {
    seq(|pairs|, i requires 0 <= i < |pairs| => pairs[i].flows as real)
  }

  function HostTotals(pairs: seq<Pair>): map<string, real> {
    GroupSum(Hosts(pairs), Bytes(pairs))
  }

  function HostFlows(pairs: seq<Pair>): map<string, real> {
    GroupSum(Hosts(pairs), FlowCounts(pairs))
  }

  function NetworkTotals(pairs: seq<Pair>): map<(string, string), real> {
    GroupSum(Networks(pairs), Bytes(pairs))
  }

  function NetworkFlows(pairs: seq<Pair>): map<(string, string), real> {
    GroupSum(Networks(pairs), FlowCounts(pairs))
  }

  function HostRow(pairs: seq<Pair>, host: string): NodeRow {
    NodeRow("h:" + host, host, "local host", At(HostTotals(pairs), host), At(HostFlows(pairs), host))
  }

  function NetworkRow(pairs: seq<Pair>, network: (string, string)): NodeRow {
    NodeRow("a:" + network.0, network.1, "AS" + network.0, At(NetworkTotals(pairs), network), At(NetworkFlows(pairs), network))
  }

  function HostRows(pairs: seq<Pair>): set<NodeRow> {
    set host | host in HostTotals(pairs) :: HostRow(pairs, host)
  }

  function NetworkRows(pairs: seq<Pair>): set<NodeRow> {
    set n | n in NetworkTotals(pairs) :: NetworkRow(pairs, n)
  }

  // The two SELECTs never produce the same row, so UNION ALL is a union.
  function NodeFrame(pairs: seq<Pair>): set<NodeRow> {
    HostRows(pairs) + NetworkRows(pairs)
  }

  function EdgeOf(p: Pair): EdgeRow {
    EdgeRow(p.host + ">" + p.asn, "h:" + p.host, "a:" + p.asn, p.bytes, p.flows as real)
  }

  function EdgeFrame(pairs: seq<Pair>): seq<EdgeRow> {
    seq(|pairs|, i requires 0 <= i < |pairs| => EdgeOf(pairs[i]))
  }

  ghost predicate HasNode(nodes: set<NodeRow>, id: string) {
    exists n | n in nodes :: n.id == id
  }

  // ---------------------------------------------------------------- closure

  lemma NodeKind(pairs: seq<Pair>, n: NodeRow)
    requires n in NodeFrame(pairs)
    ensures |n.id| >= 2 && (n.id[0] == 'h' <==> n in HostRows(pairs)) && (n.id[0] == 'a' <==> n in NetworkRows(pairs))
  {
    if n in HostRows(pairs) {
      var h :| h in HostTotals(pairs) && n == HostRow(pairs, h);
    } else {
      var w :| w in NetworkTotals(pairs) && n == NetworkRow(pairs, w);
    }
    if n in NetworkRows(pairs) {
      var w :| w in NetworkTotals(pairs) && n == NetworkRow(pairs, w);
    }
  }

  lemma HostShown(pairs: seq<Pair>, host: string)
    ensures HasNode(NodeFrame(pairs), "h:" + host) <==> host in Hosts(pairs)
  {
    GroupedKeys(Hosts(pairs), Bytes(pairs));
    var id := "h:" + host;
    if host in Hosts(pairs) {
      assert HostRow(pairs, host) in NodeFrame(pairs);
    }
    if HasNode(NodeFrame(pairs), id) {
      var n :| n in NodeFrame(pairs) && n.id == id;
      NodeKind(pairs, n);
      var h :| h in HostTotals(pairs) && n == HostRow(pairs, h);
      assert id[2..] == host && n.id[2..] == h;
    }
  }

  lemma NetworkShown(pairs: seq<Pair>, asn: string)
    ensures HasNode(NodeFrame(pairs), "a:" + asn) <==> exists p | p in pairs :: p.asn == asn
  {
    GroupedKeys(Networks(pairs), Bytes(pairs));
    var id := "a:" + asn;
    if p :| p in pairs && p.asn == asn {
      var i :| 0 <= i < |pairs| && pairs[i] == p;
      assert Networks(pairs)[i] in Networks(pairs);
      assert NetworkRow(pairs, Networks(pairs)[i]) in NodeFrame(pairs);
    }
    if HasNode(NodeFrame(pairs), id) {
      var n :| n in NodeFrame(pairs) && n.id == id;
      NodeKind(pairs, n);
      var w :| w in NetworkTotals(pairs) && n == NetworkRow(pairs, w);
      assert id[2..] == asn && n.id[2..] == w.0;
      var i := NetworkOfPair(pairs, w);
      assert pairs[i] in pairs;
    }
  }

  // Every edge of one choice of pairs finds both its nodes among those of another.
  ghost predicate Resolves(edges: seq<Pair>, nodes: seq<Pair>) {
    forall e | e in EdgeFrame(edges) :: HasNode(NodeFrame(nodes), e.source) && HasNode(NodeFrame(nodes), e.target)
  }

  lemma ResolvesByPairs(edges: seq<Pair>, nodes: seq<Pair>)
    ensures Resolves(edges, nodes)
       <==> forall p | p in edges :: p.host in Hosts(nodes) && exists q | q in nodes :: q.asn == p.asn
  {
    forall p | p in edges
      ensures EdgeOf(p) in EdgeFrame(edges)
      ensures HasNode(NodeFrame(nodes), EdgeOf(p).source) <==> p.host in Hosts(nodes)
      ensures HasNode(NodeFrame(nodes), EdgeOf(p).target) <==> exists q | q in nodes :: q.asn == p.asn
    {
      var i :| 0 <= i < |edges| && edges[i] == p;
      assert EdgeFrame(edges)[i] == EdgeOf(p);
      HostShown(nodes, p.host);
      NetworkShown(nodes, p.asn);
    }
    forall e | e in EdgeFrame(edges) ensures exists p | p in edges :: EdgeOf(p) == e {
      var i :| 0 <= i < |edges| && EdgeFrame(edges)[i] == e;
      assert edges[i] in edges;
    }
  }

  // Frames over one choice of pairs never dangle.
  lemma GraphClosed(pairs: seq<Pair>)
    ensures Resolves(pairs, pairs)
  {
    ResolvesByPairs(pairs, pairs);
    forall p | p in pairs ensures p.host in Hosts(pairs) {
      var i :| 0 <= i < |pairs| && pairs[i] == p;
      assert Hosts(pairs)[i] == p.host;
    }
  }

  // ---------------------------------------------------------------- unique ids

  // Grouping by host, AS number and name makes the pairs distinct on these.
  ghost predicate Grouped(pairs: seq<Pair>) {
    forall i, j | 0 <= i < j < |pairs| ::
      pairs[i].host != pairs[j].host || pairs[i].asn != pairs[j].asn || pairs[i].asName != pairs[j].asName
  }

  // The dictionary gives each AS number one name, and numbers print as digits.
  ghost predicate Named(pairs: seq<Pair>) {
    && (forall p | p in pairs :: forall c | c in p.asn :: '0' <= c <= '9')
    && (forall i, j | 0 <= i < |pairs| && 0 <= j < |pairs| && pairs[i].asn == pairs[j].asn :: pairs[i].asName == pairs[j].asName)
  }

  ghost predicate UniqueNodeIds(nodes: set<NodeRow>) {
    forall m, n | m in nodes && n in nodes && m.id == n.id :: m == n
  }

  lemma NetworkOfPair(pairs: seq<Pair>, n: (string, string)) returns (i: nat)
    requires n in NetworkTotals(pairs)
    ensures i < |pairs| && (pairs[i].asn, pairs[i].asName) == n
  {
    GroupedKeys(Networks(pairs), Bytes(pairs));
    i :| 0 <= i < |pairs| && Networks(pairs)[i] == n;
  }

  lemma SameHostRow(pairs: seq<Pair>, m: NodeRow, n: NodeRow)
    requires m in HostRows(pairs) && n in HostRows(pairs) && m.id == n.id
    ensures m == n
  {
    var h :| h in HostTotals(pairs) && m == HostRow(pairs, h);
    var k :| k in HostTotals(pairs) && n == HostRow(pairs, k);
    assert m.id[2..] == h && n.id[2..] == k;
  }

  lemma SameNetworkRow(pairs: seq<Pair>, m: NodeRow, n: NodeRow)
    requires Named(pairs) && m in NetworkRows(pairs) && n in NetworkRows(pairs) && m.id == n.id
    ensures m == n
  {
    var v :| v in NetworkTotals(pairs) && m == NetworkRow(pairs, v);
    var w :| w in NetworkTotals(pairs) && n == NetworkRow(pairs, w);
    assert m.id[2..] == v.0 && n.id[2..] == w.0;
    var i := NetworkOfPair(pairs, v);
    var j := NetworkOfPair(pairs, w);
  }

  lemma NodeIdsUnique(pairs: seq<Pair>)
    requires Named(pairs)
    ensures UniqueNodeIds(NodeFrame(pairs))
  {
    forall m, n | m in NodeFrame(pairs) && n in NodeFrame(pairs) && m.id == n.id ensures m == n {
      NodeKind(pairs, m);
      NodeKind(pairs, n);
      if m in HostRows(pairs) {
        SameHostRow(pairs, m, n);
      } else {
        SameNetworkRow(pairs, m, n);
      }
    }
  }

  lemma LastSeparator(h: string, a: string, k: string, b: string)
    requires h + ">" + a == k + ">" + b && forall c | c in a :: c != '>'
    ensures |k| <= |h|
  {
    var s := h + ">" + a;
    forall j | |h| < j < |s| ensures s[j] != '>' {
      assert s[j] == a[j - |h| - 1] && a[j - |h| - 1] in a;
    }
    assert (k + ">" + b)[|k|] == '>';
  }

  // Splitting at the last '>' recovers host and AS number from an edge id.
  lemma EdgeIdInjective(h: string, a: string, k: string, b: string)
    requires h + ">" + a == k + ">" + b
    requires (forall c | c in a :: c != '>') && (forall c | c in b :: c != '>')
    ensures h == k && a == b
  {
    var s := h + ">" + a;
    LastSeparator(h, a, k, b);
    LastSeparator(k, b, h, a);
    assert s[..|h|] == h && s[..|k|] == k;
    assert s[|h| + 1..] == a && s[|k| + 1..] == b;
  }

  lemma EdgeIdsUnique(pairs: seq<Pair>)
    requires Grouped(pairs) && Named(pairs)
    ensures forall i, j | 0 <= i < j < |pairs| :: EdgeFrame(pairs)[i].id != EdgeFrame(pairs)[j].id
  {
    forall i, j | 0 <= i < j < |pairs| ensures EdgeFrame(pairs)[i].id != EdgeFrame(pairs)[j].id {
      DistinctEdgeIds(pairs, i, j);
    }
  }

  lemma DistinctEdgeIds(pairs: seq<Pair>, i: nat, j: nat)
    requires Grouped(pairs) && Named(pairs) && i < j < |pairs|
    ensures EdgeOf(pairs[i]).id != EdgeOf(pairs[j]).id
  {
    var p, q := pairs[i], pairs[j];
    assert p in pairs && q in pairs;
    if p.host + ">" + p.asn == q.host + ">" + q.asn {
      EdgeIdInjective(p.host, p.asn, q.host, q.asn);
      assert false;
    }
  }

  // ---------------------------------------------------------------- size and totals

  lemma ImageSize<K(!new)>(m: map<K, real>, rows: set<NodeRow>, row: map<K, NodeRow>)
    requires row.Keys == m.Keys && rows == row.Values
    ensures |rows| <= |m|
  {
    ValuesSize(row);
    assert |m| == |m.Keys|;
  }

  lemma {:induction false} ValuesSize<K(!new)>(row: map<K, NodeRow>)
    ensures |row.Values| <= |row.Keys|
    decreases |row|
  {
    if k :| k in row {
      var rest := row - {k};
      ValuesSize(rest);
      forall r | r in row.Values ensures r in rest.Values + {row[k]} {
        var j :| j in row && row[j] == r;
        assert j != k ==> rest[j] == r;
      }
      assert row.Keys == rest.Keys + {k};
      SubsetSize(row.Values, rest.Values + {row[k]});
    } else {
      assert row.Values == {};
    }
  }

  // At most two nodes per pair.
  lemma NodeCount(pairs: seq<Pair>)
    ensures |NodeFrame(pairs)| <= 2 * |pairs|
  {
    var hosts, networks := HostTotals(pairs), NetworkTotals(pairs);
    GroupSize(Hosts(pairs), Bytes(pairs));
    GroupSize(Networks(pairs), Bytes(pairs));
    var hostRow := map h | h in hosts :: HostRow(pairs, h);
    var networkRow := map n | n in networks :: NetworkRow(pairs, n);
    forall r ensures r in hostRow.Values <==> r in HostRows(pairs) {
      if r in HostRows(pairs) {
        var h :| h in hosts && r == HostRow(pairs, h);
        assert hostRow[h] == r;
      }
    }
    forall r ensures r in networkRow.Values <==> r in NetworkRows(pairs) {
      if r in NetworkRows(pairs) {
        var n :| n in networks && r == NetworkRow(pairs, n);
        assert networkRow[n] == r;
      }
    }
    ImageSize(hosts, HostRows(pairs), hostRow);
    ImageSize(networks, NetworkRows(pairs), networkRow);
    SubsetSize(NodeFrame(pairs), HostRows(pairs) + NetworkRows(pairs));
    UnionSize(HostRows(pairs), NetworkRows(pairs));
  }

  // ---------------------------------------------------------------- the rows carry what their edges carry

  // The bytes and the flows of the edges that leave a node, and of those that reach it.
  function Outgoing(edges: seq<EdgeRow>, id: string): (real, real) {
    if edges == [] then (0.0, 0.0)
    else
      var (bytes, flows) := Outgoing(edges[1..], id);
      if edges[0].source == id then (edges[0].bytes + bytes, edges[0].flows + flows) else (bytes, flows)
  }

  function Incoming(edges: seq<EdgeRow>, id: string): (real, real) {
    if edges == [] then (0.0, 0.0)
    else
      var (bytes, flows) := Incoming(edges[1..], id);
      if edges[0].target == id then (edges[0].bytes + bytes, edges[0].flows + flows) else (bytes, flows)
  }

  lemma SameTail(tag: string, a: string, b: string)
    ensures tag + a == tag + b <==> a == b
  {
    assert (tag + a)[|tag|..] == a && (tag + b)[|tag|..] == b;
  }

  lemma RestOfFrames(pairs: seq<Pair>)
    requires pairs != []
    ensures Hosts(pairs)[1..] == Hosts(pairs[1..]) && Networks(pairs)[1..] == Networks(pairs[1..])
    ensures Bytes(pairs)[1..] == Bytes(pairs[1..]) && FlowCounts(pairs)[1..] == FlowCounts(pairs[1..])
    ensures EdgeFrame(pairs)[1..] == EdgeFrame(pairs[1..])
  {
  }

  lemma {:induction false} HostStats(pairs: seq<Pair>, host: string)
    ensures (At(HostTotals(pairs), host), At(HostFlows(pairs), host)) == Outgoing(EdgeFrame(pairs), "h:" + host)
    decreases |pairs|
  {
    if pairs != [] {
      RestOfFrames(pairs);
      HostStats(pairs[1..], host);
      SameTail("h:", pairs[0].host, host);
    }
  }

  lemma {:induction false} NetworkStats(pairs: seq<Pair>, network: (string, string))
    requires forall p | p in pairs && p.asn == network.0 :: p.asName == network.1
    ensures (At(NetworkTotals(pairs), network), At(NetworkFlows(pairs), network)) == Incoming(EdgeFrame(pairs), "a:" + network.0)
    decreases |pairs|
  {
    if pairs != [] {
      RestOfFrames(pairs);
      assert pairs[0] in pairs && forall p | p in pairs[1..] :: p in pairs;
      NetworkStats(pairs[1..], network);
      SameTail("a:", pairs[0].asn, network.0);
    }
  }

  ghost predicate IsHostRow(n: NodeRow, edges: seq<EdgeRow>, p: Pair) {
    n.id == "h:" + p.host && n.title == p.host && n.subtitle == "local host" && (n.bytes, n.flows) == Outgoing(edges, n.id)
  }

  ghost predicate IsNetworkRow(n: NodeRow, edges: seq<EdgeRow>, p: Pair) {
    n.id == "a:" + p.asn && n.title == p.asName && n.subtitle == "AS" + p.asn && (n.bytes, n.flows) == Incoming(edges, n.id)
  }

  lemma HostRowIs(pairs: seq<Pair>, n: NodeRow)
    requires n in HostRows(pairs)
    ensures exists p | p in pairs :: IsHostRow(n, EdgeFrame(pairs), p)
  {
    var h :| h in HostTotals(pairs) && n == HostRow(pairs, h);
    GroupedKeys(Hosts(pairs), Bytes(pairs));
    var i :| 0 <= i < |pairs| && Hosts(pairs)[i] == h;
    HostStats(pairs, h);
    assert pairs[i] in pairs;
  }

  lemma NetworkRowIs(pairs: seq<Pair>, n: NodeRow)
    requires Named(pairs) && n in NetworkRows(pairs)
    ensures exists p | p in pairs :: IsNetworkRow(n, EdgeFrame(pairs), p)
  {
    var w :| w in NetworkTotals(pairs) && n == NetworkRow(pairs, w);
    var i := NetworkOfPair(pairs, w);
    forall p | p in pairs && p.asn == w.0 ensures p.asName == w.1 {
      var j :| 0 <= j < |pairs| && pairs[j] == p;
    }
    NetworkStats(pairs, w);
    assert pairs[i] in pairs;
  }

  // Every node row is about the host or the network of some pair, and shows exactly the bytes and
  // flows of the edges drawn at it.
  lemma RowsCarryEdges(pairs: seq<Pair>, n: NodeRow)
    requires Named(pairs) && n in NodeFrame(pairs)
    ensures exists p | p in pairs :: IsHostRow(n, EdgeFrame(pairs), p) || IsNetworkRow(n, EdgeFrame(pairs), p)
  {
    if n in HostRows(pairs) {
      HostRowIs(pairs, n);
    } else {
      NetworkRowIs(pairs, n);
    }
  }

  // The bytes of the rows whose ids begin with the tag.
  ghost function TaggedBytes(rows: set<NodeRow>, tag: string): map<NodeRow, real> {
    map n | n in rows && tag <= n.id :: n.bytes
  }

  lemma TaggedHosts(pairs: seq<Pair>)
    ensures Sum(TaggedBytes(NodeFrame(pairs), "h:")) == Sum(HostTotals(pairs))
  {
    var rows := TaggedBytes(NodeFrame(pairs), "h:");
    var name := map h | h in HostTotals(pairs) :: HostRow(pairs, h);
    forall g, h | g in name && h in name && name[g] == name[h] ensures g == h {
      SameTail("h:", g, h);
    }
    forall n ensures n in rows <==> n in name.Values {
      if n in rows {
        NodeKind(pairs, n);
        var h :| h in HostTotals(pairs) && n == HostRow(pairs, h);
        assert name[h] == n;
      }
    }
    SumRenamed(HostTotals(pairs), rows, name);
  }

  lemma TaggedNetworks(pairs: seq<Pair>)
    ensures Sum(TaggedBytes(NodeFrame(pairs), "a:")) == Sum(NetworkTotals(pairs))
  {
    var rows := TaggedBytes(NodeFrame(pairs), "a:");
    var name := map w | w in NetworkTotals(pairs) :: NetworkRow(pairs, w);
    forall v, w | v in name && w in name && name[v] == name[w] ensures v == w {
      SameTail("a:", v.0, w.0);
    }
    forall n ensures n in rows <==> n in name.Values {
      if n in rows {
        NodeKind(pairs, n);
        var w :| w in NetworkTotals(pairs) && n == NetworkRow(pairs, w);
        assert name[w] == n;
      }
    }
    SumRenamed(NetworkTotals(pairs), rows, name);
  }

  function EdgeBytes(edges: seq<EdgeRow>): real {
    if edges == [] then 0.0 else edges[0].bytes + EdgeBytes(edges[1..])
  }

  lemma {:induction false} EdgeTotal(pairs: seq<Pair>)
    ensures EdgeBytes(EdgeFrame(pairs)) == Total(Bytes(pairs))
    decreases |pairs|
  {
    if pairs != [] {
      RestOfFrames(pairs);
      EdgeTotal(pairs[1..]);
    }
  }

  // Host rows, network rows and edges all show the same number of bytes.
  lemma BytesAgree(pairs: seq<Pair>)
    ensures Sum(TaggedBytes(NodeFrame(pairs), "h:")) == Sum(TaggedBytes(NodeFrame(pairs), "a:"))
         == EdgeBytes(EdgeFrame(pairs)) == Total(Bytes(pairs))
  {
    TaggedHosts(pairs);
    TaggedNetworks(pairs);
    EdgeTotal(pairs);
    GroupTotal(Hosts(pairs), Bytes(pairs));
    GroupTotal(Networks(pairs), Bytes(pairs));
  }

  // ---------------------------------------------------------------- the heaviest pairs

  // ORDER BY bytes DESC LIMIT n, with ties broken any way the server likes.
  ghost predicate Heaviest(chosen: seq<Pair>, all: set<Pair>, n: nat) {
    && (forall p | p in chosen :: p in all)
    && (forall i, j | 0 <= i < j < |chosen| :: chosen[i] != chosen[j])
    && |chosen| == (if |all| <= n then |all| else n)
    && (forall p, q | p in chosen && q in all && q !in chosen :: q.bytes <= p.bytes)
  }

  ghost function Elements<T>(s: seq<T>): set<T> {
    set p | p in s
  }

  lemma {:induction false} ElementCount<T>(s: seq<T>)
    requires forall i, j | 0 <= i < j < |s| :: s[i] != s[j]
    ensures |Elements(s)| == |s|
    decreases |s|
  {
    if s != [] {
      var last, rest := s[|s| - 1], s[..|s| - 1];
      ElementCount(rest);
      assert Elements(s) == Elements(rest) + {last};
      assert last !in rest;
    }
  }
}
