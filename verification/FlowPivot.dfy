// ClickHouse pivots: one sumIf column per label, where labels come from ordered first-match
// expressions, and numeric buckets for packet sizes.
module FlowPivot {

  datatype Flow = Flow(
    time: int, srcInternal: bool, dstInternal: bool, flags: bv16, proto: nat, srcPort: nat, dstPort: nat,
    packets: nat, packetSize: nat, samplingRate: nat)

  // ---------------------------------------------------------------- aggregation

  function Total(weights: seq<nat>): nat {
    if weights == [] then 0 else weights[0] + Total(weights[1..])
  }

  // sumIf(weight, label = name)
  function SumIf<L(==)>(labels: seq<L>, weights: seq<nat>, name: L): nat
    requires |labels| == |weights|
  {
    if labels == [] then 0
    else (if labels[0] == name then weights[0] else 0) + SumIf(labels[1..], weights[1..], name)
  }

  // One column per name, as pivot_columns lays them out.
  function Pivot<L(==)>(labels: seq<L>, weights: seq<nat>, names: seq<L>): (columns: seq<nat>)
    requires |labels| == |weights|
    ensures |columns| == |names|
  {
    if names == [] then [] else [SumIf(labels, weights, names[0])] + Pivot(labels, weights, names[1..])
  }

  ghost predicate NoRepeats<L>(names: seq<L>) {
    forall i, j | 0 <= i < j < |names| :: names[i] != names[j]
  }

  // A single flow lands in exactly one column.
  function Shares<L(==)>(own: L, weight: nat, names: seq<L>): (columns: seq<nat>)
    ensures |columns| == |names|
    ensures forall i | 0 <= i < |names| :: columns[i] == if names[i] == own then weight else 0
  {
    if names == [] then [] else [if names[0] == own then weight else 0] + Shares(own, weight, names[1..])
  }

  lemma RestNoRepeats<L>(names: seq<L>)
    requires names != [] && NoRepeats(names)
    ensures NoRepeats(names[1..]) && names[0] !in names[1..]
  {
    var rest := names[1..];
    forall i, j | 0 <= i < j < |rest| ensures rest[i] != rest[j] {
      assert rest[i] == names[i + 1] && rest[j] == names[j + 1];
    }
    forall j | 0 <= j < |rest| ensures rest[j] != names[0] {
      assert rest[j] == names[j + 1];
    }
  }

  lemma {:induction false} SharesTotal<L>(own: L, weight: nat, names: seq<L>)
    requires NoRepeats(names)
    ensures Total(Shares(own, weight, names)) == if own in names then weight else 0
    decreases |names|
  {
    if names != [] {
      var rest := names[1..];
      RestNoRepeats(names);
      SharesTotal(own, weight, rest);
      assert Shares(own, weight, names)[1..] == Shares(own, weight, rest);
      assert names == [names[0]] + rest;
    }
  }

  lemma {:induction false} PivotCons<L>(labels: seq<L>, weights: seq<nat>, names: seq<L>)
    requires |labels| == |weights| > 0
    ensures Total(Pivot(labels, weights, names)) == Total(Shares(labels[0], weights[0], names)) + Total(Pivot(labels[1..], weights[1..], names))
    decreases |names|
  {
    if names != [] {
      PivotCons(labels, weights, names[1..]);
      assert Pivot(labels, weights, names)[1..] == Pivot(labels, weights, names[1..]);
      assert Shares(labels[0], weights[0], names)[1..] == Shares(labels[0], weights[0], names[1..]);
      assert Pivot(labels[1..], weights[1..], names)[1..] == Pivot(labels[1..], weights[1..], names[1..]);
    }
  }

  lemma {:induction false} EmptyPivot<L>(names: seq<L>)
    ensures Total(Pivot<L>([], [], names)) == 0
    decreases |names|
  {
    if names != [] {
      EmptyPivot(names[1..]);
      assert Pivot<L>([], [], names)[1..] == Pivot<L>([], [], names[1..]);
    }
  }

  // The columns sum to the plain total, for every label expression whose values the names list
  // once each.
  lemma {:induction false} PivotConserves<L>(labels: seq<L>, weights: seq<nat>, names: seq<L>)
    requires |labels| == |weights| && NoRepeats(names)
    requires forall l | l in labels :: l in names
    ensures Total(Pivot(labels, weights, names)) == Total(weights)
    decreases |labels|
  {
    if labels == [] {
      EmptyPivot(names);
    } else {
      PivotCons(labels, weights, names);
      assert labels[0] in labels && forall l | l in labels[1..] :: l in labels;
      SharesTotal(labels[0], weights[0], names);
      PivotConserves(labels[1..], weights[1..], names);
    }
  }

  // ---------------------------------------------------------------- the label expressions

  const COMPLETED := "Completed - opened and closed"
  const RESET := "RST - reset or refused"
  const UNANSWERED := "SYN, never answered"
  const OPEN := "Open - handshake, still running"
  const DATA_ONLY := "Established - data only"
  const CLOSED_ONLY := "Closed - handshake not captured"
  const OTHER := "Other"

  function ShapeOf(flags: bv16): string {
    if flags & 2 != 0 && flags & 16 == 0 then UNANSWERED
    else if flags & 4 != 0 then RESET
    else if flags & 1 != 0 && flags & 2 != 0 then COMPLETED
    else if flags & 1 != 0 then CLOSED_ONLY
    else if flags & 2 != 0 then OPEN
    else if flags & 16 != 0 then DATA_ONLY
    else OTHER
  }

  const TCP_SHAPES: seq<string> := [COMPLETED, RESET, UNANSWERED, OPEN, DATA_ONLY, CLOSED_ONLY, OTHER]

  function DirectionOf(f: Flow): string {
    if f.srcInternal && f.dstInternal then "local" else if f.srcInternal then "outbound" else "inbound"
  }

  const DIRECTIONS: seq<string> := ["outbound", "inbound", "local"]

  const DNS := "DNS / encrypted DNS"
  const WEB := "Web / QUIC"
  const MONITORING := "Monitoring stack"
  const SSH := "SSH / admin"
  const SSDP := "SSDP / discovery"

  predicate Uses(f: Flow, ports: set<nat>) {
    f.dstPort in ports || f.srcPort in ports
  }

  function ServiceOf(f: Flow): string {
    if Uses(f, {53, 853}) then DNS
    else if Uses(f, {80, 443, 8080, 8443}) then WEB
    else if Uses(f, {9100, 9090, 3000, 8081, 8123}) then MONITORING
    else if Uses(f, {22, 2222}) then SSH
    else if Uses(f, {123}) then "NTP"
    else if Uses(f, {5353}) then "mDNS"
    else if Uses(f, {1900}) then SSDP
    else OTHER
  }

  const SERVICE_CLASSES: seq<string> := [DNS, WEB, MONITORING, SSH, "NTP", "mDNS", SSDP, OTHER]

  // The classes in the order they are tried, with the ports that decide each.
  const SERVICE_PORTS: seq<(string, set<nat>)> := [
    ("DNS / encrypted DNS", {53, 853}), ("Web / QUIC", {80, 443, 8080, 8443}),
    ("Monitoring stack", {9100, 9090, 3000, 8081, 8123}), ("SSH / admin", {22, 2222}),
    ("NTP", {123}), ("mDNS", {5353}), ("SSDP / discovery", {1900})]

  // A flow belongs to the first class one of whose ports it uses, at either end, else to the others.
  lemma ServiceMeans(f: Flow)
    ensures (forall k: nat | k < |SERVICE_PORTS| :: f.srcPort !in SERVICE_PORTS[k].1 && f.dstPort !in SERVICE_PORTS[k].1)
            ==> ServiceOf(f) == "Other"
    ensures forall k: nat | k < |SERVICE_PORTS| && (f.srcPort in SERVICE_PORTS[k].1 || f.dstPort in SERVICE_PORTS[k].1) ::
              (forall j: nat | j < k :: f.srcPort !in SERVICE_PORTS[j].1 && f.dstPort !in SERVICE_PORTS[j].1)
              ==> ServiceOf(f) == SERVICE_PORTS[k].0
  {
    var t := SERVICE_PORTS;
    assert |t| == 7 && t[0].1 == {53, 853} && t[1].1 == {80, 443, 8080, 8443} && t[2].1 == {9100, 9090, 3000, 8081, 8123};
    assert t[3].1 == {22, 2222} && t[4].1 == {123} && t[5].1 == {5353} && t[6].1 == {1900};
  }

  // Flows between internal hosts are local; the others are named after the end that is internal.
  lemma DirectionMeans(f: Flow)
    ensures DirectionOf(f) == "local" <==> f.srcInternal && f.dstInternal
    ensures DirectionOf(f) == "outbound" <==> f.srcInternal && !f.dstInternal
    ensures DirectionOf(f) == "inbound" <==> !f.srcInternal
  {
    assert |"local"| == 5 && |"outbound"| == 8 && |"inbound"| == 7;
  }

  predicate Fin(flags: bv16) { flags & 0x01 != 0 }

  predicate Syn(flags: bv16) { flags & 0x02 != 0 }

  predicate Rst(flags: bv16) { flags & 0x04 != 0 }

  predicate Ack(flags: bv16) { flags & 0x10 != 0 }

  // What a flow's cumulative flags say of it.
  lemma ShapeMeans(flags: bv16)
    ensures ShapeOf(flags) == "SYN, never answered" <==> Syn(flags) && !Ack(flags)
    ensures ShapeOf(flags) == "RST - reset or refused" <==> Rst(flags) && (Syn(flags) ==> Ack(flags))
    ensures ShapeOf(flags) == "Completed - opened and closed" <==> !Rst(flags) && Fin(flags) && Syn(flags) && Ack(flags)
    ensures ShapeOf(flags) == "Closed - handshake not captured" <==> !Rst(flags) && Fin(flags) && !Syn(flags)
    ensures ShapeOf(flags) == "Open - handshake, still running" <==> !Rst(flags) && !Fin(flags) && Syn(flags) && Ack(flags)
    ensures ShapeOf(flags) == "Established - data only" <==> !Rst(flags) && !Fin(flags) && !Syn(flags) && Ack(flags)
    ensures ShapeOf(flags) == "Other" <==> !Rst(flags) && !Fin(flags) && !Syn(flags) && !Ack(flags)
  {
    ShapesDistinct();
    var names := TCP_SHAPES;
    assert names[0] == COMPLETED && names[1] == RESET && names[2] == UNANSWERED && names[3] == OPEN;
    assert names[4] == DATA_ONLY && names[5] == CLOSED_ONLY && names[6] == OTHER;
  }

  // Lists whose entries differ in length, or in their first letter, name nothing twice.
  lemma TellApart(names: seq<string>)
    requires forall i | 0 <= i < |names| :: |names[i]| > 0
    requires forall i, j | 0 <= i < j < |names| :: |names[i]| != |names[j]| || names[i][0] != names[j][0]
    ensures NoRepeats(names)
  {
  }

  // The name lists of the panels mention every label the expressions can produce, each once: a name
  // misspelt in either place would leave its flows out of the panel.
  lemma ShapeNamed(flags: bv16)
    ensures ShapeOf(flags) in TCP_SHAPES
  {
    assert TCP_SHAPES[0] == COMPLETED && TCP_SHAPES[1] == RESET && TCP_SHAPES[2] == UNANSWERED && TCP_SHAPES[3] == OPEN;
    assert TCP_SHAPES[4] == DATA_ONLY && TCP_SHAPES[5] == CLOSED_ONLY && TCP_SHAPES[6] == OTHER;
  }

  lemma ShapesDistinct()
    ensures NoRepeats(TCP_SHAPES)
  {
    assert |COMPLETED| == 29 && |RESET| == 22 && |UNANSWERED| == 19 && |OPEN| == 31;
    assert |DATA_ONLY| == 23 && |CLOSED_ONLY| == 31 && |OTHER| == 5;
    assert OPEN[0] == 'O' && CLOSED_ONLY[0] == 'C';
    TellApart(TCP_SHAPES);
  }

  lemma DirectionNamed(f: Flow)
    ensures DirectionOf(f) in DIRECTIONS
  {
    assert DIRECTIONS[0] == "outbound" && DIRECTIONS[1] == "inbound" && DIRECTIONS[2] == "local";
  }

  lemma DirectionsDistinct()
    ensures NoRepeats(DIRECTIONS)
  {
    TellApart(DIRECTIONS);
  }

  lemma ServiceNamed(f: Flow)
    ensures ServiceOf(f) in SERVICE_CLASSES
  {
    var names := SERVICE_CLASSES;
    assert names[0] == DNS && names[1] == WEB && names[2] == MONITORING && names[3] == SSH;
    assert names[4] == "NTP" && names[5] == "mDNS" && names[6] == SSDP && names[7] == OTHER;
  }

  lemma ServicesDistinct()
    ensures NoRepeats(SERVICE_CLASSES)
  {
    assert |DNS| == 19 && |WEB| == 10 && |MONITORING| == 16 && |SSH| == 11 && |SSDP| == 16 && |OTHER| == 5;
    assert MONITORING[0] == 'M' && SSDP[0] == 'S';
    TellApart(SERVICE_CLASSES);
  }

  function Shapes(flows: seq<Flow>): seq<string> {
    seq(|flows|, i requires 0 <= i < |flows| => ShapeOf(flows[i].flags))
  }

  function Directions(flows: seq<Flow>): seq<string> {
    seq(|flows|, i requires 0 <= i < |flows| => DirectionOf(flows[i]))
  }

  function Services(flows: seq<Flow>): seq<string> {
    seq(|flows|, i requires 0 <= i < |flows| => ServiceOf(flows[i]))
  }

  function Ones(n: nat): seq<nat> {
    seq(n, _ => 1)
  }

  lemma AllNamed(flows: seq<Flow>)
    ensures forall l | l in Directions(flows) :: l in DIRECTIONS
    ensures forall l | l in Services(flows) :: l in SERVICE_CLASSES
    ensures forall l | l in Shapes(flows) :: l in TCP_SHAPES
  {
    forall f {
      DirectionNamed(f);
    }
    forall f {
      ServiceNamed(f);
    }
    forall flags {
      ShapeNamed(flags);
    }
  }

  // The three fixed-label panels of one time bucket each account for every flow once, whatever
  // quantity they sum.
  lemma PanelsConserve(flows: seq<Flow>, weights: seq<nat>)
    requires |weights| == |flows|
    ensures Total(Pivot(Directions(flows), weights, DIRECTIONS)) == Total(weights)
    ensures Total(Pivot(Services(flows), weights, SERVICE_CLASSES)) == Total(weights)
    ensures Total(Pivot(Shapes(flows), weights, TCP_SHAPES)) == Total(weights)
  {
    AllNamed(flows);
    DirectionsDistinct();
    ServicesDistinct();
    ShapesDistinct();
    PivotConserves(Directions(flows), weights, DIRECTIONS);
    PivotConserves(Services(flows), weights, SERVICE_CLASSES);
    PivotConserves(Shapes(flows), weights, TCP_SHAPES);
  }

  // ---------------------------------------------------------------- the unanswered-attempts stat

  // Flows with the SYN flag and without the ACK flag, counted by the flags themselves.
  function UnansweredStat(flows: seq<Flow>): nat {
    if flows == [] then 0
    else (if flows[0].flags & 2 != 0 && flows[0].flags & 16 == 0 then 1 else 0) + UnansweredStat(flows[1..])
  }

  // The TCP flows among them, in one pass over the whole table.
  function Attempts(flows: seq<Flow>): nat {
    if flows == [] then 0
    else (if flows[0].proto == 6 && Syn(flows[0].flags) && !Ack(flows[0].flags) then 1 else 0) + Attempts(flows[1..])
  }

  function Bucket(flows: seq<Flow>, time: int): seq<Flow> {
    if flows == [] then []
    else (if flows[0].time == time then [flows[0]] else []) + Bucket(flows[1..], time)
  }

  // The "SYN, never answered" column of the stacked panel, one value per time bucket.
  function UnansweredColumn(flows: seq<Flow>, times: seq<int>): (values: seq<nat>)
    ensures |values| == |times|
  {
    if times == [] then []
    else
      var b := Bucket(flows, times[0]);
      [SumIf(Shapes(b), Ones(|b|), UNANSWERED)] + UnansweredColumn(flows, times[1..])
  }

  lemma {:induction false} ColumnIsStat(flows: seq<Flow>)
    ensures SumIf(Shapes(flows), Ones(|flows|), UNANSWERED) == UnansweredStat(flows)
    decreases |flows|
  {
    if flows != [] {
      ColumnIsStat(flows[1..]);
      assert Shapes(flows)[1..] == Shapes(flows[1..]);
      assert Ones(|flows|)[1..] == Ones(|flows[1..]|);
    }
  }

  function Times(flows: seq<Flow>): seq<int> {
    seq(|flows|, i requires 0 <= i < |flows| => flows[i].time)
  }

  function Marks(flows: seq<Flow>): seq<nat> {
    seq(|flows|, i requires 0 <= i < |flows| => if ShapeOf(flows[i].flags) == UNANSWERED then 1 else 0)
  }

  lemma {:induction false} BucketStat(flows: seq<Flow>, time: int)
    ensures UnansweredStat(Bucket(flows, time)) == SumIf(Times(flows), Marks(flows), time)
    decreases |flows|
  {
    if flows != [] {
      BucketStat(flows[1..], time);
      assert Times(flows)[1..] == Times(flows[1..]) && Marks(flows)[1..] == Marks(flows[1..]);
      if flows[0].time == time {
        assert ([flows[0]] + Bucket(flows[1..], time))[1..] == Bucket(flows[1..], time);
      } else {
        assert [] + Bucket(flows[1..], time) == Bucket(flows[1..], time);
      }
    }
  }

  lemma {:induction false} ColumnIsPivot(flows: seq<Flow>, times: seq<int>)
    ensures UnansweredColumn(flows, times) == Pivot(Times(flows), Marks(flows), times)
    decreases |times|
  {
    if times != [] {
      ColumnIsPivot(flows, times[1..]);
      ColumnIsStat(Bucket(flows, times[0]));
      BucketStat(flows, times[0]);
    }
  }

  lemma {:induction false} MarksTotal(flows: seq<Flow>)
    ensures Total(Marks(flows)) == UnansweredStat(flows)
    decreases |flows|
  {
    if flows != [] {
      MarksTotal(flows[1..]);
      assert Marks(flows)[1..] == Marks(flows[1..]);
    }
  }

  const TCP: nat := 6

  // The rows both queries keep.
  function TcpFlows(flows: seq<Flow>): seq<Flow> {
    if flows == [] then [] else (if flows[0].proto == TCP then [flows[0]] else []) + TcpFlows(flows[1..])
  }

  lemma BucketsConserve(flows: seq<Flow>, times: seq<int>)
    requires NoRepeats(times) && forall f | f in flows :: f.time in times
    ensures Total(UnansweredColumn(flows, times)) == UnansweredStat(flows)
  {
    ColumnIsPivot(flows, times);
    forall t | t in Times(flows) ensures t in times {
      var i :| 0 <= i < |flows| && Times(flows)[i] == t;
      assert flows[i] in flows;
    }
    PivotConserves(Times(flows), Marks(flows), times);
    MarksTotal(flows);
  }

  // Stat 402 is the "SYN, never answered" column summed over the time buckets.
  lemma StatEqualsColumn(flows: seq<Flow>, times: seq<int>)
    requires NoRepeats(times) && forall f | f in flows && f.proto == 6 :: f.time in times
    ensures Total(UnansweredColumn(TcpFlows(flows), times)) == UnansweredStat(TcpFlows(flows)) == Attempts(flows)
  {
    AttemptsCounted(flows);
    TcpKept(flows);
    BucketsConserve(TcpFlows(flows), times);
  }

  lemma {:induction false} AttemptsCounted(flows: seq<Flow>)
    ensures UnansweredStat(TcpFlows(flows)) == Attempts(flows)
    decreases |flows|
  {
    if flows != [] {
      AttemptsCounted(flows[1..]);
      var later := TcpFlows(flows[1..]);
      assert ([flows[0]] + later)[1..] == later && [] + later == later;
    }
  }

  lemma {:induction false} TcpKept(flows: seq<Flow>)
    ensures forall f :: f in TcpFlows(flows) <==> f in flows && f.proto == TCP
    decreases |flows|
  {
    if flows != [] {
      TcpKept(flows[1..]);
      assert flows == [flows[0]] + flows[1..];
    }
  }

  // ---------------------------------------------------------------- packet-size buckets

  // One heatmap column: sizes from `lower` up to but not including `upper`, where there is one.
  datatype SizeColumn = SizeColumn(lower: nat, bounded: bool, upper: nat)

  predicate InColumn(c: SizeColumn, size: nat) {
    (c.lower != 0 ==> size >= c.lower) && (c.bounded ==> size < c.upper)
  }

  ghost predicate NeverDescends(edges: seq<nat>) {
    forall i, j | 0 <= i < j < |edges| :: edges[i] <= edges[j]
  }

  // The number of edges at or below a size.
  function EdgesBelow(edges: seq<nat>, size: nat): (n: nat)
    ensures n <= |edges|
  {
    if edges == [] then 0 else (if edges[0] <= size then 1 else 0) + EdgesBelow(edges[1..], size)
  }

  lemma {:induction false} EdgesBelowSplits(edges: seq<nat>, size: nat, k: nat)
    requires NeverDescends(edges) && k <= |edges|
    ensures EdgesBelow(edges, size) == k
            <==> (k == 0 || edges[k - 1] <= size) && (k == |edges| || size < edges[k])
    decreases |edges|
  {
    if edges != [] {
      var rest := edges[1..];
      assert NeverDescends(rest) by {
        forall i, j | 0 <= i < j < |rest| ensures rest[i] <= rest[j] {
          assert rest[i] == edges[i + 1] && rest[j] == edges[j + 1];
        }
      }
      if edges[0] > size {
        EdgesBelowSplits(rest, size, 0);
        assert rest != [] ==> rest[0] == edges[1] && edges[0] <= edges[1];
        if k > 0 {
          assert edges[0] <= edges[k - 1];
        }
      } else if k > 0 {
        EdgesBelowSplits(rest, size, k - 1);
        assert k - 1 > 0 ==> rest[k - 2] == edges[k - 1];
        assert k < |edges| ==> rest[k - 1] == edges[k];
      }
    }
  }

  // Column i takes exactly the sizes with i edges at or below them.
  ghost predicate Buckets(parts: seq<SizeColumn>, edges: seq<nat>) {
    && |parts| == |edges| + 1
    && forall i, size: nat | 0 <= i < |parts| :: InColumn(parts[i], size) <==> i == EdgesBelow(edges, size)
  }

  // From the edge before, if that is not 0, up to the edge; the last column has no upper bound.
  function SizeColumnAt(edges: seq<nat>, i: nat): SizeColumn
    requires i <= |edges|
  {
    var lower := if i == 0 then 0 else edges[i - 1];
    if i == |edges| then SizeColumn(lower, false, 0) else SizeColumn(lower, true, edges[i])
  }

  function SizeColumns(edges: seq<nat>): (parts: seq<SizeColumn>)
    ensures |parts| == |edges| + 1
  {
    seq(|edges| + 1, i requires 0 <= i <= |edges| => SizeColumnAt(edges, i))
  }

  // packet_size_columns: where the edges never descend, every size falls into the column numbered by
  // the edges at or below it, and into no other.
  method PacketSizeColumns(edges: seq<nat>) returns (parts: seq<SizeColumn>)
    requires edges != []
    ensures parts == SizeColumns(edges)
    ensures NeverDescends(edges) ==> Buckets(parts, edges)
  {
    parts := [];
    var previous := 0;
    for k := 0 to |edges|
      invariant |parts| == k && previous == (if k == 0 then 0 else edges[k - 1])
      invariant forall i | 0 <= i < k :: parts[i] == SizeColumnAt(edges, i)
    {
      parts := parts + [SizeColumn(previous, true, edges[k])];
      previous := edges[k];
    }
    parts := parts + [SizeColumn(edges[|edges| - 1], false, 0)];
    if NeverDescends(edges) {
      SizeColumnsAreBuckets(edges);
    }
  }

  lemma SizeColumnsAreBuckets(edges: seq<nat>)
    requires NeverDescends(edges)
    ensures Buckets(SizeColumns(edges), edges)
  {
    forall i, size: nat | 0 <= i <= |edges| ensures InColumn(SizeColumns(edges)[i], size) <==> i == EdgesBelow(edges, size) {
      EdgesBelowSplits(edges, size, i);
    }
  }

  // What an emitted column adds up: the weights of the flows whose size lies in its range.
  function ColumnSum(c: SizeColumn, sizes: seq<nat>, weights: seq<nat>): nat
    requires |sizes| == |weights|
  {
    if sizes == [] then 0
    else (if InColumn(c, sizes[0]) then weights[0] else 0) + ColumnSum(c, sizes[1..], weights[1..])
  }

  function ColumnSums(parts: seq<SizeColumn>, sizes: seq<nat>, weights: seq<nat>): seq<nat>
    requires |sizes| == |weights|
  {
    if parts == [] then [] else [ColumnSum(parts[0], sizes, weights)] + ColumnSums(parts[1..], sizes, weights)
  }

  function SizeLabels(edges: seq<nat>, sizes: seq<nat>): (labels: seq<nat>)
    ensures |labels| == |sizes|
  {
    if sizes == [] then [] else [EdgesBelow(edges, sizes[0])] + SizeLabels(edges, sizes[1..])
  }

  function Numbers(first: nat, last: nat): (numbers: seq<nat>)
    requires first <= last
    ensures |numbers| == last - first && forall i | 0 <= i < |numbers| :: numbers[i] == first + i
    decreases last - first
  {
    if first == last then [] else [first] + Numbers(first + 1, last)
  }

  lemma {:induction false} ColumnIsLabel(parts: seq<SizeColumn>, edges: seq<nat>, i: nat, sizes: seq<nat>, weights: seq<nat>)
    requires Buckets(parts, edges) && i < |parts| && |sizes| == |weights|
    ensures ColumnSum(parts[i], sizes, weights) == SumIf(SizeLabels(edges, sizes), weights, i)
    decreases |sizes|
  {
    if sizes != [] {
      ColumnIsLabel(parts, edges, i, sizes[1..], weights[1..]);
      assert SizeLabels(edges, sizes)[1..] == SizeLabels(edges, sizes[1..]);
      assert InColumn(parts[i], sizes[0]) <==> i == EdgesBelow(edges, sizes[0]);
    }
  }

  lemma {:induction false} ColumnsArePivot(parts: seq<SizeColumn>, edges: seq<nat>, i: nat, sizes: seq<nat>, weights: seq<nat>)
    requires Buckets(parts, edges) && i <= |parts| && |sizes| == |weights|
    ensures ColumnSums(parts[i..], sizes, weights) == Pivot(SizeLabels(edges, sizes), weights, Numbers(i, |parts|))
    decreases |parts| - i
  {
    if i < |parts| {
      ColumnIsLabel(parts, edges, i, sizes, weights);
      ColumnsArePivot(parts, edges, i + 1, sizes, weights);
      assert parts[i..][1..] == parts[i + 1..];
      assert Numbers(i, |parts|)[1..] == Numbers(i + 1, |parts|);
    }
  }

  lemma {:induction false} SizesLabelled(edges: seq<nat>, sizes: seq<nat>)
    ensures forall l | l in SizeLabels(edges, sizes) :: l <= |edges|
    decreases |sizes|
  {
    if sizes != [] {
      SizesLabelled(edges, sizes[1..]);
    }
  }

  lemma BucketsSum(edges: seq<nat>, parts: seq<SizeColumn>, sizes: seq<nat>, weights: seq<nat>)
    requires Buckets(parts, edges) && |sizes| == |weights|
    ensures Total(ColumnSums(parts, sizes, weights)) == Total(weights)
  {
    var numbers, labels := Numbers(0, |parts|), SizeLabels(edges, sizes);
    assert parts[0..] == parts;
    ColumnsArePivot(parts, edges, 0, sizes, weights);
    SizesLabelled(edges, sizes);
    forall l | l in labels ensures l in numbers {
      assert numbers[l] == l;
    }
    PivotConserves(labels, weights, numbers);
  }

  // ---------------------------------------------------------------- edges that descend

  // How many of the columns from the k-th edge on hold the size.
  function Holding(edges: seq<nat>, k: nat, size: nat): nat
    requires k <= |edges|
    decreases |edges| - k
  {
    (if InColumn(SizeColumnAt(edges, k), size) then 1 else 0)
    + if k == |edges| then 0 else Holding(edges, k + 1, size)
  }

  lemma {:induction false} HoldingIsSum(edges: seq<nat>, k: nat, size: nat)
    requires k <= |edges|
    ensures Total(ColumnSums(SizeColumns(edges)[k..], [size], [1])) == Holding(edges, k, size)
    decreases |edges| - k
  {
    var parts := SizeColumns(edges);
    assert parts[k..][0] == SizeColumnAt(edges, k) && parts[k..][1..] == parts[k + 1..];
    OneFlowSum(parts[k], size);
    if k < |edges| {
      HoldingIsSum(edges, k + 1, size);
    }
  }

  lemma OneFlowSum(c: SizeColumn, size: nat)
    ensures ColumnSum(c, [size], [1]) == if InColumn(c, size) then 1 else 0
  {
    assert ColumnSum(c, [size][1..], [1][1..]) == 0;
  }

  // After an edge at or below the size, some column holds it.
  lemma {:induction false} HeldAfter(edges: seq<nat>, k: nat, j: nat, size: nat)
    requires k <= j < |edges| && edges[j] <= size
    ensures Holding(edges, k, size) >= 1
    decreases |edges| - k
  {
    if k < j {
      HeldAfter(edges, k + 1, j, size);
    } else if j + 1 < |edges| && edges[j + 1] <= size {
      HeldAfter(edges, k + 1, j + 1, size);
    } else {
      assert InColumn(SizeColumnAt(edges, k + 1), size);
    }
  }

  // A size between an edge and an earlier, larger one is held twice.
  lemma {:induction false} HeldTwice(edges: seq<nat>, k: nat, i: nat, j: nat, size: nat)
    requires k <= i < j < |edges| && edges[j] <= size < edges[i]
    requires k > 0 ==> edges[k - 1] <= size
    ensures Holding(edges, k, size) >= 2
    decreases |edges| - k
  {
    if edges[k] <= size {
      HeldTwice(edges, k + 1, i, j, size);
    } else {
      assert InColumn(SizeColumnAt(edges, k), size);
      HeldAfter(edges, k + 1, j, size);
    }
  }

  // The columns of every table of flows sum to the plain total.
  ghost predicate Conserves(parts: seq<SizeColumn>) {
    forall sizes: seq<nat>, weights: seq<nat> | |sizes| == |weights| ::
      Total(ColumnSums(parts, sizes, weights)) == Total(weights)
  }

  // The heatmap neither drops nor repeats a packet exactly when its edges never descend.
  lemma HeatmapConserves(edges: seq<nat>)
    ensures Conserves(SizeColumns(edges)) <==> NeverDescends(edges)
  {
    var parts := SizeColumns(edges);
    if NeverDescends(edges) {
      SizeColumnsAreBuckets(edges);
      forall sizes: seq<nat>, weights: seq<nat> | |sizes| == |weights|
        ensures Total(ColumnSums(parts, sizes, weights)) == Total(weights)
      {
        BucketsSum(edges, parts, sizes, weights);
      }
    } else {
      var i, j :| 0 <= i < j < |edges| && edges[j] < edges[i];
      var sizes, weights: seq<nat> := [edges[j]], [1];
      HeldTwice(edges, 0, i, j, edges[j]);
      HoldingIsSum(edges, 0, edges[j]);
      assert parts[0..] == parts;
      assert Total(weights) == 1;
      assert Total(ColumnSums(parts, sizes, weights)) != Total(weights);
    }
  }

  // ---------------------------------------------------------------- the shipped heatmap

  const PACKET_SIZE_EDGES: seq<nat> := [64, 128, 256, 512, 1024, 1500]

  function Sizes(flows: seq<Flow>): seq<nat> {
    seq(|flows|, i requires 0 <= i < |flows| => flows[i].packetSize)
  }

  function PacketCounts(flows: seq<Flow>): seq<nat> {
    seq(|flows|, i requires 0 <= i < |flows| => flows[i].packets * flows[i].samplingRate)
  }

  // The packets of the flows with sizes in a range.
  function PacketsSized(flows: seq<Flow>, lower: nat, upper: nat): nat {
    if flows == [] then 0
    else
      (if lower <= flows[0].packetSize < upper then flows[0].packets * flows[0].samplingRate else 0)
      + PacketsSized(flows[1..], lower, upper)
  }

  function PacketsFrom(flows: seq<Flow>, lower: nat): nat {
    if flows == [] then 0
    else (if lower <= flows[0].packetSize then flows[0].packets * flows[0].samplingRate else 0) + PacketsFrom(flows[1..], lower)
  }

  lemma RestOfTable(flows: seq<Flow>)
    requires flows != []
    ensures Sizes(flows)[1..] == Sizes(flows[1..]) && PacketCounts(flows)[1..] == PacketCounts(flows[1..])
  {
  }

  lemma {:induction false} BoundedColumn(flows: seq<Flow>, lower: nat, upper: nat)
    ensures ColumnSum(SizeColumn(lower, true, upper), Sizes(flows), PacketCounts(flows)) == PacketsSized(flows, lower, upper)
    decreases |flows|
  {
    if flows != [] {
      RestOfTable(flows);
      BoundedColumn(flows[1..], lower, upper);
    }
  }

  lemma {:induction false} OpenColumn(flows: seq<Flow>, lower: nat)
    ensures ColumnSum(SizeColumn(lower, false, 0), Sizes(flows), PacketCounts(flows)) == PacketsFrom(flows, lower)
    decreases |flows|
  {
    if flows != [] {
      RestOfTable(flows);
      OpenColumn(flows[1..], lower);
    }
  }

  lemma {:induction false} AllPackets(flows: seq<Flow>)
    ensures Total(PacketCounts(flows)) == PacketsFrom(flows, 0)
    decreases |flows|
  {
    if flows != [] {
      RestOfTable(flows);
      AllPackets(flows[1..]);
    }
  }

  const SHIPPED := [SizeColumn(0, true, 64), SizeColumn(64, true, 128), SizeColumn(128, true, 256), SizeColumn(256, true, 512),
                    SizeColumn(512, true, 1024), SizeColumn(1024, true, 1500), SizeColumn(1500, false, 0)]

  // The seven columns of panel 104. Over every table of flows they show every packet once.
  method ShippedColumns() returns (parts: seq<SizeColumn>)
    ensures parts == SHIPPED
    ensures forall flows: seq<Flow> ::
              Total(ColumnSums(parts, Sizes(flows), PacketCounts(flows))) == PacketsFrom(flows, 0)
  {
    parts := PacketSizeColumns(PACKET_SIZE_EDGES);
    HeatmapConserves(PACKET_SIZE_EDGES);
    forall flows: seq<Flow> {
      AllPackets(flows);
    }
  }

  // What each of them shows.
  lemma ShippedMeans(flows: seq<Flow>, k: nat)
    requires k < |SHIPPED|
    ensures ColumnSum(SHIPPED[k], Sizes(flows), PacketCounts(flows))
         == if SHIPPED[k].bounded then PacketsSized(flows, SHIPPED[k].lower, SHIPPED[k].upper)
            else PacketsFrom(flows, SHIPPED[k].lower)
  {
    if SHIPPED[k].bounded {
      BoundedColumn(flows, SHIPPED[k].lower, SHIPPED[k].upper);
    } else {
      OpenColumn(flows, SHIPPED[k].lower);
    }
  }
}
