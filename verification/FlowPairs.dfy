// From flow records to the node graph: the grouped pairs, and what the graph of the heaviest of
// them says about the flows.
module FlowPairs {
  import opened SetSizes
  import opened Strings
  import opened PromQL
  import opened FlowGraph

  // A flow record as far as the query reads it. `counted` stands for the time range, the router
  // filter and the two address filters; host is the displayed source address.
  datatype FlowRecord = FlowRecord(host: string, asNumber: nat, bytes: nat, samplingRate: nat, counted: bool)

  type Key = (string, string, string)

  // dictGetOrDefault
  function NameOf(names: map<nat, string>, asNumber: nat): string {
    if asNumber in names then names[asNumber] else "AS" + Decimal(asNumber)
  }

  function KeyOf(f: FlowRecord, names: map<nat, string>): Key {
    (f.host, Decimal(f.asNumber), NameOf(names, f.asNumber))
  }

  function Weight(f: FlowRecord): real {
    (f.bytes * f.samplingRate) as real
  }

  // The WHERE clause.
  function Counted(flows: seq<FlowRecord>): seq<FlowRecord> {
    if flows == [] then []
    else (if flows[0].counted && flows[0].asNumber != 0 then [flows[0]] else []) + Counted(flows[1..])
  }

  function Keys(flows: seq<FlowRecord>, names: map<nat, string>): (keys: seq<Key>)
    ensures |keys| == |flows|
  {
    seq(|flows|, i requires 0 <= i < |flows| => KeyOf(flows[i], names))
  }

  function Weights(flows: seq<FlowRecord>): (weights: seq<real>)
    ensures |weights| == |flows|
  {
    seq(|flows|, i requires 0 <= i < |flows| => Weight(flows[i]))
  }

  function PairOf(key: Key, bytes: real, flows: nat): Pair {
    Pair(key.0, key.1, key.2, bytes, flows)
  }

  function KeyOfPair(p: Pair): Key {
    (p.host, p.asn, p.asName)
  }

  // GROUP BY host, asn, as_name
  function GroupedPairs(keys: seq<Key>, weights: seq<real>): set<Pair>
    requires |keys| == |weights|
  {
    set key | key in GroupSum(keys, weights) :: PairOf(key, GroupSum(keys, weights)[key], multiset(keys)[key])
  }

  function AllPairs(flows: seq<FlowRecord>, names: map<nat, string>): set<Pair> {
    GroupedPairs(Keys(Counted(flows), names), Weights(Counted(flows)))
  }

  // ---------------------------------------------------------------- what grouping gives

  // The weights under the keys of a set.
  function SumUnder<K(==)>(keys: seq<K>, weights: seq<real>, some: set<K>): real
    requires |keys| == |weights|
  {
    if keys == [] then 0.0
    else (if keys[0] in some then weights[0] else 0.0) + SumUnder(keys[1..], weights[1..], some)
  }

  lemma {:induction false} SumUnderNone<K>(keys: seq<K>, weights: seq<real>, some: set<K>)
    requires |keys| == |weights| && forall k | k in keys :: k !in some
    ensures SumUnder(keys, weights, some) == 0.0
    decreases |keys|
  {
    if keys != [] {
      assert keys[0] in keys && forall k | k in keys[1..] :: k in keys;
      SumUnderNone(keys[1..], weights[1..], some);
    }
  }

  lemma {:induction false} SumUnderAll<K>(keys: seq<K>, weights: seq<real>, some: set<K>)
    requires |keys| == |weights| && forall k | k in keys :: k in some
    ensures SumUnder(keys, weights, some) == Total(weights)
    decreases |keys|
  {
    if keys != [] {
      assert keys[0] in keys && forall k | k in keys[1..] :: k in keys;
      SumUnderAll(keys[1..], weights[1..], some);
    }
  }

  lemma {:induction false} SumUnderOneMore<K>(keys: seq<K>, weights: seq<real>, some: set<K>, k: K)
    requires |keys| == |weights| && k !in some
    ensures SumUnder(keys, weights, some + {k}) == SumUnder(keys, weights, some) + SumUnder(keys, weights, {k})
    decreases |keys|
  {
    if keys != [] {
      SumUnderOneMore(keys[1..], weights[1..], some, k);
    }
  }

  // A group's sum is the sum of the weights under its key.
  lemma {:induction false} GroupValue<K>(keys: seq<K>, weights: seq<real>, k: K)
    requires |keys| == |weights| && k in keys
    ensures k in GroupSum(keys, weights) && GroupSum(keys, weights)[k] == SumUnder(keys, weights, {k})
    decreases |keys|
  {
    var rest, later := keys[1..], weights[1..];
    GroupedKeys(keys, weights);
    GroupedKeys(rest, later);
    assert keys == [keys[0]] + rest;
    if k in rest {
      GroupValue(rest, later, k);
    } else {
      SumUnderNone(rest, later, {k});
    }
  }

  lemma PairFromKey(keys: seq<Key>, weights: seq<real>, p: Pair)
    requires |keys| == |weights| && p in GroupedPairs(keys, weights)
    ensures KeyOfPair(p) in keys && p.bytes == SumUnder(keys, weights, {KeyOfPair(p)})
    ensures p.flows == multiset(keys)[KeyOfPair(p)]
  {
    var key :| key in GroupSum(keys, weights) && p == PairOf(key, GroupSum(keys, weights)[key], multiset(keys)[key]);
    GroupedKeys(keys, weights);
    assert KeyOfPair(p) == key;
    GroupValue(keys, weights, key);
  }

  lemma KeyHasPair(keys: seq<Key>, weights: seq<real>, key: Key)
    requires |keys| == |weights| && key in keys
    ensures exists p | p in GroupedPairs(keys, weights) :: KeyOfPair(p) == key
  {
    GroupedKeys(keys, weights);
    var p := PairOf(key, GroupSum(keys, weights)[key], multiset(keys)[key]);
    assert p in GroupedPairs(keys, weights) && KeyOfPair(p) == key;
  }

  lemma SameKeySamePair(keys: seq<Key>, weights: seq<real>, p: Pair, q: Pair)
    requires |keys| == |weights| && p in GroupedPairs(keys, weights) && q in GroupedPairs(keys, weights)
    requires KeyOfPair(p) == KeyOfPair(q)
    ensures p == q
  {
    PairFromKey(keys, weights, p);
    PairFromKey(keys, weights, q);
  }

  // ---------------------------------------------------------------- every choice is well formed

  lemma ChoiceGrouped(chosen: seq<Pair>, flows: seq<FlowRecord>, names: map<nat, string>, n: nat)
    requires Heaviest(chosen, AllPairs(flows, names), n)
    ensures Grouped(chosen)
  {
    var keys, weights := Keys(Counted(flows), names), Weights(Counted(flows));
    forall i, j | 0 <= i < j < |chosen| ensures KeyOfPair(chosen[i]) != KeyOfPair(chosen[j]) {
      assert chosen[i] in chosen && chosen[j] in chosen;
      if KeyOfPair(chosen[i]) == KeyOfPair(chosen[j]) {
        SameKeySamePair(keys, weights, chosen[i], chosen[j]);
      }
    }
  }

  lemma PairFromFlow(p: Pair, flows: seq<FlowRecord>, names: map<nat, string>) returns (f: FlowRecord)
    requires p in AllPairs(flows, names)
    ensures f in Counted(flows) && KeyOf(f, names) == KeyOfPair(p)
  {
    var counted := Counted(flows);
    PairFromKey(Keys(counted, names), Weights(counted), p);
    var i :| 0 <= i < |counted| && Keys(counted, names)[i] == KeyOfPair(p);
    f := counted[i];
  }

  lemma SameNumber(f: FlowRecord, g: FlowRecord, names: map<nat, string>)
    requires KeyOf(f, names).1 == KeyOf(g, names).1
    ensures KeyOf(f, names).2 == KeyOf(g, names).2
  {
    DecimalRoundTrip(f.asNumber);
    DecimalRoundTrip(g.asNumber);
  }

  lemma ChoiceNamed(chosen: seq<Pair>, flows: seq<FlowRecord>, names: map<nat, string>, n: nat)
    requires Heaviest(chosen, AllPairs(flows, names), n)
    ensures Named(chosen)
  {
    forall p | p in chosen ensures forall c | c in p.asn :: '0' <= c <= '9' {
      var f := PairFromFlow(p, flows, names);
      DecimalRoundTrip(f.asNumber);
    }
    forall i, j | 0 <= i < |chosen| && 0 <= j < |chosen| && chosen[i].asn == chosen[j].asn
      ensures chosen[i].asName == chosen[j].asName
    {
      assert chosen[i] in chosen && chosen[j] in chosen;
      var f := PairFromFlow(chosen[i], flows, names);
      var g := PairFromFlow(chosen[j], flows, names);
      SameNumber(f, g, names);
    }
  }

  // ---------------------------------------------------------------- bytes

  function ChosenKeys(chosen: seq<Pair>): set<Key> {
    set p | p in chosen :: KeyOfPair(p)
  }

  lemma {:induction false} ChosenTotal(keys: seq<Key>, weights: seq<real>, chosen: seq<Pair>)
    requires |keys| == |weights| && Grouped(chosen)
    requires forall p | p in chosen :: p in GroupedPairs(keys, weights)
    ensures Total(Bytes(chosen)) == SumUnder(keys, weights, ChosenKeys(chosen))
    decreases |chosen|
  {
    if chosen == [] {
      SumUnderNone(keys, weights, {});
      assert ChosenKeys(chosen) == {};
    } else {
      var p, rest := chosen[0], chosen[1..];
      assert p in chosen && forall q | q in rest :: q in chosen;
      RestGrouped(chosen);
      ChosenTotal(keys, weights, rest);
      PairFromKey(keys, weights, p);
      SumUnderOneMore(keys, weights, ChosenKeys(rest), KeyOfPair(p));
      assert chosen == [p] + rest;
      assert ChosenKeys(chosen) == ChosenKeys(rest) + {KeyOfPair(p)};
      assert Bytes(chosen)[1..] == Bytes(rest);
    }
  }

  lemma RestGrouped(chosen: seq<Pair>)
    requires Grouped(chosen) && chosen != []
    ensures Grouped(chosen[1..]) && KeyOfPair(chosen[0]) !in ChosenKeys(chosen[1..])
  {
    forall i, j | 0 <= i < j < |chosen[1..]| ensures KeyOfPair(chosen[1..][i]) != KeyOfPair(chosen[1..][j]) {
      assert chosen[1..][i] == chosen[i + 1] && chosen[1..][j] == chosen[j + 1];
    }
    forall q | q in chosen[1..] ensures KeyOfPair(q) != KeyOfPair(chosen[0]) {
      var j :| 0 <= j < |chosen[1..]| && chosen[1..][j] == q;
      assert chosen[j + 1] == q;
    }
  }

  // ---------------------------------------------------------------- in terms of the flow records

  // The flows the query counts: in range, with a resolved destination network.
  predicate InQuery(f: FlowRecord) {
    f.counted && f.asNumber > 0
  }

  // The sampled bytes, and the number, of the flows from a host to a network.
  function Between(flows: seq<FlowRecord>, host: string, asNumber: nat): (nat, nat) {
    if flows == [] then (0, 0)
    else
      var f, (bytes, count) := flows[0], Between(flows[1..], host, asNumber);
      if InQuery(f) && f.host == host && f.asNumber == asNumber then (f.bytes * f.samplingRate + bytes, 1 + count)
      else (bytes, count)
  }

  lemma SameKey(f: FlowRecord, g: FlowRecord, names: map<nat, string>)
    ensures KeyOf(f, names) == KeyOf(g, names) <==> f.host == g.host && f.asNumber == g.asNumber
  {
    DecimalRoundTrip(f.asNumber);
    DecimalRoundTrip(g.asNumber);
  }

  lemma CountedStep(flows: seq<FlowRecord>, names: map<nat, string>)
    requires flows != []
    ensures
      var f, later := flows[0], Counted(flows[1..]);
      if InQuery(f) then
        && Counted(flows) == [f] + later
        && Keys(Counted(flows), names) == [KeyOf(f, names)] + Keys(later, names)
        && Weights(Counted(flows)) == [Weight(f)] + Weights(later)
      else Counted(flows) == later
  {
    ListedCons(flows[0], Counted(flows[1..]), names);
  }

  lemma ListedCons(f: FlowRecord, later: seq<FlowRecord>, names: map<nat, string>)
    ensures Keys([f] + later, names) == [KeyOf(f, names)] + Keys(later, names)
    ensures Weights([f] + later) == [Weight(f)] + Weights(later)
  {
    KeysCons(f, later, names);
    WeightsCons(f, later);
  }

  lemma KeysCons(f: FlowRecord, later: seq<FlowRecord>, names: map<nat, string>)
    ensures Keys([f] + later, names) == [KeyOf(f, names)] + Keys(later, names)
  {
    var all := [f] + later;
    assert all[0] == f && forall i | 0 < i < |all| :: all[i] == later[i - 1];
  }

  lemma WeightsCons(f: FlowRecord, later: seq<FlowRecord>)
    ensures Weights([f] + later) == [Weight(f)] + Weights(later)
  {
    var all := [f] + later;
    assert all[0] == f && forall i | 0 < i < |all| :: all[i] == later[i - 1];
  }

  lemma {:induction false} BetweenIsGroup(flows: seq<FlowRecord>, names: map<nat, string>, f: FlowRecord)
    ensures
      var keys, sum := Keys(Counted(flows), names), Between(flows, f.host, f.asNumber);
      && SumUnder(keys, Weights(Counted(flows)), {KeyOf(f, names)}) == sum.0 as real
      && multiset(keys)[KeyOf(f, names)] == sum.1
    decreases |flows|
  {
    if flows != [] {
      CountedStep(flows, names);
      BetweenIsGroup(flows[1..], names, f);
      SameKey(flows[0], f, names);
    }
  }

  lemma {:induction false} CountedFlows(flows: seq<FlowRecord>)
    ensures forall f :: f in Counted(flows) <==> f in flows && InQuery(f)
    decreases |flows|
  {
    if flows != [] {
      CountedFlows(flows[1..]);
      assert flows == [flows[0]] + flows[1..];
    }
  }

  // What a pair of the subquery is: a host and a network that some flow connects, the network's name
  // or its number, and the sampled bytes and the number of the flows between the two.
  predicate Sums(p: Pair, flows: seq<FlowRecord>, names: map<nat, string>, f: FlowRecord) {
    && f in flows && InQuery(f)
    && p.host == f.host && p.asn == Decimal(f.asNumber)
    && p.asName == (if f.asNumber in names then names[f.asNumber] else "AS" + Decimal(f.asNumber))
    && p.bytes == Between(flows, f.host, f.asNumber).0 as real
    && p.flows == Between(flows, f.host, f.asNumber).1
  }

  lemma PairsOfFlows(flows: seq<FlowRecord>, names: map<nat, string>, p: Pair)
    ensures p in AllPairs(flows, names) <==> exists f :: Sums(p, flows, names, f)
  {
    CountedFlows(flows);
    if p in AllPairs(flows, names) {
      var f := PairFromFlow(p, flows, names);
      PairFromKey(Keys(Counted(flows), names), Weights(Counted(flows)), p);
      BetweenIsGroup(flows, names, f);
      assert Sums(p, flows, names, f);
    }
    if f :| Sums(p, flows, names, f) {
      FlowHasPair(flows, names, f, p);
    }
  }

  lemma FlowHasPair(flows: seq<FlowRecord>, names: map<nat, string>, f: FlowRecord, p: Pair)
    requires Sums(p, flows, names, f) && f in Counted(flows)
    ensures p in AllPairs(flows, names)
  {
    var keys, weights := Keys(Counted(flows), names), Weights(Counted(flows));
    var i :| 0 <= i < |Counted(flows)| && Counted(flows)[i] == f;
    assert keys[i] == KeyOf(f, names) && keys[i] in keys;
    GroupedKeys(keys, weights);
    GroupValue(keys, weights, KeyOf(f, names));
    BetweenIsGroup(flows, names, f);
    assert p == PairOf(KeyOf(f, names), GroupSum(keys, weights)[KeyOf(f, names)], multiset(keys)[KeyOf(f, names)]);
  }

  predicate Belongs(f: FlowRecord, chosen: seq<Pair>) {
    exists p | p in chosen :: p.host == f.host && p.asn == Decimal(f.asNumber)
  }

  // The sampled bytes of the flows that belong to a chosen pair.
  function CarriedBytes(flows: seq<FlowRecord>, chosen: seq<Pair>): nat {
    if flows == [] then 0
    else
      (if InQuery(flows[0]) && Belongs(flows[0], chosen) then flows[0].bytes * flows[0].samplingRate else 0)
      + CarriedBytes(flows[1..], chosen)
  }

  // The sampled bytes of all flows of the query.
  function QueryBytes(flows: seq<FlowRecord>): nat {
    if flows == [] then 0
    else (if InQuery(flows[0]) then flows[0].bytes * flows[0].samplingRate else 0) + QueryBytes(flows[1..])
  }

  // A pair's name follows from its number.
  ghost predicate NamedBy(chosen: seq<Pair>, names: map<nat, string>) {
    forall p, f: FlowRecord | p in chosen && p.asn == Decimal(f.asNumber) :: p.asName == NameOf(names, f.asNumber)
  }

  lemma ChoiceNamedBy(chosen: seq<Pair>, flows: seq<FlowRecord>, names: map<nat, string>)
    requires forall p | p in chosen :: p in AllPairs(flows, names)
    ensures NamedBy(chosen, names)
  {
    forall p, f: FlowRecord | p in chosen && p.asn == Decimal(f.asNumber) ensures p.asName == NameOf(names, f.asNumber) {
      var g := PairFromFlow(p, flows, names);
      SameNumber(f, g, names);
    }
  }

  lemma KeyChosen(f: FlowRecord, chosen: seq<Pair>, names: map<nat, string>)
    requires NamedBy(chosen, names)
    ensures KeyOf(f, names) in ChosenKeys(chosen) <==> Belongs(f, chosen)
  {
    if Belongs(f, chosen) {
      var p :| p in chosen && p.host == f.host && p.asn == Decimal(f.asNumber);
      assert KeyOfPair(p) == KeyOf(f, names);
    }
  }

  lemma {:induction false} CarriedIsSum(flows: seq<FlowRecord>, names: map<nat, string>, chosen: seq<Pair>)
    requires NamedBy(chosen, names)
    ensures SumUnder(Keys(Counted(flows), names), Weights(Counted(flows)), ChosenKeys(chosen)) == CarriedBytes(flows, chosen) as real
    decreases |flows|
  {
    if flows != [] {
      CountedStep(flows, names);
      CarriedIsSum(flows[1..], names, chosen);
      KeyChosen(flows[0], chosen, names);
    }
  }

  lemma {:induction false} QueryIsTotal(flows: seq<FlowRecord>)
    ensures Total(Weights(Counted(flows))) == QueryBytes(flows) as real
    decreases |flows|
  {
    if flows != [] {
      CountedStep(flows, map[]);
      QueryIsTotal(flows[1..]);
    }
  }

  // The graph of any choice the query may make, on every flow table: it is closed, its ids are
  // unique, it has at most 120 nodes, every row carries what the edges at it carry, and the host rows,
  // the network rows and the edges each show exactly the bytes of the flows of the chosen pairs.
  lemma GraphOfFlows(flows: seq<FlowRecord>, names: map<nat, string>, chosen: seq<Pair>)
    requires Heaviest(chosen, AllPairs(flows, names), 60)
    ensures Resolves(chosen, chosen)
    ensures UniqueNodeIds(NodeFrame(chosen)) && |NodeFrame(chosen)| <= 120
    ensures forall i, j | 0 <= i < j < |chosen| :: EdgeFrame(chosen)[i].id != EdgeFrame(chosen)[j].id
    ensures forall n | n in NodeFrame(chosen) ::
              exists p | p in chosen :: IsHostRow(n, EdgeFrame(chosen), p) || IsNetworkRow(n, EdgeFrame(chosen), p)
    ensures Sum(TaggedBytes(NodeFrame(chosen), "h:")) == Sum(TaggedBytes(NodeFrame(chosen), "a:"))
         == EdgeBytes(EdgeFrame(chosen)) == CarriedBytes(flows, chosen) as real
  {
    GraphClosed(chosen);
    ChoiceGrouped(chosen, flows, names, 60);
    ChoiceNamed(chosen, flows, names, 60);
    NodeIdsUnique(chosen);
    EdgeIdsUnique(chosen);
    NodeCount(chosen);
    forall n | n in NodeFrame(chosen) ensures exists p | p in chosen :: IsHostRow(n, EdgeFrame(chosen), p) || IsNetworkRow(n, EdgeFrame(chosen), p) {
      RowsCarryEdges(chosen, n);
    }
    BytesAgree(chosen);
    BytesCarried(flows, names, chosen, 60);
  }

  lemma BytesCarried(flows: seq<FlowRecord>, names: map<nat, string>, chosen: seq<Pair>, n: nat)
    requires Heaviest(chosen, AllPairs(flows, names), n)
    ensures Total(Bytes(chosen)) == CarriedBytes(flows, chosen) as real
  {
    ChoiceGrouped(chosen, flows, names, n);
    ChoiceNamedBy(chosen, flows, names);
    ChosenTotal(Keys(Counted(flows), names), Weights(Counted(flows)), chosen);
    CarriedIsSum(flows, names, chosen);
  }

  // What an edge shows: the sampled bytes and the number of the flows between its two ends.
  lemma EdgesOfFlows(flows: seq<FlowRecord>, names: map<nat, string>, chosen: seq<Pair>, i: nat)
    requires Heaviest(chosen, AllPairs(flows, names), 60) && i < |chosen|
    ensures
      var e := EdgeFrame(chosen)[i];
      exists f | f in flows && InQuery(f) ::
        && e.source == "h:" + f.host && e.target == "a:" + Decimal(f.asNumber) && e.id == f.host + ">" + Decimal(f.asNumber)
        && (e.bytes, e.flows) == (Between(flows, f.host, f.asNumber).0 as real, Between(flows, f.host, f.asNumber).1 as real)
  {
    assert chosen[i] in chosen;
    PairsOfFlows(flows, names, chosen[i]);
  }

  // Below the limit nothing is cut off: the graph carries the bytes of all flows of the query.
  lemma WholeGraph(flows: seq<FlowRecord>, names: map<nat, string>, chosen: seq<Pair>)
    requires Heaviest(chosen, AllPairs(flows, names), 60) && |AllPairs(flows, names)| <= 60
    ensures CarriedBytes(flows, chosen) == QueryBytes(flows)
  {
    var keys, weights := Keys(Counted(flows), names), Weights(Counted(flows));
    ElementCount(chosen);
    SubsetSize(Elements(chosen), AllPairs(flows, names));
    forall key | key in keys ensures key in ChosenKeys(chosen) {
      KeyHasPair(keys, weights, key);
      var p :| p in GroupedPairs(keys, weights) && KeyOfPair(p) == key;
      assert p in Elements(chosen);
    }
    SumUnderAll(keys, weights, ChosenKeys(chosen));
    ChoiceNamedBy(chosen, flows, names);
    CarriedIsSum(flows, names, chosen);
    QueryIsTotal(flows);
  }
}
