// Live throughput: from per-device counters and device identities to per-client rates, and from
// there to the ids of nodes and links.
module Throughput {
  import opened PromQL
  import opened VectorLaws
  import opened TopologyQueries
  import opened Reconciliation

  const DEVICE := {"device"}
  const MAC := {"mac"}

  ghost function Info(env: Env): Vector {
    Raw(env, INFO_METRIC)
  }


  ghost function Rated(env: Env): Vector {
    match Relabel(DropMetricName, Select(env, env.rates, TRAFFIC_METRIC, FILTER))
    case Ok(v) => v
    case Err(_) => map[]
  }

  // At most one selected openwrt_device_info series per device, if there is any rate to identify.
  ghost predicate DeviceInfoUnique(env: Env) {
    Rated(env) != map[] ==> UniqueOn(Info(env), DEVICE)
  }

  // The client that each rated counter of an identified device belongs to.
  ghost function Owners(env: Env): map<Labels, string> {
    map l | l in Rated(env) && HasPartner(l, Info(env), DEVICE) :: Get(Partner(l, Info(env), DEVICE), "mac")
  }

  // Every such rate, times the value of the device's identity.
  ghost function Shares(env: Env): Vector {
    Combined(Times, Rated(env), Info(env), DEVICE)
  }

  ghost function OwnedBy(shares: Vector, owner: map<Labels, string>, mac: string): Vector {
    map l | l in shares && l in owner && owner[l] == mac :: shares[l]
  }

  function MacKey(mac: string): Labels {
    if mac == "" then map[] else map["mac" := mac]
  }

  function IdKey(id: string): Labels {
    if id == "" then map[] else map["id" := id]
  }

  // ---------------------------------------------------------------- TRAFFIC_BY_MAC

  lemma RatedShape(env: Env)
    requires WellShaped(env)
    ensures Eval(RateOf(TRAFFIC_METRIC, FILTER), env) == Ok(Vec(Rated(env)))
    ensures forall l | l in Rated(env) :: METRIC_NAME !in l && "mac" !in l
  {
    var v := Select(env, env.rates, TRAFFIC_METRIC, FILTER);
    DropNameInjectiveOnMetric(v, TRAFFIC_METRIC);
    forall l | l in Rated(env) ensures METRIC_NAME !in l && "mac" !in l {
      var k :| k in v && Rewrite(DropMetricName, k) == l;
    }
  }

  lemma ShareRow(l: Labels, info: Vector)
    requires METRIC_NAME !in l && "mac" !in l && HasPartner(l, info, DEVICE)
    ensures
      var j := JoinLabels(l, info, DEVICE, ["mac"]);
      j - {"mac"} == l && GroupKey(j, MAC) == MacKey(Get(Partner(l, info, DEVICE), "mac"))
  {
    NamelessDrop(l);
    var one := Partner(l, info, DEVICE);
    assert ["mac"][1..] == [];
    assert Included(With(l, "mac", Get(one, "mac")), one, []) == With(l, "mac", Get(one, "mac"));
  }

  // What grouping needs to know about the joined counters.
  ghost predicate Labelled(owner: map<Labels, string>, name: map<Labels, Labels>) {
    && name.Keys == owner.Keys
    && OneToOne(name)
    && forall l | l in name :: GroupKey(name[l], MAC) == MacKey(owner[l])
  }

  lemma SharesLabelled(env: Env)
    requires WellShaped(env)
    ensures Labelled(Owners(env), JoinNames(Rated(env), Info(env), DEVICE, ["mac"]))
  {
    RatedShape(env);
    var name := JoinNames(Rated(env), Info(env), DEVICE, ["mac"]);
    forall l | l in name ensures name[l] - {"mac"} == l && GroupKey(name[l], MAC) == MacKey(Owners(env)[l]) {
      ShareRow(l, Info(env));
    }
    assert OneToOne(name) by {
      LeftInverse(name);
    }
  }

  lemma LeftInverse(name: map<Labels, Labels>)
    requires forall l | l in name :: name[l] - {"mac"} == l
    ensures OneToOne(name)
  {
  }

  lemma MacKeyInjective(x: string, y: string)
    ensures MacKey(x) == MacKey(y) ==> x == y
  {
    assert x != "" ==> MacKey(x)["mac"] == x;
    assert y != "" ==> MacKey(y)["mac"] == y;
  }

  lemma GroupIsOwner(shares: Vector, owner: map<Labels, string>, name: map<Labels, Labels>, mac: string)
    requires shares.Keys == owner.Keys && Labelled(owner, name)
    ensures Sum(Members(Renamed(shares, name), MacKey(mac), MAC)) == Sum(OwnedBy(shares, owner, mac))
  {
    var a, b := OwnedBy(shares, owner, mac), Members(Renamed(shares, name), MacKey(mac), MAC);
    forall l | l in shares ensures l in a <==> name[l] in b {
      MacKeyInjective(owner[l], mac);
      assert name[l] in name.Values;
    }
    SumRenamedPart(shares, name, a, b);
  }

  // The totals of all identified clients, and the vector that carries them.
  ghost function TotalsOf(shares: Vector, owner: map<Labels, string>): map<string, real> {
    map mac | mac in owner.Values :: Sum(OwnedBy(shares, owner, mac))
  }

  ghost function Totals(env: Env): map<string, real> {
    TotalsOf(Shares(env), Owners(env))
  }

  ghost function MacKeys(totals: map<string, real>): map<string, Labels> {
    map mac | mac in totals :: MacKey(mac)
  }

  // One sample per identified client, worth exactly its devices' rates.
  ghost function PerMac(totals: map<string, real>): Vector {
    MacKeysInjective(totals);
    Renamed(totals, MacKeys(totals))
  }

  lemma MacKeysInjective(totals: map<string, real>)
    ensures OneToOne(MacKeys(totals))
  {
    forall x, y | x in totals && y in totals && MacKeys(totals)[x] == MacKeys(totals)[y] ensures x == y {
      MacKeyInjective(x, y);
    }
  }

  lemma GroupsAreOwners(shares: Vector, owner: map<Labels, string>, name: map<Labels, Labels>)
    requires shares.Keys == owner.Keys && Labelled(owner, name)
    ensures GroupKeys(Renamed(shares, name), MAC) == MacKeys(TotalsOf(shares, owner)).Values
  {
    var keys := MacKeys(TotalsOf(shares, owner));
    forall k ensures k in GroupKeys(Renamed(shares, name), MAC) <==> k in keys.Values {
      if k in GroupKeys(Renamed(shares, name), MAC) {
        var j :| j in name.Values && GroupKey(j, MAC) == k;
        var l :| l in name && name[l] == j;
        assert keys[owner[l]] == k;
      }
      if k in keys.Values {
        var mac :| mac in keys && keys[mac] == k;
        var l :| l in owner && owner[l] == mac;
        assert name[l] in name.Values;
      }
    }
  }

  lemma PerOwnerRows(shares: Vector, owner: map<Labels, string>, name: map<Labels, Labels>)
    requires shares.Keys == owner.Keys && Labelled(owner, name)
    ensures AggregateBy(SumOf, Renamed(shares, name), MAC) == PerMac(TotalsOf(shares, owner))
  {
    var joined := Renamed(shares, name);
    var totals := TotalsOf(shares, owner);
    var t, p := AggregateBy(SumOf, joined, MAC), PerMac(totals);
    GroupsAreOwners(shares, owner, name);
    forall k | k in t.Keys ensures t[k] == p[k] {
      var mac :| mac in MacKeys(totals) && MacKeys(totals)[mac] == k;
      AggregateAt(SumOf, joined, MAC, k);
      GroupIsOwner(shares, owner, name, mac);
    }
    SameMap(t, p);
  }

  lemma EvalShares(env: Env)
    requires WellShaped(env)
    ensures Eval(Binary(Times, OnGroupLeft(["device"], ["mac"]), RateOf(TRAFFIC_METRIC, FILTER), SelectorOf(INFO_METRIC, [])), env)
            == (match Join(Times, Rated(env), Info(env), DEVICE, ["mac"])
                case Ok(v) => Ok(Vec(v))
                case Err(e) => Err(e))
  {
    RatedShape(env);
    EvalSelector(env, INFO_METRIC);
    assert ToSet(["device"]) == DEVICE;
  }

  lemma EvalTrafficByMac(env: Env)
    requires WellShaped(env)
    ensures Eval(TrafficByMac(), env)
            == (match Join(Times, Rated(env), Info(env), DEVICE, ["mac"])
                case Ok(v) => Ok(Vec(AggregateBy(SumOf, v, MAC)))
                case Err(e) => Err(e))
  {
    EvalShares(env);
    assert ToSet(["mac"]) == MAC;
  }

  // TRAFFIC_BY_MAC evaluates exactly when no device is identified twice, and then it distributes
  // the rates of the identified devices over the clients without losing any.
  lemma TrafficByMacMeaning(env: Env)
    requires WellShaped(env)
    ensures Eval(TrafficByMac(), env).Ok? <==> DeviceInfoUnique(env)
    ensures DeviceInfoUnique(env) ==>
              && Eval(TrafficByMac(), env) == Ok(Vec(PerMac(Totals(env))))
              && Sum(PerMac(Totals(env))) == Sum(Shares(env))
  {
    EvalTrafficByMac(env);
    SharesLabelled(env);
    if DeviceInfoUnique(env) {
      var name := JoinNames(Rated(env), Info(env), DEVICE, ["mac"]);
      var joined := Renamed(Shares(env), name);
      SumByConserves(joined, MAC);
      SumRenamed(Shares(env), joined, name);
      PerOwnerRows(Shares(env), Owners(env), name);
    }
  }

  // The rates of the devices with an identity.
  ghost function IdentifiedRates(env: Env): Vector {
    map l | l in Rated(env) && HasPartner(l, Info(env), DEVICE) :: Rated(env)[l]
  }

  // Exporters give every identity the value 1, and then it is the rates themselves that are
  // distributed: each client gets those of its own devices, and none is lost.
  lemma RatesConserved(env: Env)
    requires WellShaped(env) && DeviceInfoUnique(env)
    requires forall i | i in Info(env) :: Info(env)[i] == 1.0
    ensures Eval(TrafficByMac(), env) == Ok(Vec(PerMac(TotalsOf(IdentifiedRates(env), Owners(env)))))
    ensures Sum(PerMac(TotalsOf(IdentifiedRates(env), Owners(env)))) == Sum(IdentifiedRates(env))
  {
    TrafficByMacMeaning(env);
    SharesAreRates(env);
  }

  lemma SharesAreRates(env: Env)
    requires forall i | i in Info(env) :: Info(env)[i] == 1.0
    ensures Shares(env) == IdentifiedRates(env)
  {
    SameMap(Shares(env), IdentifiedRates(env));
  }

  // ---------------------------------------------------------------- traffic_as

  function LinkId(prefix: string, mac: string): string {
    if mac == "" then "" else prefix + ":" + mac
  }

  ghost function ToLink(prefix: string): Relabelling {
    Moved("id", prefix + ":", "mac", "")
  }

  // The totals once more, keyed by the id `prefix:mac`.
  ghost function LinkKeys(prefix: string, totals: map<string, real>): map<string, Labels> {
    map mac | mac in totals :: IdKey(LinkId(prefix, mac))
  }

  ghost function PerLink(prefix: string, totals: map<string, real>): Vector {
    LinkKeysInjective(prefix, totals);
    Renamed(totals, LinkKeys(prefix, totals))
  }

  lemma LinkKeyInjective(prefix: string, x: string, y: string)
    requires IdKey(LinkId(prefix, x)) == IdKey(LinkId(prefix, y))
    ensures x == y
  {
    assert Get(IdKey(LinkId(prefix, x)), "id") == LinkId(prefix, x);
    assert Get(IdKey(LinkId(prefix, y)), "id") == LinkId(prefix, y);
    if x != "" { assert LinkId(prefix, x)[|prefix| + 1..] == x; }
    if y != "" { assert LinkId(prefix, y)[|prefix| + 1..] == y; }
  }

  lemma LinkKeysInjective(prefix: string, totals: map<string, real>)
    ensures OneToOne(LinkKeys(prefix, totals))
  {
    var keys := LinkKeys(prefix, totals);
    forall x, y | x in keys && y in keys && keys[x] == keys[y] ensures x == y {
      LinkKeyInjective(prefix, x, y);
    }
  }

  lemma LinkRow(prefix: string, mac: string)
    ensures GroupKey(Rewrite(ToLink(prefix), MacKey(mac)), ID) == IdKey(LinkId(prefix, mac))
  {
    MovedRow(MacKey(mac), "id", prefix + ":", "mac");
    assert Get(MacKey(mac), "mac") == mac;
  }

  lemma SumSingleton<K(!new)>(v: map<K, real>, k: K)
    requires v.Keys == {k}
    ensures Sum(v) == v[k]
  {
    SumPick(v, k);
    assert v - {k} == map[];
  }

  // A renaming that gives every sample its own group.
  lemma GroupAlone(totals: map<string, real>, key: map<string, Labels>, u: Vector, link: map<string, Labels>, mac: string)
    requires totals.Keys == key.Keys == link.Keys && OneToOne(key) && OneToOne(link)
    requires u == Renamed(totals, key) && mac in totals
    requires forall m | m in totals :: GroupKey(key[m], ID) == link[m]
    ensures link[mac] in GroupKeys(u, ID)
    ensures AggregateBy(SumOf, u, ID)[link[mac]] == totals[mac]
  {
    var members := Members(u, link[mac], ID);
    assert key[mac] in key.Values;
    forall j | j in members ensures j == key[mac] {
      var m :| m in key && key[m] == j;
    }
    assert members.Keys == {key[mac]};
    AggregateAt(SumOf, u, ID, link[mac]);
    SumSingleton(members, key[mac]);
  }

  lemma GroupKeysAlone(totals: map<string, real>, key: map<string, Labels>, u: Vector, link: map<string, Labels>)
    requires totals.Keys == key.Keys == link.Keys && OneToOne(key)
    requires u == Renamed(totals, key)
    requires forall m | m in totals :: GroupKey(key[m], ID) == link[m]
    ensures GroupKeys(u, ID) == link.Values
  {
    forall k ensures k in GroupKeys(u, ID) <==> k in link.Values {
      if k in GroupKeys(u, ID) {
        var j :| j in key.Values && GroupKey(j, ID) == k;
        var m :| m in key && key[m] == j;
        assert link[m] == k;
      }
      if k in link.Values {
        var m :| m in link && link[m] == k;
        assert key[m] in key.Values;
      }
    }
  }

  lemma GroupsAlone(totals: map<string, real>, key: map<string, Labels>, u: Vector, link: map<string, Labels>)
    requires totals.Keys == key.Keys == link.Keys && OneToOne(key) && OneToOne(link)
    requires u == Renamed(totals, key)
    requires forall m | m in totals :: GroupKey(key[m], ID) == link[m]
    ensures AggregateBy(SumOf, u, ID) == Renamed(totals, link)
  {
    var s, p := AggregateBy(SumOf, u, ID), Renamed(totals, link);
    GroupKeysAlone(totals, key, u, link);
    forall k | k in s.Keys ensures s[k] == p[k] {
      var m :| m in link && link[m] == k;
      GroupAlone(totals, key, u, link, m);
    }
    SameMap(s, p);
  }

  // The names the totals carry after label_replace.
  lemma LinkNames(prefix: string, totals: map<string, real>) returns (key: map<string, Labels>)
    ensures key.Keys == totals.Keys && OneToOne(key)
    ensures Relabel(ToLink(prefix), PerMac(totals)) == Ok(Renamed(totals, key))
    ensures forall m | m in totals :: GroupKey(key[m], ID) == LinkKeys(prefix, totals)[m]
  {
    var t := PerMac(totals);
    forall l | l in t ensures "id" !in l {
      var mac :| mac in MacKeys(totals) && MacKeys(totals)[mac] == l;
    }
    ReplaceFreshLabelInjective(ToLink(prefix), t);
    key := map mac | mac in totals :: Rewrite(ToLink(prefix), MacKey(mac));
    MacKeysInjective(totals);
    RenamedTwice(totals, MacKeys(totals), Names(ToLink(prefix), t), key);
    forall m | m in totals ensures GroupKey(key[m], ID) == LinkKeys(prefix, totals)[m] {
      LinkRow(prefix, m);
    }
  }

  lemma EvalLinkNames(env: Env, prefix: string, totals: map<string, real>) returns (key: map<string, Labels>)
    requires Eval(TrafficByMac(), env) == Ok(Vec(PerMac(totals)))
    ensures key.Keys == totals.Keys && OneToOne(key)
    ensures forall m | m in totals :: GroupKey(key[m], ID) == LinkKeys(prefix, totals)[m]
    ensures Eval(MoveLabel(TrafficByMac(), "id", prefix + ":", "mac", ""), env) == Ok(Vec(Renamed(totals, key)))
  {
    EvalMoved(env, TrafficByMac(), PerMac(totals), "id", prefix + ":", "mac", "");
    key := LinkNames(prefix, totals);
  }

  lemma EvalSumById(env: Env, arg: Expr, v: Vector)
    requires Eval(arg, env) == Ok(Vec(v))
    ensures Eval(Aggregate(SumOf, ["id"], arg), env) == Ok(Vec(AggregateBy(SumOf, v, ID)))
  {
    assert ToSet(["id"]) == ID;
  }

  lemma EvalTrafficAs(env: Env, prefix: string, totals: map<string, real>)
    requires Eval(TrafficByMac(), env) == Ok(Vec(PerMac(totals)))
    ensures Eval(TrafficAs(prefix), env) == Ok(Vec(PerLink(prefix, totals)))
  {
    var key := EvalLinkNames(env, prefix, totals);
    EvalSumById(env, MoveLabel(TrafficByMac(), "id", prefix + ":", "mac", ""), Renamed(totals, key));
    LinkKeysInjective(prefix, totals);
    GroupsAlone(totals, key, Renamed(totals, key), LinkKeys(prefix, totals));
  }

  // The throughput an id `prefix:mac` stands for.
  ghost function LinkRate(prefix: string, totals: map<string, real>, id: string): real {
    if prefix + ":" < id && id[|prefix| + 1..] in totals then totals[id[|prefix| + 1..]] else 0.0
  }

  lemma LinkSample(prefix: string, totals: map<string, real>, k: Labels)
    requires k in PerLink(prefix, totals)
    ensures k == IdKey(Get(k, "id"))
    ensures Get(k, "id") != "" ==>
              prefix + ":" < Get(k, "id") && PerLink(prefix, totals)[k] == LinkRate(prefix, totals, Get(k, "id"))
  {
    var mac :| mac in totals && LinkKeys(prefix, totals)[mac] == k;
    assert Get(k, "id") == LinkId(prefix, mac);
    if mac != "" {
      assert LinkId(prefix, mac)[|prefix| + 1..] == mac;
    }
  }

  lemma LinkPresent(prefix: string, totals: map<string, real>, id: string)
    requires prefix + ":" < id && id[|prefix| + 1..] in totals
    ensures HasValue(PerLink(prefix, totals), "id", id)
  {
    var mac := id[|prefix| + 1..];
    assert LinkId(prefix, mac) == id;
    var k := LinkKeys(prefix, totals)[mac];
    assert Get(k, "id") == id;
    assert k in LinkKeys(prefix, totals).Values;
  }

  lemma NoLinkSample(prefix: string, totals: map<string, real>, id: string)
    ensures HasValue(PerLink(prefix, totals), "id", id) || LinkRate(prefix, totals, id) == 0.0
  {
    if prefix + ":" < id && id[|prefix| + 1..] in totals {
      LinkPresent(prefix, totals, id);
    }
  }

  // Vectors whose samples carry nothing but an id are unique on it.
  ghost predicate IdKeyed(v: Vector) {
    forall k | k in v :: k == IdKey(Get(k, "id"))
  }

  lemma IdKeyedUnique(v: Vector)
    requires IdKeyed(v)
    ensures UniqueOn(v, ID)
  {
    forall a, b | a in v && b in v && SameOn(a, b, ID) ensures a == b {
      SameOnOne(a, b, "id");
    }
  }

  // traffic_as(prefix) gives every id `prefix:mac` that client's throughput, and nothing else.
  lemma LinkValues(prefix: string, totals: map<string, real>, id: string)
    requires id != ""
    ensures IdKeyed(PerLink(prefix, totals))
    ensures HasValue(PerLink(prefix, totals), "id", id) ==> prefix + ":" < id
    ensures ValueOfId(PerLink(prefix, totals), id) == LinkRate(prefix, totals, id)
  {
    var s := PerLink(prefix, totals);
    forall k | k in s ensures k == IdKey(Get(k, "id")) {
      LinkSample(prefix, totals, k);
    }
    if HasValue(s, "id", id) {
      var k :| k in s && Get(k, "id") == id;
      LinkSample(prefix, totals, k);
      IdKeyedUnique(s);
      ValueOfIdUnique(s, k);
    } else {
      NoLinkSample(prefix, totals, id);
    }
  }

  lemma OtherIdNoTwin(k: Labels, v: Vector)
    requires !HasValue(v, "id", Get(k, "id"))
    ensures !HasTwin(k, v)
  {
    forall j | j in v ensures DropName(j) != DropName(k) {
      assert Get(DropName(j), "id") == Get(j, "id");
      assert Get(DropName(k), "id") == Get(k, "id");
    }
  }

  lemma OrValueLeft(a: Vector, b: Vector, id: string)
    requires IdKeyed(a) && IdKeyed(VectorOr(a, b)) && HasValue(a, "id", id)
    ensures ValueOfId(VectorOr(a, b), id) == ValueOfId(a, id)
  {
    var k :| k in a && Get(k, "id") == id;
    IdKeyedUnique(a);
    IdKeyedUnique(VectorOr(a, b));
    ValueOfIdUnique(a, k);
    ValueOfIdUnique(VectorOr(a, b), k);
  }

  lemma OrValueRight(a: Vector, b: Vector, id: string)
    requires IdKeyed(b) && IdKeyed(VectorOr(a, b)) && !HasValue(a, "id", id) && HasValue(b, "id", id)
    ensures ValueOfId(VectorOr(a, b), id) == ValueOfId(b, id)
  {
    var k :| k in b && Get(k, "id") == id;
    OtherIdNoTwin(k, a);
    IdKeyedUnique(b);
    IdKeyedUnique(VectorOr(a, b));
    ValueOfIdUnique(b, k);
    ValueOfIdUnique(VectorOr(a, b), k);
  }

  lemma OrIdKeyed(a: Vector, b: Vector)
    requires IdKeyed(a) && IdKeyed(b)
    ensures IdKeyed(VectorOr(a, b))
  {
    forall k | k in VectorOr(a, b) ensures k == IdKey(Get(k, "id")) {
      assert k in a || k in b;
    }
  }

  lemma OrValue(a: Vector, b: Vector, id: string)
    requires IdKeyed(a) && IdKeyed(b) && !(HasValue(a, "id", id) && HasValue(b, "id", id))
    ensures ValueOfId(VectorOr(a, b), id) == ValueOfId(a, id) + ValueOfId(b, id)
  {
    OrIdKeyed(a, b);
    if HasValue(a, "id", id) {
      OrValueLeft(a, b, id);
    } else if HasValue(b, "id", id) {
      OrValueRight(a, b, id);
    } else {
      forall k | k in VectorOr(a, b) ensures Get(k, "id") != id {
        assert k in a || k in b;
      }
    }
  }

  // Edges read their throughput from two such vectors with different prefixes.
  lemma TwoLinkValues(p: string, q: string, totals: map<string, real>, id: string)
    requires id != "" && !(p + ":" < id && q + ":" < id)
    ensures IdKeyed(VectorOr(PerLink(p, totals), PerLink(q, totals)))
    ensures ValueOfId(VectorOr(PerLink(p, totals), PerLink(q, totals)), id)
            == LinkRate(p, totals, id) + LinkRate(q, totals, id)
  {
    LinkValues(p, totals, id);
    LinkValues(q, totals, id);
    OrIdKeyed(PerLink(p, totals), PerLink(q, totals));
    OrValue(PerLink(p, totals), PerLink(q, totals), id);
  }
}
