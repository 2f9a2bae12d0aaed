// Laws of the vector operators that hold for every vector: when relabelling is safe, what sums
// survive grouping, and what the throughput overlay of the two node-graph frames computes.
module VectorLaws {
  import opened SetSizes
  import opened PromQL

  // ---------------------------------------------------------------- sums

  lemma {:induction false} SumPick<K(!new)>(m: map<K, real>, k: K)
    requires k in m
    ensures Sum(m) == m[k] + Sum(m - {k})
    decreases |m|
  {
    var p :| p in m && Sum(m) == m[p] + Sum(m - {p});
    if p != k {
      SumPick(m - {p}, k);
      SumPick(m - {k}, p);
      assert m - {p} - {k} == m - {k} - {p};
    }
  }

  lemma {:induction false} SumSplit<K(!new)>(m: map<K, real>, part: set<K>)
    ensures Sum(m) == Sum(map k | k in m && k in part :: m[k]) + Sum(m - part)
    decreases |m|
  {
    var inside := map k | k in m && k in part :: m[k];
    if inside == map[] {
      forall k | k in m ensures k !in part {
        assert k !in inside;
      }
      assert m - part == m;
    } else {
      var k :| k in inside;
      SumPick(m, k);
      SumPick(inside, k);
      SumSplit(m - {k}, part);
      assert (map j | j in m - {k} && j in part :: (m - {k})[j]) == inside - {k};
      assert (m - {k}) - part == m - part;
    }
  }

  // A sum does not depend on what its terms are called.
  lemma {:induction false} SumRenamed<K(!new), L(!new)>(a: map<K, real>, b: map<L, real>, name: map<K, L>)
    requires name.Keys == a.Keys && name.Values == b.Keys && OneToOne(name)
    requires forall i | i in a :: b[name[i]] == a[i]
    ensures Sum(a) == Sum(b)
    decreases |a|
  {
    if a == map[] {
      assert b == map[] by {
        if l :| l in b { assert l in name.Values; }
      }
    } else {
      var k :| k in a;
      SumPick(a, k);
      SumPick(b, name[k]);
      var shorter := name - {k};
      forall l ensures l in shorter.Values <==> l in b - {name[k]} {
        if l in b - {name[k]} {
          var j :| j in name && name[j] == l;
          assert shorter[j] == l;
        }
      }
      SumRenamed(a - {k}, b - {name[k]}, shorter);
    }
  }

  // The same for a part of the terms that corresponds under the renaming.
  lemma SumRenamedPart<K(!new), L(!new)>(v: map<K, real>, name: map<K, L>, a: map<K, real>, b: map<L, real>)
    requires v.Keys == name.Keys && OneToOne(name)
    requires a.Keys <= v.Keys && forall i | i in a :: a[i] == v[i]
    requires b.Keys <= name.Values && forall j | j in b :: b[j] == Renamed(v, name)[j]
    requires forall i | i in v :: i in a <==> name[i] in b
    ensures Sum(a) == Sum(b)
  {
    var part := map i | i in a :: name[i];
    forall j ensures j in part.Values <==> j in b.Keys {
      if j in part.Values {
        var i :| i in part && part[i] == j;
        assert i in v;
      }
      if j in b.Keys {
        var i :| i in name && name[i] == j;
        assert part[i] == j;
      }
    }
    forall i | i in a ensures b[part[i]] == a[i] {
      assert name[i] in b;
    }
    SumRenamed(a, b, part);
  }

  // `sum by (...)` neither loses nor invents anything.
  lemma {:induction false} SumByConserves(v: Vector, keep: set<string>)
    ensures Sum(AggregateBy(SumOf, v, keep)) == Sum(v)
    decreases |v|
  {
    var grouped := AggregateBy(SumOf, v, keep);
    if v == map[] {
      assert grouped == map[];
    } else {
      var l :| l in v;
      var key := GroupKey(l, keep);
      var group := Members(v, key, keep);
      var rest := v - group.Keys;
      SumSplit(v, group.Keys);
      assert (map k | k in v && k in group.Keys :: v[k]) == group;
      assert l in v && l !in rest;
      assert rest.Keys < v.Keys;
      SubsetSize(rest.Keys, v.Keys);
      RestGroups(v, key, keep);
      SumPick(grouped, key);
      SumByConserves(rest, keep);
    }
  }

  lemma SameMap<K, V>(a: map<K, V>, b: map<K, V>)
    requires a.Keys == b.Keys
    requires forall k | k in a.Keys :: a[k] == b[k]
    ensures a == b
  {
  }

  lemma AggregateAt(op: AggOp, v: Vector, keep: set<string>, key: Labels)
    requires key in GroupKeys(v, keep)
    ensures Members(v, key, keep) != map[]
    ensures AggregateBy(op, v, keep)[key] == Reduce(op, Members(v, key, keep))
  {
    var l :| l in v && GroupKey(l, keep) == key;
    assert l in Members(v, key, keep);
  }

  lemma RestGroups(v: Vector, key: Labels, keep: set<string>)
    ensures AggregateBy(SumOf, v - Members(v, key, keep).Keys, keep) == AggregateBy(SumOf, v, keep) - {key}
  {
    var rest := v - Members(v, key, keep).Keys;
    var a, b := AggregateBy(SumOf, rest, keep), AggregateBy(SumOf, v, keep);
    RestGroupKeys(v, key, keep);
    forall k | k in a.Keys ensures k in b && a[k] == b[k] {
      AggregateAt(SumOf, rest, keep, k);
      AggregateAt(SumOf, v, keep, k);
      RestMembers(v, key, k, keep);
    }
    SameMap(a, b - {key});
  }

  lemma RestGroupKeys(v: Vector, key: Labels, keep: set<string>)
    ensures GroupKeys(v - Members(v, key, keep).Keys, keep) == GroupKeys(v, keep) - {key}
  {
    var rest := v - Members(v, key, keep).Keys;
    assert forall l | l in v :: l in rest <==> GroupKey(l, keep) != key;
    forall k | k in GroupKeys(v, keep) && k != key ensures k in GroupKeys(rest, keep) {
      var l :| l in v && GroupKey(l, keep) == k;
      assert l in rest;
    }
  }

  lemma RestMembers(v: Vector, key: Labels, other: Labels, keep: set<string>)
    requires other != key
    ensures Members(v - Members(v, key, keep).Keys, other, keep) == Members(v, other, keep)
  {
  }

  // ---------------------------------------------------------------- relabelling

  // Writing a label that no series carries cannot make two series collide.
  lemma ReplaceFreshLabelInjective(r: Relabelling, v: Vector)
    requires r.Replace?
    requires forall l | l in v :: r.dst !in l
    ensures Injective(r, v)
  {
    forall a, b | a in v && b in v && Rewrite(r, a) == Rewrite(r, b) ensures a == b {
      RewriteUndone(r, a);
      RewriteUndone(r, b);
    }
  }

  lemma RewriteUndone(r: Relabelling, l: Labels)
    requires r.Replace? && r.dst !in l
    ensures Rewrite(r, l) - {r.dst} == l
  {
  }

  // Series of one metric stay distinct when the metric name is dropped.
  lemma DropNameInjectiveOnMetric(v: Vector, metric: string)
    requires metric != ""
    requires forall l | l in v :: Get(l, METRIC_NAME) == metric
    ensures Injective(DropMetricName, v)
  {
    forall a, b | a in v && b in v && DropName(a) == DropName(b) ensures a == b {
      assert DropName(a)[METRIC_NAME := metric] == a;
      assert DropName(b)[METRIC_NAME := metric] == b;
    }
  }

  // ---------------------------------------------------------------- throughput overlay

  const ID := {"id"}

  ghost predicate HasValue(v: Vector, name: string, x: string) {
    exists k | k in v :: Get(k, name) == x
  }

  lemma PartnerOnOne(l: Labels, v: Vector, name: string)
    ensures ToSet([name]) == {name}
    ensures HasPartner(l, v, {name}) <==> HasValue(v, name, Get(l, name))
  {
    forall k ensures SameOn(l, k, {name}) <==> Get(l, name) == Get(k, name) {
      SameOnOne(l, k, name);
    }
  }

  // The value a vector gives to an id, or 0 when it has no sample for it.
  ghost function ValueOfId(v: Vector, id: string): real {
    if HasValue(v, "id", id) then
      var k :| k in v && Get(k, "id") == id;
      v[k]
    else 0.0
  }

  lemma ValueOfIdUnique(v: Vector, k: Labels)
    requires k in v && UniqueOn(v, ID)
    ensures ValueOfId(v, Get(k, "id")) == v[k]
  {
    forall j | j in v && Get(j, "id") == Get(k, "id") ensures j == k {
      SameOnOne(j, k, "id");
    }
  }

  lemma PartnerById(l: Labels, v: Vector)
    ensures HasPartner(l, v, ID) <==> HasValue(v, "id", Get(l, "id"))
    ensures HasPartner(l, v, ID) && UniqueOn(v, ID) ==> v[Partner(l, v, ID)] == ValueOfId(v, Get(l, "id"))
  {
    forall k ensures SameOn(l, k, ID) <==> Get(l, "id") == Get(k, "id") {
      SameOnOne(l, k, "id");
    }
    if HasPartner(l, v, ID) && UniqueOn(v, ID) {
      ValueOfIdUnique(v, Partner(l, v, ID));
    }
  }

  ghost function Zeroed(base: Vector): Result<Vector> {
    var z :- Relabel(DropMetricName, base);
    Ok(Scaled(Times, z, 0.0))
  }

  ghost function Overlay(base: Vector, traffic: Vector): Result<Vector> {
    var z :- Zeroed(base);
    var j :- Join(Plus, z, traffic, ID, []);
    Ok(VectorOr(j, z))
  }

  // What the overlay does to a frame, said without its arithmetic.
  ghost predicate Overlaid(base: Vector, traffic: Vector, out: Vector) {
    && out.Keys == (set l | l in base :: DropName(l))
    && forall l | l in base :: out[DropName(l)] == ValueOfId(traffic, Get(l, "id"))
  }

  ghost predicate Nameless(v: Vector) {
    forall l | l in v :: METRIC_NAME !in l
  }

  lemma NamelessDrop(l: Labels)
    requires METRIC_NAME !in l
    ensures DropName(l) == l
  {
  }

  lemma JoinRow(l: Labels, traffic: Vector)
    requires METRIC_NAME !in l && UniqueOn(traffic, ID)
    ensures HasPartner(l, traffic, ID) <==> HasValue(traffic, "id", Get(l, "id"))
    ensures HasPartner(l, traffic, ID) ==>
              && JoinLabels(l, traffic, ID, []) == l
              && traffic[Partner(l, traffic, ID)] == ValueOfId(traffic, Get(l, "id"))
  {
    NamelessDrop(l);
    PartnerById(l, traffic);
  }

  lemma RenamedTwice<K(!new), L(!new), M(!new)>(v: map<K, real>, f: map<K, L>, g: map<L, M>, fg: map<K, M>)
    requires v.Keys == f.Keys == fg.Keys && f.Values == g.Keys && OneToOne(f) && OneToOne(g)
    requires forall k | k in v :: fg[k] == g[f[k]]
    ensures OneToOne(fg) && Renamed(Renamed(v, f), g) == Renamed(v, fg)
  {
    var a, b := Renamed(Renamed(v, f), g), Renamed(v, fg);
    forall m ensures m in a.Keys <==> m in b.Keys {
      if m in a.Keys {
        var l :| l in g && g[l] == m;
        var k :| k in f && f[k] == l;
        assert fg[k] == m;
      }
      if m in b.Keys {
        var k :| k in fg && fg[k] == m;
        assert g[f[k]] == m;
      }
    }
    forall m | m in b.Keys ensures a[m] == b[m] {
      var k :| k in fg && fg[k] == m;
    }
    SameMap(a, b);
  }

  lemma IdentityRenaming<K(!new)>(v: map<K, real>, name: map<K, K>)
    requires v.Keys == name.Keys && forall k | k in name :: name[k] == k
    ensures OneToOne(name) && Renamed(v, name) == v
  {
    forall k ensures k in name.Values <==> k in v.Keys {
      if k in v.Keys {
        assert name[k] == k;
      }
    }
    forall k | k in v ensures Renamed(v, name)[k] == v[k] {
      assert name[k] == k;
    }
    SameMap(Renamed(v, name), v);
  }

  ghost predicate JoinedById(z: Vector, traffic: Vector, j: Vector) {
    && (forall l :: l in j <==> l in z && HasValue(traffic, "id", Get(l, "id")))
    && (forall l | l in j :: j[l] == z[l] + ValueOfId(traffic, Get(l, "id")))
  }

  lemma JoinNamesById(z: Vector, traffic: Vector)
    requires Nameless(z) && UniqueOn(traffic, ID)
    ensures forall l | l in JoinNames(z, traffic, ID, []) :: JoinNames(z, traffic, ID, [])[l] == l
  {
    var name := JoinNames(z, traffic, ID, []);
    forall l | l in name ensures name[l] == l {
      JoinRow(l, traffic);
    }
  }

  lemma CombinedById(z: Vector, traffic: Vector)
    requires Nameless(z) && UniqueOn(traffic, ID)
    ensures JoinedById(z, traffic, Combined(Plus, z, traffic, ID))
  {
    var c := Combined(Plus, z, traffic, ID);
    forall l | l in z ensures
      && (l in c <==> HasValue(traffic, "id", Get(l, "id")))
      && (l in c ==> c[l] == z[l] + ValueOfId(traffic, Get(l, "id")))
    {
      JoinRow(l, traffic);
    }
  }

  lemma EmptyJoin(op: BinOp, one: Vector, names: set<string>, carried: seq<string>)
    requires op.Plus? || op.Times?
    ensures Join(op, map[], one, names, carried) == Ok(map[])
  {
    assert JoinNames(map[], one, names, carried) == map[];
    assert Combined(op, map[], one, names) == map[];
    IdentityRenaming<Labels>(map[], map[]);
  }

  lemma JoinById(z: Vector, traffic: Vector)
    requires Nameless(z) && (z == map[] || UniqueOn(traffic, ID))
    ensures Join(Plus, z, traffic, ID, []).Ok?
    ensures JoinedById(z, traffic, Join(Plus, z, traffic, ID, []).value)
  {
    if z == map[] {
      EmptyJoin(Plus, traffic, ID, []);
    } else {
      JoinByUniqueId(z, traffic);
    }
  }

  lemma JoinByUniqueId(z: Vector, traffic: Vector)
    requires Nameless(z) && UniqueOn(traffic, ID)
    ensures Join(Plus, z, traffic, ID, []).Ok?
    ensures JoinedById(z, traffic, Join(Plus, z, traffic, ID, []).value)
  {
    JoinNamesById(z, traffic);
    CombinedById(z, traffic);
    IdentityRenaming(Combined(Plus, z, traffic, ID), JoinNames(z, traffic, ID, []));
  }

  lemma TwinIsSelf(l: Labels, j: Vector)
    requires METRIC_NAME !in l && Nameless(j)
    ensures HasTwin(l, j) <==> l in j
  {
    NamelessDrop(l);
    if HasTwin(l, j) {
      var k :| k in j && DropName(k) == DropName(l);
      NamelessDrop(k);
    }
  }

  lemma OrRestores(j: Vector, z: Vector)
    requires Nameless(z) && j.Keys <= z.Keys
    ensures VectorOr(j, z) == z + j
  {
    var out := VectorOr(j, z);
    forall l ensures l in out.Keys <==> l in (z + j).Keys {
      if l in z {
        TwinIsSelf(l, j);
      }
    }
    SameMap(out, z + j);
  }

  lemma ZeroedRows(base: Vector)
    requires Injective(DropMetricName, base)
    ensures Zeroed(base).Ok? && Nameless(Zeroed(base).value)
    ensures Zeroed(base).value.Keys == (set l | l in base :: DropName(l))
    ensures forall l | l in Zeroed(base).value :: Zeroed(base).value[l] == 0.0
  {
    forall l | l in base ensures Rewrite(DropMetricName, l) == DropName(l) && METRIC_NAME !in DropName(l) {
    }
  }

  ghost predicate Matchable(base: Vector, traffic: Vector) {
    Injective(DropMetricName, base) && (base == map[] || UniqueOn(traffic, ID))
  }

  lemma ZeroedEmpty(base: Vector)
    requires Injective(DropMetricName, base)
    ensures Zeroed(base).Ok? && (Zeroed(base).value == map[] <==> base == map[])
  {
    ZeroedRows(base);
    if l :| l in base {
      assert DropName(l) in Zeroed(base).value;
    }
  }

  lemma OverlayAccepted(base: Vector, traffic: Vector)
    ensures Overlay(base, traffic).Ok? <==> Matchable(base, traffic)
  {
    if Injective(DropMetricName, base) {
      ZeroedEmpty(base);
      ZeroedRows(base);
      if base == map[] || UniqueOn(traffic, ID) {
        JoinById(Zeroed(base).value, traffic);
      }
    }
  }

  lemma OverlayValue(base: Vector, traffic: Vector) returns (z: Vector, j: Vector)
    requires Matchable(base, traffic) && Overlay(base, traffic).Ok?
    ensures Zeroed(base) == Ok(z) && JoinedById(z, traffic, j)
    ensures Overlay(base, traffic) == Ok(z + j)
  {
    ZeroedRows(base);
    ZeroedEmpty(base);
    z := Zeroed(base).value;
    JoinById(z, traffic);
    j := Join(Plus, z, traffic, ID, []).value;
    OrRestores(j, z);
  }

  lemma RowsOverlaid(base: Vector, traffic: Vector, z: Vector, j: Vector)
    requires z.Keys == (set l | l in base :: DropName(l)) && forall d | d in z :: z[d] == 0.0
    requires JoinedById(z, traffic, j)
    ensures Overlaid(base, traffic, z + j)
  {
    forall l | l in base ensures (z + j)[DropName(l)] == ValueOfId(traffic, Get(l, "id")) {
      OverlayRow(l, z, j, traffic);
    }
    assert (z + j).Keys == z.Keys;
  }

  lemma OverlayRows(base: Vector, traffic: Vector)
    requires Matchable(base, traffic) && Overlay(base, traffic).Ok?
    ensures Overlaid(base, traffic, Overlay(base, traffic).value)
  {
    var z, j := OverlayValue(base, traffic);
    ZeroedRows(base);
    RowsOverlaid(base, traffic, z, j);
  }

  // The overlay never fails for want of traffic: it fails only on an ambiguous id in the traffic
  // of a frame that has rows, and otherwise keeps every row at its own throughput, or at 0.
  lemma OverlayTotal(base: Vector, traffic: Vector)
    ensures Overlay(base, traffic).Ok? <==> Injective(DropMetricName, base) && (base == map[] || UniqueOn(traffic, ID))
    ensures Overlay(base, traffic).Ok? ==> Overlaid(base, traffic, Overlay(base, traffic).value)
  {
    OverlayAccepted(base, traffic);
    if Matchable(base, traffic) {
      OverlayRows(base, traffic);
    }
  }

  lemma OverlayRow(l: Labels, z: Vector, j: Vector, traffic: Vector)
    requires DropName(l) in z && z[DropName(l)] == 0.0
    requires JoinedById(z, traffic, j)
    ensures Get(DropName(l), "id") == Get(l, "id")
    ensures (z + j)[DropName(l)] == ValueOfId(traffic, Get(l, "id"))
  {
    assert DropName(l) in j <==> HasValue(traffic, "id", Get(DropName(l), "id"));
  }
}
