// Per-router choice between hostapd counters, Wi-Fi byte counters and Wi-Fi bit rates.
module WifiSources {
  import opened PromQL
  import opened VectorLaws
  import opened TopologyQueries
  import opened Reconciliation
  import opened PromText
  import opened PromTextLaws
  import opened TopologyText

  const ROUTER := {"job", "router"}
  const ROUTER_LABELS := ["job", "router"]

  // ---------------------------------------------------------------- the choice, on vectors

  ghost function Fallback(h: Vector, b: Vector): Vector {
    VectorOr(h, VectorUnless(b, h, ROUTER))
  }

  ghost function RateSources(h: Vector, b: Vector, k: Vector): Vector {
    VectorOr(Fallback(h, b), VectorUnless(k, VectorOr(h, b), ROUTER))
  }

  // The first source that has any series for the (job, router) of `l`.
  ghost function FirstSource(h: Vector, b: Vector, k: Vector, l: Labels): Vector {
    if HasPartner(l, h, ROUTER) then h else if HasPartner(l, b, ROUTER) then b else k
  }

  lemma TwinIsPartner(l: Labels, v: Vector)
    requires HasTwin(l, v)
    ensures HasPartner(l, v, ROUTER)
  {
    var j :| j in v && DropName(j) == DropName(l);
    forall n | n in ROUTER ensures Get(l, n) == Get(j, n) {
      assert Get(DropName(j), n) == Get(j, n) && Get(DropName(l), n) == Get(l, n);
    }
    assert SameOn(l, j, ROUTER);
  }

  lemma SelfPartner(l: Labels, v: Vector)
    requires l in v
    ensures HasPartner(l, v, ROUTER)
  {
    assert SameOn(l, l, ROUTER);
  }

  lemma PartnerChain(l: Labels, j: Labels, v: Vector)
    requires SameOn(l, j, ROUTER) && HasPartner(j, v, ROUTER)
    ensures HasPartner(l, v, ROUTER)
  {
    var i :| i in v && SameOn(j, i, ROUTER);
    forall n | n in ROUTER ensures Get(l, n) == Get(i, n) {
      assert Get(l, n) == Get(j, n);
    }
    assert SameOn(l, i, ROUTER);
  }

  // `or` never hides a router: what it drops has a twin of the same router on the left.
  lemma OrCovers(l: Labels, h: Vector, b: Vector)
    ensures HasPartner(l, VectorOr(h, b), ROUTER) <==> HasPartner(l, h, ROUTER) || HasPartner(l, b, ROUTER)
  {
    if HasPartner(l, b, ROUTER) {
      var j :| j in b && SameOn(l, j, ROUTER);
      if j !in VectorOr(h, b) {
        TwinIsPartner(j, h);
        PartnerChain(l, j, h);
      }
    }
  }

  lemma FallbackRow(h: Vector, b: Vector, l: Labels)
    ensures l in Fallback(h, b) <==> l in (if HasPartner(l, h, ROUTER) then h else b)
    ensures l in Fallback(h, b) ==> Fallback(h, b)[l] == (if HasPartner(l, h, ROUTER) then h else b)[l]
  {
    if l in h {
      SelfPartner(l, h);
    }
    if HasTwin(l, h) {
      TwinIsPartner(l, h);
    }
  }

  lemma FallbackCovers(l: Labels, h: Vector, b: Vector)
    requires HasPartner(l, Fallback(h, b), ROUTER)
    ensures HasPartner(l, h, ROUTER) || HasPartner(l, b, ROUTER)
  {
    var j :| j in Fallback(h, b) && SameOn(l, j, ROUTER);
    assert j in h || j in b;
  }

  // Every result series comes from the first source that covers its router, with that source's
  // value, and every series of that source is there: no router mixes sources.
  lemma OneSourcePerRouter(h: Vector, b: Vector, k: Vector, l: Labels)
    ensures l in RateSources(h, b, k) <==> l in FirstSource(h, b, k, l)
    ensures l in RateSources(h, b, k) ==> RateSources(h, b, k)[l] == FirstSource(h, b, k, l)[l]
  {
    var f := Fallback(h, b);
    FallbackRow(h, b, l);
    OrCovers(l, h, b);
    if HasPartner(l, h, ROUTER) || HasPartner(l, b, ROUTER) {
    } else {
      if HasTwin(l, f) {
        TwinIsPartner(l, f);
        FallbackCovers(l, h, b);
      }
      if l in f {
        SelfPartner(l, f);
        FallbackCovers(l, h, b);
      }
    }
  }

  // Two result series of one router come from one source.
  lemma SameRouterSameSource(h: Vector, b: Vector, k: Vector, x: Labels, y: Labels)
    requires SameOn(x, y, ROUTER) && SameOn(y, x, ROUTER)
    ensures FirstSource(h, b, k, x) == FirstSource(h, b, k, y)
  {
    if HasPartner(x, h, ROUTER) { PartnerChain(y, x, h); }
    if HasPartner(y, h, ROUTER) { PartnerChain(x, y, h); }
    if HasPartner(x, b, ROUTER) { PartnerChain(y, x, b); }
    if HasPartner(y, b, ROUTER) { PartnerChain(x, y, b); }
  }

  // ---------------------------------------------------------------- the queries

  // Rename mac to station and ifname to vif.
  function StationLabels(e: Expr): Expr {
    MoveLabel(MoveLabel(e, "station", "", "mac", ""), "vif", "", "ifname", "")
  }

  function UnlessRouter(l: Expr, r: Expr): Expr {
    Binary(Unless, On(ROUTER_LABELS), l, r)
  }

  function FallbackExpr(h: Expr, w: Expr): Expr {
    OrElse(h, UnlessRouter(w, h))
  }

  function RateExpr(h: Expr, b: Expr, k: Expr): Expr {
    OrElse(OrElse(h, UnlessRouter(b, h)), UnlessRouter(k, OrElse(h, b)))
  }

  function StationFallbackExpr(hostapd: string, wifi: string): Expr {
    FallbackExpr(SelectorOf(hostapd, []), StationLabels(SelectorOf(wifi, [])))
  }

  function Bits(metric: string): Expr {
    Binary(Times, NoMatching, RateOf(metric, FILTER), Number(8.0))
  }

  function Kilobits(metric: string): Expr {
    Binary(Times, NoMatching, SelectorOf(metric, []), Number(1000.0))
  }

  function StationRateExpr(hostapd: string, bytes: string, kbits: string): Expr {
    RateExpr(Bits(hostapd), StationLabels(Bits(bytes)), StationLabels(Kilobits(kbits)))
  }

  lemma RouterLabels()
    ensures ToSet(ROUTER_LABELS) == ROUTER
  {
    assert ROUTER_LABELS[0] == "job" && ROUTER_LABELS[1] == "router";
  }

  lemma BinaryIsUnless(x: Vector, y: Vector)
    ensures EvalBinary(Unless, On(ROUTER_LABELS), Vec(x), Vec(y)) == Ok(Vec(VectorUnless(x, y, ToSet(ROUTER_LABELS))))
  {
  }

  lemma EvalUnlessRouter(env: Env, l: Expr, r: Expr, x: Vector, y: Vector)
    requires Eval(l, env) == Ok(Vec(x)) && Eval(r, env) == Ok(Vec(y))
    ensures Eval(UnlessRouter(l, r), env) == Ok(Vec(VectorUnless(x, y, ROUTER)))
  {
    EvalBinaryStep(env, Unless, On(ROUTER_LABELS), l, r, Vec(x), Vec(y));
    BinaryIsUnless(x, y);
    RouterLabels();
  }

  lemma EvalFallback(env: Env, h: Expr, w: Expr, x: Vector, y: Vector)
    requires Eval(h, env) == Ok(Vec(x)) && Eval(w, env) == Ok(Vec(y))
    ensures Eval(FallbackExpr(h, w), env) == Ok(Vec(Fallback(x, y)))
  {
    EvalUnlessRouter(env, w, h, y, x);
    EvalOrElse(env, h, UnlessRouter(w, h), x, VectorUnless(y, x, ROUTER));
  }

  lemma EvalRateSources(env: Env, h: Expr, b: Expr, k: Expr, x: Vector, y: Vector, z: Vector)
    requires Eval(h, env) == Ok(Vec(x)) && Eval(b, env) == Ok(Vec(y)) && Eval(k, env) == Ok(Vec(z))
    ensures Eval(RateExpr(h, b, k), env) == Ok(Vec(RateSources(x, y, z)))
  {
    EvalFallback(env, h, b, x, y);
    EvalOrElse(env, h, b, x, y);
    EvalUnlessRouter(env, k, OrElse(h, b), z, VectorOr(x, y));
    EvalOrElse(env, FallbackExpr(h, b), UnlessRouter(k, OrElse(h, b)), Fallback(x, y), VectorUnless(z, VectorOr(x, y), ROUTER));
  }

  lemma EvalCopyLabel(env: Env, e: Expr, v: Vector, dst: string, src: string)
    requires Eval(e, env) == Ok(Vec(v))
    requires forall l | l in v :: dst !in l
    ensures OneToOne(Names(Moved(dst, "", src, ""), v))
    ensures Eval(MoveLabel(e, dst, "", src, ""), env) == Ok(Vec(Renamed(v, Names(Moved(dst, "", src, ""), v))))
  {
    EvalMoved(env, e, v, dst, "", src, "");
    ReplaceFreshLabelInjective(Moved(dst, "", src, ""), v);
  }

  // A station series and the series it becomes.
  ghost predicate RenamedStation(l: Labels, j: Labels) {
    SameOn(l, j, ROUTER) && Get(j, "station") == Get(l, "mac") && Get(j, "vif") == Get(l, "ifname")
  }

  lemma StationNames(v: Vector, name: map<Labels, Labels>)
    requires name == Names(Moved("station", "", "mac", ""), v)
    requires forall l | l in v :: "station" !in l && "vif" !in l
    ensures forall j | j in name.Values :: "vif" !in j
  {
    forall j | j in name.Values ensures "vif" !in j {
      var l :| l in name && name[l] == j;
      MovedRow(l, "station", "", "mac");
    }
  }

  ghost function StationStep(v: Vector): map<Labels, Labels> {
    Names(Moved("station", "", "mac", ""), v)
  }

  ghost function VifStep(v: Vector): map<Labels, Labels> {
    Names(Moved("vif", "", "ifname", ""), v)
  }

  ghost predicate Unlabelled(v: Vector) {
    forall l | l in v :: "station" !in l && "vif" !in l
  }

  lemma StationStepSafe(v: Vector)
    requires Unlabelled(v)
    ensures OneToOne(StationStep(v)) && OneToOne(VifStep(Renamed(v, StationStep(v))))
    ensures forall j | j in Renamed(v, StationStep(v)) :: "vif" !in j
  {
    ReplaceFreshLabelInjective(Moved("station", "", "mac", ""), v);
    StationNames(v, StationStep(v));
    ReplaceFreshLabelInjective(Moved("vif", "", "ifname", ""), Renamed(v, StationStep(v)));
  }

  // What wifi_station_label_expr makes of a source.
  ghost function Stations(v: Vector): Vector
    requires Unlabelled(v)
  {
    StationStepSafe(v);
    Renamed(Renamed(v, StationStep(v)), VifStep(Renamed(v, StationStep(v))))
  }

  lemma EvalStationLabels(env: Env, e: Expr, v: Vector)
    requires Eval(e, env) == Ok(Vec(v)) && Unlabelled(v)
    ensures Eval(StationLabels(e), env) == Ok(Vec(Stations(v)))
  {
    StationStepSafe(v);
    EvalCopyLabel(env, e, v, "station", "mac");
    EvalCopyLabel(env, MoveLabel(e, "station", "", "mac", ""), Renamed(v, StationStep(v)), "vif", "ifname");
  }

  // Renaming never merges two stations, as long as the source does not carry the new names.
  lemma StationsKeepSeries(v: Vector) returns (name: map<Labels, Labels>)
    requires Unlabelled(v)
    ensures name.Keys == v.Keys && OneToOne(name) && Stations(v) == Renamed(v, name)
    ensures forall l | l in v :: RenamedStation(l, name[l])
  {
    StationStepSafe(v);
    var second := VifStep(Renamed(v, StationStep(v)));
    name := map l | l in v :: second[StationStep(v)[l]];
    RenamedTwice(v, StationStep(v), second, name);
    forall l | l in v ensures RenamedStation(l, name[l]) {
      StationRow(l);
    }
  }

  lemma StationRow(l: Labels)
    requires "station" !in l && "vif" !in l
    ensures
      RenamedStation(l, Rewrite(Moved("vif", "", "ifname", ""), Rewrite(Moved("station", "", "mac", ""), l)))
  {
    var i := Rewrite(Moved("station", "", "mac", ""), l);
    MovedRow(l, "station", "", "mac");
    assert Get(i, "ifname") == Get(l, "ifname") && Get(i, "station") == Get(l, "mac") && Get(i, "vif") == "";
    MovedRow(i, "vif", "", "ifname");
    var j := Rewrite(Moved("vif", "", "ifname", ""), i);
    assert Get(j, "job") == Get(l, "job") && Get(j, "router") == Get(l, "router");
  }

  // ---------------------------------------------------------------- the three real sources

  ghost function Series(env: Env, v: Vector, metric: string): Vector {
    Select(env, v, metric, FILTER)
  }

  // The series of one metric without its name, each value times c.
  ghost predicate ScaledSeries(v: Vector, c: real, out: Vector) {
    && out.Keys == (set l | l in v :: DropName(l))
    && forall l | l in v :: out[DropName(l)] == v[l] * c
  }

  lemma EvalDropped(v: Vector, metric: string) returns (out: Vector)
    requires metric != "" && forall l | l in v :: Get(l, METRIC_NAME) == metric
    ensures Relabel(DropMetricName, v) == Ok(out) && Nameless(out)
    ensures ScaledSeries(v, 1.0, out)
  {
    DropNameInjectiveOnMetric(v, metric);
    out := Renamed(v, Names(DropMetricName, v));
    forall l | l in v ensures Names(DropMetricName, v)[l] == DropName(l) && METRIC_NAME !in DropName(l) {
    }
    forall k ensures k in out.Keys <==> k in (set l | l in v :: DropName(l)) {
    }
  }

  lemma DroppedAgain(v: Vector)
    requires Nameless(v)
    ensures Relabel(DropMetricName, v) == Ok(v)
  {
    forall l | l in v ensures Names(DropMetricName, v)[l] == l {
      NamelessDrop(l);
    }
    IdentityRenaming(v, Names(DropMetricName, v));
  }

  lemma EvalTimes(env: Env, e: Expr, v: Vector, c: real, u: Vector)
    requires Eval(e, env) == Ok(Vec(v)) && Relabel(DropMetricName, v) == Ok(u)
    ensures Eval(Binary(Times, NoMatching, e, Number(c)), env) == Ok(Vec(Scaled(Times, u, c)))
  {
    EvalBinaryStep(env, Times, NoMatching, e, Number(c), Vec(v), Scalar(c));
    BinaryIsTimes(v, c);
    ScalarTimes(v, c, u);
  }

  lemma BinaryIsTimes(v: Vector, c: real)
    ensures EvalBinary(Times, NoMatching, Vec(v), Scalar(c)) == EvalScalarArithmetic(Times, v, c)
  {
  }

  lemma ScalarTimes(v: Vector, c: real, u: Vector)
    requires Relabel(DropMetricName, v) == Ok(u)
    ensures EvalScalarArithmetic(Times, v, c) == Ok(Vec(Scaled(Times, u, c)))
  {
  }

  lemma TimesScaled(v: Vector, u: Vector, c: real)
    requires ScaledSeries(v, 1.0, u)
    ensures ScaledSeries(v, c, Scaled(Times, u, c))
  {
    assert Scaled(Times, u, c).Keys == u.Keys;
  }

  // rate(...) * 8 never fails, and carries every rated series in bits.
  lemma EvalBits(env: Env, metric: string) returns (out: Vector)
    requires metric != ""
    ensures Eval(Bits(metric), env) == Ok(Vec(out)) && Nameless(out)
    ensures ScaledSeries(Series(env, env.rates, metric), 8.0, out)
  {
    var v := Series(env, env.rates, metric);
    var u := EvalDropped(v, metric);
    assert Eval(RateOf(metric, FILTER), env) == Ok(Vec(u));
    DroppedAgain(u);
    EvalTimes(env, RateOf(metric, FILTER), u, 8.0, u);
    TimesScaled(v, u, 8.0);
    out := Scaled(Times, u, 8.0);
  }

  // ... * 1000 on the bit rates the driver reports.
  lemma EvalKilobits(env: Env, metric: string) returns (out: Vector)
    requires metric != ""
    ensures Eval(Kilobits(metric), env) == Ok(Vec(out)) && Nameless(out)
    ensures ScaledSeries(Series(env, env.samples, metric), 1000.0, out)
  {
    var v := Series(env, env.samples, metric);
    EvalSelector(env, metric);
    var u := EvalDropped(v, metric);
    EvalTimes(env, SelectorOf(metric, []), v, 1000.0, u);
    TimesScaled(v, u, 1000.0);
    out := Scaled(Times, u, 1000.0);
  }

  lemma ScaledUnlabelled(v: Vector, c: real, out: Vector)
    requires Unlabelled(v) && ScaledSeries(v, c, out)
    ensures Unlabelled(out)
  {
    forall k | k in out ensures "station" !in k && "vif" !in k {
      var l :| l in v && DropName(l) == k;
    }
  }

  // On every scrape whose Wi-Fi series lack the labels that are added, the rate query evaluates: per
  // router to the hostapd counters in bits, else to the renamed Wi-Fi counters in bits, else to the
  // renamed bit rates.
  lemma StationRates(env: Env, hostapd: string, bytes: string, kbits: string) returns (h: Vector, b: Vector, k: Vector)
    requires hostapd != "" && bytes != "" && kbits != ""
    requires Unlabelled(Series(env, env.rates, bytes)) && Unlabelled(Series(env, env.samples, kbits))
    ensures ScaledSeries(Series(env, env.rates, hostapd), 8.0, h)
    ensures ScaledSeries(Series(env, env.rates, bytes), 8.0, b) && Unlabelled(b)
    ensures ScaledSeries(Series(env, env.samples, kbits), 1000.0, k) && Unlabelled(k)
    ensures Eval(StationRateExpr(hostapd, bytes, kbits), env) == Ok(Vec(RateSources(h, Stations(b), Stations(k))))
  {
    h := EvalBits(env, hostapd);
    b := EvalBits(env, bytes);
    k := EvalKilobits(env, kbits);
    ScaledUnlabelled(Series(env, env.rates, bytes), 8.0, b);
    ScaledUnlabelled(Series(env, env.samples, kbits), 1000.0, k);
    EvalStationLabels(env, Bits(bytes), b);
    EvalStationLabels(env, Kilobits(kbits), k);
    EvalRateSources(env, Bits(hostapd), StationLabels(Bits(bytes)), StationLabels(Kilobits(kbits)), h, Stations(b), Stations(k));
  }

  // The signal query: the hostapd series of a router, or its renamed Wi-Fi series.
  lemma StationFallback(env: Env, hostapd: string, wifi: string)
    requires Unlabelled(Series(env, env.samples, wifi))
    ensures Eval(StationFallbackExpr(hostapd, wifi), env)
         == Ok(Vec(Fallback(Series(env, env.samples, hostapd), Stations(Series(env, env.samples, wifi)))))
  {
    EvalSelector(env, hostapd);
    EvalSelector(env, wifi);
    var h, w := Series(env, env.samples, hostapd), Series(env, env.samples, wifi);
    EvalStationLabels(env, SelectorOf(wifi, []), w);
    EvalFallback(env, SelectorOf(hostapd, []), StationLabels(SelectorOf(wifi, [])), h, Stations(w));
  }

  // ---------------------------------------------------------------- the texts

  // `h or (b unless on(job, router) h) or (k unless on(job, router) (h or b))`: the operands stand
  // without parentheses of their own.
  function RateSourcesText(h: Text, b: Text, k: Text): Text {
    BinaryText(Or, NoMatching,
               BinaryText(Or, NoMatching, h, Parens(BinaryText(Unless, On(ROUTER_LABELS), b, h))),
               Parens(BinaryText(Unless, On(ROUTER_LABELS), k, Parens(BinaryText(Or, NoMatching, h, b)))))
  }

  // Safe for every operand text that binds tighter than `unless`, so a bare `rate(...) * 8` will do.
  lemma RateSourcesReads(h: Text, b: Text, k: Text, x: Expr, y: Expr, z: Expr)
    requires ReadsAt(3, h, x) && ReadsAt(3, b, y) && ReadsAt(3, k, z)
    ensures ReadsAs(RateSourcesText(h, b, k), RateExpr(x, y, z))
  {
    ParensUnless(b, h, y, x);
    Loosen(3, 2, b, y);
    Loosen(3, 1, h, x);
    BinaryReads(Or, NoMatching, h, b, x, y);
    Loosen(1, 0, BinaryText(Or, NoMatching, h, b), OrElse(x, y));
    InParens(BinaryText(Or, NoMatching, h, b), OrElse(x, y));
    var both := Parens(BinaryText(Or, NoMatching, h, b));
    Loosen(PRIMARY, 3, both, OrElse(x, y));
    ParensUnless(k, both, z, OrElse(x, y));
    var second := Parens(BinaryText(Unless, On(ROUTER_LABELS), b, h));
    var third := Parens(BinaryText(Unless, On(ROUTER_LABELS), k, both));
    Loosen(PRIMARY, 2, second, UnlessRouter(y, x));
    Loosen(PRIMARY, 2, third, UnlessRouter(z, OrElse(x, y)));
    BinaryReads(Or, NoMatching, h, second, x, UnlessRouter(y, x));
    var head := BinaryText(Or, NoMatching, h, second);
    BinaryReads(Or, NoMatching, head, third, FallbackExpr(x, y), UnlessRouter(z, OrElse(x, y)));
    Loosen(1, 0, RateSourcesText(h, b, k), RateExpr(x, y, z));
  }

  lemma ParensUnless(a: Text, b: Text, x: Expr, y: Expr)
    requires ReadsAt(3, a, x) && ReadsAt(3, b, y)
    ensures ReadsAt(PRIMARY, Parens(BinaryText(Unless, On(ROUTER_LABELS), a, b)), UnlessRouter(x, y))
  {
    Loosen(3, 2, a, x);
    BinaryReads(Unless, On(ROUTER_LABELS), a, b, x, y);
    Loosen(2, 0, BinaryText(Unless, On(ROUTER_LABELS), a, b), UnlessRouter(x, y));
    InParens(BinaryText(Unless, On(ROUTER_LABELS), a, b), UnlessRouter(x, y));
  }

  function BitsText(metric: string): Text {
    BinaryText(Times, NoMatching, RateText(metric, FILTER), [Num(8.0)])
  }

  function KilobitsText(metric: string): Text {
    BinaryText(Times, NoMatching, SelectText(metric, []), [Num(1000.0)])
  }

  // wifi_station_label_expr
  function StationText(arg: Text): Text {
    MoveText(MoveText(arg, "station", "", "mac", ""), "vif", "", "ifname", "")
  }

  lemma TimesReads(arg: Text, e: Expr, c: real)
    requires ReadsAt(PRIMARY, arg, e)
    ensures ReadsAt(3, BinaryText(Times, NoMatching, arg, [Num(c)]), Binary(Times, NoMatching, e, Number(c)))
    ensures ReadsAs(BinaryText(Times, NoMatching, arg, [Num(c)]), Binary(Times, NoMatching, e, Number(c)))
  {
    var text, times := BinaryText(Times, NoMatching, arg, [Num(c)]), Binary(Times, NoMatching, e, Number(c));
    NumberReads(c);
    Loosen(PRIMARY, Level(Times), arg, e);
    Loosen(PRIMARY, Level(Times) + 1, [Num(c)], Number(c));
    BinaryReads(Times, NoMatching, arg, [Num(c)], e, Number(c));
    Loosen(Level(Times), 3, text, times);
    Loosen(3, 0, text, times);
  }

  lemma StationReads(arg: Text, e: Expr)
    requires ReadsAs(arg, e)
    ensures ReadsAt(3, StationText(arg), StationLabels(e))
  {
    var inner := MoveText(arg, "station", "", "mac", "");
    var moved := MoveLabel(e, "station", "", "mac", "");
    MoveReads(arg, "station", "", "mac", "", e);
    Loosen(PRIMARY, 0, inner, moved);
    MoveReads(inner, "vif", "", "ifname", "", moved);
    Loosen(PRIMARY, 3, StationText(arg), StationLabels(e));
  }

  // The whole text of wifi_station_rate_bps_expr, with its bare products and nested relabellings.
  lemma StationRateReads(hostapd: string, bytes: string, kbits: string)
    requires !Reserved(hostapd) && !Reserved(bytes) && !Reserved(kbits)
    ensures ReadsAs(RateSourcesText(BitsText(hostapd), StationText(BitsText(bytes)), StationText(KilobitsText(kbits))),
                    StationRateExpr(hostapd, bytes, kbits))
  {
    RateReads(hostapd, FILTER);
    TimesReads(RateText(hostapd, FILTER), RateOf(hostapd, FILTER), 8.0);
    RateReads(bytes, FILTER);
    TimesReads(RateText(bytes, FILTER), RateOf(bytes, FILTER), 8.0);
    SelectReads(kbits, []);
    TimesReads(SelectText(kbits, []), SelectorOf(kbits, []), 1000.0);
    StationReads(BitsText(bytes), Bits(bytes));
    StationReads(KilobitsText(kbits), Kilobits(kbits));
    RateSourcesReads(BitsText(hostapd), StationText(BitsText(bytes)), StationText(KilobitsText(kbits)),
                     Bits(hostapd), StationLabels(Bits(bytes)), StationLabels(Kilobits(kbits)));
  }

  function FallbackText(h: Text, w: Text): Text {
    BinaryText(Or, NoMatching, h, Parens(BinaryText(Unless, On(ROUTER_LABELS), w, h)))
  }

  lemma FallbackReads(h: Text, w: Text, x: Expr, y: Expr)
    requires ReadsAt(3, h, x) && ReadsAt(3, w, y)
    ensures ReadsAs(FallbackText(h, w), FallbackExpr(x, y))
  {
    ParensUnless(w, h, y, x);
    var second := Parens(BinaryText(Unless, On(ROUTER_LABELS), w, h));
    Loosen(3, 1, h, x);
    Loosen(PRIMARY, 2, second, UnlessRouter(y, x));
    BinaryReads(Or, NoMatching, h, second, x, UnlessRouter(y, x));
    Loosen(1, 0, FallbackText(h, w), FallbackExpr(x, y));
  }

  // The whole text of wifi_station_fallback_expr.
  lemma StationFallbackReads(hostapd: string, wifi: string)
    requires !Reserved(hostapd) && !Reserved(wifi)
    ensures ReadsAs(FallbackText(SelectText(hostapd, []), StationText(SelectText(wifi, []))), StationFallbackExpr(hostapd, wifi))
  {
    var h, w := SelectText(hostapd, []), StationText(SelectText(wifi, []));
    var x, y := SelectorOf(hostapd, []), StationLabels(SelectorOf(wifi, []));
    SelectReads(hostapd, []);
    SelectReads(wifi, []);
    Loosen(PRIMARY, 0, SelectText(wifi, []), SelectorOf(wifi, []));
    StationReads(SelectText(wifi, []), SelectorOf(wifi, []));
    Loosen(PRIMARY, 3, h, x);
    FallbackReads(h, w, x, y);
  }
}
