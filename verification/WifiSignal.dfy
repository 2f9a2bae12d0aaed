// The clients dashboard's signal query: both sources lowercased, hostapd first for each router, and
// the strongest reading of every address.
module WifiSignal {
  import opened PromQL
  import opened VectorLaws
  import opened TopologyQueries
  import opened Reconciliation
  import opened PromText
  import opened PromTextLaws
  import opened TopologyText
  import opened WifiSources
  import opened MacLowercase

  const HOSTAPD_METRIC := "hostapd_station_signal_dbm"
  const WIFI_METRIC := "wifi_station_signal_dbm"
  const ADDRESS := {"mac"}

  // HOSTAPD_SIGNAL: the station label copied to mac, then lowercased there.
  function HostapdSignal(): Expr {
    Chain(MoveLabel(SelectorOf(HOSTAPD_METRIC, []), "mac", "", "station", ""), "mac", Schedule(LETTERS))
  }

  // WIFI_SIGNAL
  function WifiSignal(): Expr {
    Chain(SelectorOf(WIFI_METRIC, []), "mac", Schedule(LETTERS))
  }

  // WIFI_SIGNAL_BY_MAC
  function SignalByMac(): Expr {
    Aggregate(MaxOf, ["mac"], FallbackExpr(HostapdSignal(), WifiSignal()))
  }

  // ---------------------------------------------------------------- the hostapd side never fails

  // What becomes of a hostapd series: its station, lowercased, as mac; the station label stays.
  function Readdressed(l: Labels): Labels {
    if Get(l, "station") == "" then l else l["mac" := ChainValue(Schedule(LETTERS), Get(l, "station"))]
  }

  ghost function Copied(v: Vector): map<Labels, Labels> {
    Names(Moved("mac", "", "station", ""), v)
  }

  lemma CopiedRow(l: Labels)
    requires "mac" !in l
    ensures
      var m := Rewrite(Moved("mac", "", "station", ""), l);
      && m - {"mac"} == l && Get(m, "mac") == Get(l, "station")
      && Cased(m, "mac", ChainValue(Schedule(LETTERS), Get(m, "mac"))) == Readdressed(l)
  {
    MovedRow(l, "mac", "", "station");
  }

  lemma ReaddressedUndone(l: Labels)
    requires "mac" !in l
    ensures Readdressed(l) - {"mac"} == l
  {
  }

  ghost function ReaddressedNames(v: Vector): map<Labels, Labels> {
    map l | l in v :: Readdressed(l)
  }

  // The station label keeps apart what lowercasing might bring together.
  lemma ReaddressedApart(v: Vector)
    requires forall l | l in v :: "mac" !in l
    ensures OneToOne(ReaddressedNames(v))
  {
    forall a, b | a in v && b in v && Readdressed(a) == Readdressed(b) ensures a == b {
      ReaddressedUndone(a);
      ReaddressedUndone(b);
    }
  }

  ghost function CasedCopies(v: Vector): map<Labels, Labels>
    requires OneToOne(Copied(v))
  {
    CasedNames(Renamed(v, Copied(v)), "mac", Schedule(LETTERS))
  }

  lemma CopyThenCase(v: Vector)
    requires (forall l | l in v :: "mac" !in l) && OneToOne(Copied(v))
    ensures CasedCopies(v).Keys == Copied(v).Values
    ensures forall l | l in v :: CasedCopies(v)[Copied(v)[l]] == Readdressed(l)
  {
    forall l | l in v ensures CasedCopies(v)[Copied(v)[l]] == Readdressed(l) {
      assert Copied(v)[l] in Renamed(v, Copied(v));
      CopiedRow(l);
    }
  }

  lemma CasedApart(v: Vector)
    requires (forall l | l in v :: "mac" !in l) && OneToOne(Copied(v))
    ensures OneToOne(CasedCopies(v))
  {
    ReaddressedApart(v);
    CopyThenCase(v);
    Composed(Copied(v), CasedCopies(v), ReaddressedNames(v));
  }

  // Hostapd series name the station in a label of their own, not in mac.
  ghost predicate StationLabelled(env: Env) {
    forall l | l in Series(env, env.samples, HOSTAPD_METRIC) :: "mac" !in l
  }

  // The series the query reads.
  lemma SignalSeries(env: Env)
    ensures Series(env, env.samples, HOSTAPD_METRIC) == Exported(env, env.samples, "hostapd_station_signal_dbm")
    ensures Series(env, env.samples, WIFI_METRIC) == Exported(env, env.samples, "wifi_station_signal_dbm")
  {
    SelectsExported(env, env.samples, HOSTAPD_METRIC);
    SelectsExported(env, env.samples, WIFI_METRIC);
  }

  ghost function HostapdVector(env: Env): Vector
    requires StationLabelled(env)
  {
    var v := Series(env, env.samples, HOSTAPD_METRIC);
    ReaddressedApart(v);
    Renamed(v, ReaddressedNames(v))
  }

  lemma HostapdRenders(env: Env)
    requires StationLabelled(env)
    ensures Eval(HostapdSignal(), env) == Ok(Vec(HostapdVector(env)))
  {
    var v := Series(env, env.samples, HOSTAPD_METRIC);
    var copy := MoveLabel(SelectorOf(HOSTAPD_METRIC, []), "mac", "", "station", "");
    EvalSelector(env, HOSTAPD_METRIC);
    EvalCopyLabel(env, SelectorOf(HOSTAPD_METRIC, []), v, "mac", "station");
    CasedApart(v);
    CopyThenCase(v);
    RenamedTwice(v, Copied(v), CasedCopies(v), ReaddressedNames(v));
    ChainMeaning(env, copy, Renamed(v, Copied(v)), "mac", Schedule(LETTERS));
  }

  lemma ReaddressedMac(l: Labels)
    requires IsMac(Get(l, "station"))
    ensures Get(Readdressed(l), "mac") == LowerHex(Get(l, "station"))
  {
    MacFewLetters(Get(l, "station"));
    LowercasedExactly(Get(l, "station"));
  }

  // What a hostapd series is shown as, and that no two are merged.
  lemma HostapdRows(env: Env)
    requires StationLabelled(env)
    ensures forall l | l in Series(env, env.samples, HOSTAPD_METRIC) ::
              Readdressed(l) in HostapdVector(env) && HostapdVector(env)[Readdressed(l)] == Series(env, env.samples, HOSTAPD_METRIC)[l]
    ensures forall k | k in HostapdVector(env) :: exists l | l in Series(env, env.samples, HOSTAPD_METRIC) :: Readdressed(l) == k
    ensures forall l | l in Series(env, env.samples, HOSTAPD_METRIC) && IsMac(Get(l, "station")) ::
              Get(Readdressed(l), "mac") == LowerHex(Get(l, "station"))
  {
    forall l | IsMac(Get(l, "station")) ensures Get(Readdressed(l), "mac") == LowerHex(Get(l, "station")) {
      ReaddressedMac(l);
    }
    var v := Series(env, env.samples, HOSTAPD_METRIC);
    ReaddressedApart(v);
    forall l | l in v ensures ReaddressedNames(v)[l] == Readdressed(l) {
    }
  }

  // ---------------------------------------------------------------- the Wi-Fi side may

  ghost predicate WifiAddressed(env: Env) {
    forall l | l in Series(env, env.samples, WIFI_METRIC) :: IsMac(Get(l, "mac"))
  }

  ghost function WifiNames(env: Env): map<Labels, Labels> {
    LoweredNames(Series(env, env.samples, WIFI_METRIC), "mac")
  }

  ghost function WifiVector(env: Env): Vector
    requires OneToOne(WifiNames(env))
  {
    Renamed(Series(env, env.samples, WIFI_METRIC), WifiNames(env))
  }

  lemma WifiRenders(env: Env)
    requires WifiAddressed(env)
    ensures Eval(WifiSignal(), env)
         == if OneToOne(WifiNames(env)) then Ok(Vec(WifiVector(env))) else Err(DuplicateLabels)
  {
    var v := Series(env, env.samples, WIFI_METRIC);
    EvalSelector(env, WIFI_METRIC);
    forall l | l in v ensures FewLetters(Get(l, "mac")) {
      MacFewLetters(Get(l, "mac"));
    }
    LowercaseMeaning(env, SelectorOf(WIFI_METRIC, []), v, "mac");
  }

  // ---------------------------------------------------------------- the query

  // Every group's value is the largest of its members, and there is a group for each of them.
  ghost predicate Strongest(v: Vector, r: Vector) {
    && r.Keys == GroupKeys(v, ADDRESS)
    && (forall l | l in v :: v[l] <= r[GroupKey(l, ADDRESS)])
    && (forall k | k in r :: exists l | l in v :: GroupKey(l, ADDRESS) == k && v[l] == r[k])
  }

  lemma MaxIsStrongest(v: Vector)
    ensures Strongest(v, AggregateBy(MaxOf, v, ADDRESS))
  {
    var r := AggregateBy(MaxOf, v, ADDRESS);
    forall l | l in v ensures v[l] <= r[GroupKey(l, ADDRESS)] {
      AggregateAt(MaxOf, v, ADDRESS, GroupKey(l, ADDRESS));
      assert l in Members(v, GroupKey(l, ADDRESS), ADDRESS);
    }
    forall k | k in r ensures exists l | l in v :: GroupKey(l, ADDRESS) == k && v[l] == r[k] {
      AggregateAt(MaxOf, v, ADDRESS, k);
      var members := Members(v, k, ADDRESS);
      var l :| l in members && members[l] == Max(members);
    }
  }

  lemma EvalStrongest(env: Env, e: Expr, v: Vector)
    requires Eval(e, env) == Ok(Vec(v))
    ensures Eval(Aggregate(MaxOf, ["mac"], e), env) == Ok(Vec(AggregateBy(MaxOf, v, ADDRESS)))
  {
    assert ToSet(["mac"]) == ADDRESS;
  }

  lemma EvalStrongestFallback(env: Env, h: Expr, w: Expr, x: Vector, y: Vector)
    requires Eval(h, env) == Ok(Vec(x)) && Eval(w, env) == Ok(Vec(y))
    ensures Eval(Aggregate(MaxOf, ["mac"], FallbackExpr(h, w)), env)
         == Ok(Vec(AggregateBy(MaxOf, Fallback(x, y), ADDRESS)))
  {
    EvalFallback(env, h, w, x, y);
    EvalStrongest(env, FallbackExpr(h, w), Fallback(x, y));
  }

  lemma UnlessFails(env: Env, l: Expr, r: Expr)
    requires Eval(l, env).Err?
    ensures Eval(UnlessRouter(l, r), env).Err?
  {
  }

  lemma OrFails(env: Env, l: Expr, r: Expr)
    requires Eval(r, env).Err?
    ensures Eval(OrElse(l, r), env).Err?
  {
  }

  lemma FallbackFails(env: Env, h: Expr, w: Expr)
    requires Eval(w, env).Err?
    ensures Eval(Aggregate(MaxOf, ["mac"], FallbackExpr(h, w)), env).Err?
  {
    UnlessFails(env, w, h);
    OrFails(env, h, UnlessRouter(w, h));
  }

  // The series the readings come from: hostapd's for the routers that have any, else the Wi-Fi ones.
  ghost function Sources(env: Env): Vector
    requires StationLabelled(env) && OneToOne(WifiNames(env))
  {
    Fallback(HostapdVector(env), WifiVector(env))
  }

  lemma SignalRenders(env: Env)
    requires StationLabelled(env) && WifiAddressed(env) && OneToOne(WifiNames(env))
    ensures Eval(SignalByMac(), env) == Ok(Vec(AggregateBy(MaxOf, Sources(env), ADDRESS)))
  {
    HostapdRenders(env);
    WifiRenders(env);
    EvalStrongestFallback(env, HostapdSignal(), WifiSignal(), HostapdVector(env), WifiVector(env));
  }

  // Where hostapd series carry no mac and Wi-Fi series carry an address, the query evaluates exactly
  // when no two Wi-Fi series differ only in the spelling of the address, and then it gives every
  // address its strongest reading.
  lemma SignalMeaning(env: Env)
    requires StationLabelled(env) && WifiAddressed(env)
    ensures Eval(SignalByMac(), env).Ok? <==> OneToOne(WifiNames(env))
    ensures OneToOne(WifiNames(env)) ==>
      exists r :: Eval(SignalByMac(), env) == Ok(Vec(r)) && Strongest(Sources(env), r)
  {
    if OneToOne(WifiNames(env)) {
      SignalRenders(env);
      MaxIsStrongest(Sources(env));
    } else {
      WifiRenders(env);
      FallbackFails(env, HostapdSignal(), WifiSignal());
    }
  }

  // ---------------------------------------------------------------- two spellings

  function WifiStation(mac: string): Labels {
    map["__name__" := WIFI_METRIC, "job" := "openwrt", "router" := "ap", "ifname" := "phy0-ap0", "mac" := mac]
  }

  // One interface lists a station in two spellings of its address.
  ghost function TwoSpellings(mac: string): Env {
    Env(map[WifiStation(mac) := -50.0, WifiStation(LowerHex(mac)) := -51.0], map[], r => true)
  }

  lemma TwoSpellingsSeries(mac: string)
    ensures Series(TwoSpellings(mac), TwoSpellings(mac).samples, WIFI_METRIC) == TwoSpellings(mac).samples
    ensures Series(TwoSpellings(mac), TwoSpellings(mac).samples, HOSTAPD_METRIC) == map[]
  {
    var env := TwoSpellings(mac);
    forall l | l in env.samples ensures Get(l, METRIC_NAME) == WIFI_METRIC && Selects(env, WIFI_METRIC, FILTER, l) {
      assert l == WifiStation(mac) || l == WifiStation(LowerHex(mac));
      assert Satisfies(env, FILTER[0], l) && Satisfies(env, FILTER[1], l);
    }
    assert WIFI_METRIC[0] != HOSTAPD_METRIC[0];
  }

  lemma SpellingsCollide(v: Vector, mac: string)
    requires mac != LowerHex(mac) && WifiStation(mac) in v && WifiStation(LowerHex(mac)) in v
    ensures !OneToOne(LoweredNames(v, "mac"))
  {
    var a, b := WifiStation(mac), WifiStation(LowerHex(mac));
    assert LowerHex(LowerHex(mac)) == LowerHex(mac);
    assert a["mac"] != b["mac"];
    assert mac != "" && LowerHex(mac) != "";
    assert LoweredNames(v, "mac")[a] == a["mac" := LowerHex(mac)];
    assert LoweredNames(v, "mac")[b] == b["mac" := LowerHex(mac)];
    assert a["mac" := LowerHex(mac)] == b["mac" := LowerHex(mac)];
  }

  // For every address with an upper-case letter, such a scrape fails.
  lemma TwoSpellingsFail(mac: string)
    requires IsMac(mac) && mac != LowerHex(mac)
    ensures Eval(WifiSignal(), TwoSpellings(mac)) == Err(DuplicateLabels)
    ensures Eval(SignalByMac(), TwoSpellings(mac)).Err?
  {
    var env := TwoSpellings(mac);
    TwoSpellingsSeries(mac);
    forall l | l in env.samples ensures IsMac(Get(l, "mac")) {
      assert l == WifiStation(mac) || l == WifiStation(LowerHex(mac));
    }
    SpellingsCollide(env.samples, mac);
    WifiRenders(env);
    FallbackFails(env, HostapdSignal(), WifiSignal());
  }

  const STATION_MAC := "AA:BB:CC:00:00:01"

  lemma StationFails()
    ensures IsMac(STATION_MAC) && Eval(SignalByMac(), TwoSpellings(STATION_MAC)).Err?
  {
    assert STATION_MAC[0] == 'A' && LowerHex(STATION_MAC)[0] == 'a';
    TwoSpellingsFail(STATION_MAC);
  }

  // ---------------------------------------------------------------- the text

  function HostapdText(): Text {
    ChainText(MoveText(SelectText(HOSTAPD_METRIC, []), "mac", "", "station", ""), "mac", Schedule(LETTERS))
  }

  function WifiText(): Text {
    ChainText(SelectText(WIFI_METRIC, []), "mac", Schedule(LETTERS))
  }

  // max by(mac) (hostapd or (wifi unless on(job, router) hostapd))
  function SignalText(): Text {
    AggregateText(MaxOf, ["mac"], FallbackText(HostapdText(), WifiText()))
  }

  lemma SourcesRead()
    ensures ReadsAt(PRIMARY, HostapdText(), HostapdSignal()) && ReadsAt(PRIMARY, WifiText(), WifiSignal())
  {
    SelectReads(HOSTAPD_METRIC, []);
    SelectReads(WIFI_METRIC, []);
    Loosen(PRIMARY, 0, SelectText(HOSTAPD_METRIC, []), SelectorOf(HOSTAPD_METRIC, []));
    MoveReads(SelectText(HOSTAPD_METRIC, []), "mac", "", "station", "", SelectorOf(HOSTAPD_METRIC, []));
    ChainReadsPrimary(MoveText(SelectText(HOSTAPD_METRIC, []), "mac", "", "station", ""),
                      MoveLabel(SelectorOf(HOSTAPD_METRIC, []), "mac", "", "station", ""), "mac", Schedule(LETTERS));
    ChainReadsPrimary(SelectText(WIFI_METRIC, []), SelectorOf(WIFI_METRIC, []), "mac", Schedule(LETTERS));
  }

  lemma SignalReads()
    ensures ReadsAt(PRIMARY, SignalText(), SignalByMac())
  {
    SourcesRead();
    Loosen(PRIMARY, 3, HostapdText(), HostapdSignal());
    Loosen(PRIMARY, 3, WifiText(), WifiSignal());
    FallbackReads(HostapdText(), WifiText(), HostapdSignal(), WifiSignal());
    AggregateReads(MaxOf, ["mac"], FallbackText(HostapdText(), WifiText()), FallbackExpr(HostapdSignal(), WifiSignal()));
  }
}
