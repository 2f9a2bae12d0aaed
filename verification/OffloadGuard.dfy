// The clients dashboard never shows conntrack-derived traffic while flow offload is enabled, and
// says which of three states accounting is in.
module OffloadGuard {
  import opened PromQL
  import opened VectorLaws
  import opened TopologyQueries
  import opened Reconciliation
  import opened PromText
  import opened PromTextLaws
  import opened TopologyText
  import opened TopologyChecks

  const OFFLOAD_METRIC := "openwrt_flow_offload_enabled"
  const AVAILABLE_METRIC := "openwrt_client_traffic_collector_available"

  function MaxOfMetric(metric: string): Expr {
    Aggregate(MaxOf, [], Selector(metric, FILTER))
  }

  // (max(openwrt_flow_offload_enabled{...}) == 1)
  function OffloadEnabled(): Expr {
    Binary(Equal, NoMatching, MaxOfMetric(OFFLOAD_METRIC), Number(1.0))
  }

  // (max(...available{...}) or vector(0))
  function TrafficAvailable(): Expr {
    OrElse(MaxOfMetric(AVAILABLE_METRIC), VectorOf(0.0))
  }

  function Guarded(e: Expr): Expr {
    Binary(Unless, On([]), e, OffloadEnabled())
  }

  // e * 0 + c
  function Constant(e: Expr, c: real): Expr {
    Binary(Plus, NoMatching, Binary(Times, NoMatching, e, Number(0.0)), Number(c))
  }

  function AccountingState(): Expr {
    OrElse(OrElse(Constant(Guarded(Binary(Equal, NoMatching, TrafficAvailable(), Number(1.0))), 1.0),
                  Constant(OffloadEnabled(), 2.0)),
           VectorOf(0.0))
  }

  // ---------------------------------------------------------------- meaning

  ghost function One(x: real): Vector {
    map[map[] := x]
  }

  // max(...) over the selected routers, when any of them reports the metric.
  ghost predicate MaxIs(env: Env, metric: string, x: real) {
    var v := Raw(env, metric);
    v != map[] && Max(v) == x
  }

  lemma MaxAll(v: Vector)
    ensures AggregateBy(MaxOf, v, {}) == if v == map[] then map[] else One(Max(v))
  {
    forall l | l in v ensures GroupKey(l, {}) == map[] {
      NoGroupKey(l);
    }
    if l :| l in v {
      assert GroupKey(l, {}) in GroupKeys(v, {});
      AggregateAt(MaxOf, v, {}, map[]);
      SameMap(Members(v, map[], {}), v);
      SameMap(AggregateBy(MaxOf, v, {}), One(Max(v)));
    }
  }

  ghost function MaxVector(env: Env, metric: string): Vector {
    if Raw(env, metric) == map[] then map[] else One(Max(Raw(env, metric)))
  }

  lemma EvalMax(env: Env, metric: string)
    ensures Eval(MaxOfMetric(metric), env) == Ok(Vec(MaxVector(env, metric)))
  {
    assert Eval(Selector(metric, FILTER), env) == Ok(Vec(Raw(env, metric)));
    EvalAggregateStep(env, MaxOf, [], Selector(metric, FILTER), Raw(env, metric));
    assert ToSet([]) == {};
    MaxAll(Raw(env, metric));
  }

  lemma EvalAggregateStep(env: Env, agg: AggOp, keep: seq<string>, e: Expr, v: Vector)
    requires Eval(e, env) == Ok(Vec(v))
    ensures Eval(Aggregate(agg, keep, e), env) == Ok(Vec(AggregateBy(agg, v, ToSet(keep))))
  {
  }

  lemma EvalEqualOne(env: Env, e: Expr, v: Vector)
    requires Eval(e, env) == Ok(Vec(v))
    ensures Eval(Binary(Equal, NoMatching, e, Number(1.0)), env) == Ok(Vec(Filtered(Equal, v, 1.0)))
  {
    EvalBinaryStep(env, Equal, NoMatching, e, Number(1.0), Vec(v), Scalar(1.0));
  }

  // A vector of at most one unlabelled sample.
  ghost function Flag(present: bool, x: real): Vector {
    if present then One(x) else map[]
  }

  lemma FlagFiltered(v: Vector, present: bool, x: real)
    requires v == Flag(present, x)
    ensures Filtered(Equal, v, 1.0) == Flag(present && x == 1.0, 1.0)
  {
    SameMap(Filtered(Equal, v, 1.0), Flag(present && x == 1.0, 1.0));
  }

  lemma EvalOffload(env: Env)
    ensures Eval(OffloadEnabled(), env) == Ok(Vec(Flag(MaxIs(env, OFFLOAD_METRIC, 1.0), 1.0)))
  {
    EvalMax(env, OFFLOAD_METRIC);
    EvalEqualOne(env, MaxOfMetric(OFFLOAD_METRIC), MaxVector(env, OFFLOAD_METRIC));
    if Raw(env, OFFLOAD_METRIC) == map[] {
      FlagFiltered(MaxVector(env, OFFLOAD_METRIC), false, 0.0);
    } else {
      FlagFiltered(MaxVector(env, OFFLOAD_METRIC), true, Max(Raw(env, OFFLOAD_METRIC)));
    }
  }

  lemma UnlessAny(v: Vector, present: bool, x: real)
    ensures VectorUnless(v, Flag(present, x), {}) == if present then map[] else v
  {
    var w := VectorUnless(v, Flag(present, x), {});
    forall l | l in v ensures HasPartner(l, Flag(present, x), {}) <==> present {
      if present {
        var none: Labels := map[];
        assert none in Flag(present, x) && SameOn(l, none, {});
      }
    }
    SameMap(w, if present then map[] else v);
  }

  // `(expr) unless on() (offload == 1)` renders the expression unchanged, or nothing at all.
  lemma GuardedMeaning(env: Env, e: Expr, v: Vector)
    requires Eval(e, env) == Ok(Vec(v))
    ensures Eval(Guarded(e), env) == Ok(Vec(if MaxIs(env, "openwrt_flow_offload_enabled", 1.0) then map[] else v))
  {
    EvalOffload(env);
    var on := MaxIs(env, OFFLOAD_METRIC, 1.0);
    EvalBinaryStep(env, Unless, On([]), e, OffloadEnabled(), Vec(v), Vec(Flag(on, 1.0)));
    assert ToSet([]) == {};
    UnlessAny(v, on, 1.0);
  }

  lemma FlagScaled(op: BinOp, present: bool, x: real, c: real)
    requires op.Plus? || op.Times?
    ensures EvalScalarArithmetic(op, Flag(present, x), c) == Ok(Vec(Flag(present, Arithmetic(op, x, c))))
  {
    FlagNameless(present, x);
    FlagTimes(op, present, x, c);
  }

  lemma FlagNameless(present: bool, x: real)
    ensures Relabel(DropMetricName, Flag(present, x)) == Ok(Flag(present, x))
  {
    var v := Flag(present, x);
    forall l | l in v ensures Names(DropMetricName, v)[l] == l {
      assert DropName(l) == l;
    }
    IdentityRenaming(v, Names(DropMetricName, v));
  }

  lemma FlagTimes(op: BinOp, present: bool, x: real, c: real)
    requires op.Plus? || op.Times?
    ensures Scaled(op, Flag(present, x), c) == Flag(present, Arithmetic(op, x, c))
  {
    SameMap(Scaled(op, Flag(present, x), c), Flag(present, Arithmetic(op, x, c)));
  }

  lemma EvalConstant(env: Env, e: Expr, present: bool, x: real, c: real)
    requires Eval(e, env) == Ok(Vec(Flag(present, x)))
    ensures Eval(Constant(e, c), env) == Ok(Vec(Flag(present, c)))
  {
    EvalBinaryStep(env, Times, NoMatching, e, Number(0.0), Vec(Flag(present, x)), Scalar(0.0));
    FlagScaled(Times, present, x, 0.0);
    var zero := Binary(Times, NoMatching, e, Number(0.0));
    assert Arithmetic(Times, x, 0.0) == 0.0;
    EvalBinaryStep(env, Plus, NoMatching, zero, Number(c), Vec(Flag(present, 0.0)), Scalar(c));
    FlagScaled(Plus, present, 0.0, c);
  }

  lemma FlagOr(p: bool, x: real, q: bool, y: real)
    ensures VectorOr(Flag(p, x), Flag(q, y)) == Flag(p || q, if p then x else y)
  {
    var none: Labels := map[];
    assert HasTwin(none, Flag(p, x)) <==> p by {
      if p {
        assert none in Flag(p, x) && DropName(none) == DropName(none);
      }
    }
    SameMap(VectorOr(Flag(p, x), Flag(q, y)), Flag(p || q, if p then x else y));
  }

  lemma EvalFlagOr(env: Env, l: Expr, r: Expr, p: bool, x: real, q: bool, y: real)
    requires Eval(l, env) == Ok(Vec(Flag(p, x))) && Eval(r, env) == Ok(Vec(Flag(q, y)))
    ensures Eval(OrElse(l, r), env) == Ok(Vec(Flag(p || q, if p then x else y)))
  {
    EvalOrElse(env, l, r, Flag(p, x), Flag(q, y));
    FlagOr(p, x, q, y);
  }

  lemma EvalAvailable(env: Env)
    ensures Eval(Binary(Equal, NoMatching, TrafficAvailable(), Number(1.0)), env)
            == Ok(Vec(Flag(MaxIs(env, AVAILABLE_METRIC, 1.0), 1.0)))
  {
    var any := Raw(env, AVAILABLE_METRIC) != map[];
    var x := if any then Max(Raw(env, AVAILABLE_METRIC)) else 0.0;
    EvalMax(env, AVAILABLE_METRIC);
    EvalFlagOr(env, MaxOfMetric(AVAILABLE_METRIC), VectorOf(0.0), any, x, true, 0.0);
    EvalEqualOne(env, TrafficAvailable(), Flag(true, x));
    FlagFiltered(Flag(true, x), true, x);
  }

  ghost function StateOf(env: Env): real {
    if MaxIs(env, "openwrt_flow_offload_enabled", 1.0) then 2.0
    else if MaxIs(env, "openwrt_client_traffic_collector_available", 1.0) then 1.0
    else 0.0
  }

  // The state query always yields exactly one sample: 2 while offload is on anywhere, else 1 when
  // accounting is available, else 0.
  lemma AccountingStateMeaning(env: Env)
    ensures Eval(AccountingState(), env) == Ok(Vec(One(StateOf(env))))
  {
    var off, available := MaxIs(env, OFFLOAD_METRIC, 1.0), MaxIs(env, AVAILABLE_METRIC, 1.0);
    var seen := Binary(Equal, NoMatching, TrafficAvailable(), Number(1.0));
    EvalAvailable(env);
    GuardedMeaning(env, seen, Flag(available, 1.0));
    EvalConstant(env, Guarded(seen), available && !off, 1.0, 1.0);
    EvalOffload(env);
    EvalConstant(env, OffloadEnabled(), off, 1.0, 2.0);
    var either := OrElse(Constant(Guarded(seen), 1.0), Constant(OffloadEnabled(), 2.0));
    EvalFlagOr(env, Constant(Guarded(seen), 1.0), Constant(OffloadEnabled(), 2.0), available && !off, 1.0, off, 2.0);
    EvalFlagOr(env, either, VectorOf(0.0), (available && !off) || off, if available && !off then 1.0 else 2.0, true, 0.0);
  }

  // ---------------------------------------------------------------- text

  function OffloadText(): Text {
    Parens(BinaryText(Equal, NoMatching, MaxText(OFFLOAD_METRIC), [Num(1.0)]))
  }

  function TrustedText(e: Text): Text {
    BinaryText(Unless, On([]), Parens(e), OffloadText())
  }

  // Every expression that parses on its own is guarded as a whole.
  lemma TrustedReads(ts: Text, e: Expr)
    requires ReadsAs(ts, e)
    ensures ReadsAt(2, TrustedText(ts), Guarded(e))
  {
    OffloadReads();
    InParens(ts, e);
    Loosen(PRIMARY, 2, Parens(ts), e);
    Loosen(PRIMARY, 3, OffloadText(), OffloadEnabled());
    BinaryReads(Unless, On([]), Parens(ts), OffloadText(), e, OffloadEnabled());
  }

  // (arg * 0 + c)
  function ConstantText(arg: Text, c: real): Text {
    Parens(BinaryText(Plus, NoMatching, BinaryText(Times, NoMatching, arg, [Num(0.0)]), [Num(c)]))
  }

  lemma ConstantReads(arg: Text, e: Expr, c: real)
    requires ReadsAt(PRIMARY, arg, e)
    ensures ReadsAt(PRIMARY, ConstantText(arg, c), Constant(e, c))
  {
    var zero, text := Binary(Times, NoMatching, e, Number(0.0)), BinaryText(Times, NoMatching, arg, [Num(0.0)]);
    NumberReads(0.0);
    NumberReads(c);
    Loosen(PRIMARY, Level(Times), arg, e);
    BinaryReads(Times, NoMatching, arg, [Num(0.0)], e, Number(0.0));
    Loosen(Level(Times), Level(Plus), text, zero);
    Loosen(PRIMARY, Level(Plus) + 1, [Num(c)], Number(c));
    BinaryReads(Plus, NoMatching, text, [Num(c)], zero, Number(c));
    var sum := BinaryText(Plus, NoMatching, text, [Num(c)]);
    Loosen(Level(Plus), 0, sum, Constant(e, c));
    InParens(sum, Constant(e, c));
  }

  function MaxText(metric: string): Text {
    AggregateText(MaxOf, [], SelectorText(metric, FILTER))
  }

  lemma MaxReads(metric: string)
    requires !Reserved(metric)
    ensures ReadsAt(PRIMARY, MaxText(metric), MaxOfMetric(metric))
  {
    SelectorReads(metric, FILTER);
    Loosen(PRIMARY, 0, SelectorText(metric, FILTER), Selector(metric, FILTER));
    AggregateReads(MaxOf, [], SelectorText(metric, FILTER), Selector(metric, FILTER));
  }

  lemma OffloadReads()
    ensures ReadsAt(PRIMARY, OffloadText(), OffloadEnabled())
  {
    MaxReads(OFFLOAD_METRIC);
    NumberReads(1.0);
    ParensBinary(Equal, NoMatching, MaxText(OFFLOAD_METRIC), [Num(1.0)], MaxOfMetric(OFFLOAD_METRIC), Number(1.0));
  }

  const VECTOR_ZERO: Text := [Word("vector"), LP, Num(0.0), RP]

  function AvailableText(): Text {
    Parens(BinaryText(Or, NoMatching, MaxText(AVAILABLE_METRIC), VECTOR_ZERO))
  }

  // (available == 1)
  function SeenText(): Text {
    Parens(BinaryText(Equal, NoMatching, AvailableText(), [Num(1.0)]))
  }

  lemma SeenReads()
    ensures ReadsAt(PRIMARY, SeenText(), Binary(Equal, NoMatching, TrafficAvailable(), Number(1.0)))
  {
    MaxReads(AVAILABLE_METRIC);
    VectorReads(0.0);
    NumberReads(1.0);
    ParensBinary(Or, NoMatching, MaxText(AVAILABLE_METRIC), VECTOR_ZERO, MaxOfMetric(AVAILABLE_METRIC), VectorOf(0.0));
    ParensBinary(Equal, NoMatching, AvailableText(), [Num(1.0)], TrafficAvailable(), Number(1.0));
  }

  // ((seen unless on() offload) * 0 + 1) or (offload * 0 + 2) or vector(0)
  function AccountingText(): Text {
    BinaryText(Or, NoMatching,
               BinaryText(Or, NoMatching,
                          ConstantText(Parens(BinaryText(Unless, On([]), SeenText(), OffloadText())), 1.0),
                          ConstantText(OffloadText(), 2.0)),
               VECTOR_ZERO)
  }

  lemma FirstOrReads(a: Text, b: Text, c: Text, x: Expr, y: Expr, z: Expr)
    requires ReadsAt(PRIMARY, a, x) && ReadsAt(PRIMARY, b, y) && ReadsAt(PRIMARY, c, z)
    ensures ReadsAs(BinaryText(Or, NoMatching, BinaryText(Or, NoMatching, a, b), c), OrElse(OrElse(x, y), z))
  {
    var both := BinaryText(Or, NoMatching, a, b);
    Loosen(PRIMARY, 1, a, x);
    Loosen(PRIMARY, 2, b, y);
    Loosen(PRIMARY, 2, c, z);
    BinaryReads(Or, NoMatching, a, b, x, y);
    BinaryReads(Or, NoMatching, both, c, OrElse(x, y), z);
    Loosen(1, 0, BinaryText(Or, NoMatching, both, c), OrElse(OrElse(x, y), z));
  }

  lemma AccountingReads()
    ensures ReadsAs(AccountingText(), AccountingState())
  {
    var seen := Binary(Equal, NoMatching, TrafficAvailable(), Number(1.0));
    SeenReads();
    OffloadReads();
    VectorReads(0.0);
    ParensBinary(Unless, On([]), SeenText(), OffloadText(), seen, OffloadEnabled());
    var guarded := Parens(BinaryText(Unless, On([]), SeenText(), OffloadText()));
    ConstantReads(guarded, Guarded(seen), 1.0);
    ConstantReads(OffloadText(), OffloadEnabled(), 2.0);
    FirstOrReads(ConstantText(guarded, 1.0), ConstantText(OffloadText(), 2.0), VECTOR_ZERO,
                 Constant(Guarded(seen), 1.0), Constant(OffloadEnabled(), 2.0), VectorOf(0.0));
  }
}
