// The fragment of PromQL that the dashboard generators emit, and its meaning on one scrape.
//
// An instant vector maps label sets to values. Evaluation follows the Prometheus "Operators"
// documentation ("Vector matching", "Logical/set binary operators"): matching ignores the metric
// name, an absent label equals an empty one, the "one" side of a many-to-one match must be unique,
// and a result with two samples under one label set is an error.
module PromQL {

  datatype Result<+T> = Ok(value: T) | Err(error: EvalError) {
    predicate IsFailure() {
      Err?
    }
    function PropagateFailure<U>(): Result<U>
      requires Err?
    {
      Err(error)
    }
    function Extract(): T
      requires Ok?
    {
      value
    }
  }

  datatype EvalError = DuplicateLabels | ManyToMany | Unsupported

  // ---------------------------------------------------------------- label sets and vectors

  type Labels = map<string, string>
  type Vector = map<Labels, real>

  const METRIC_NAME := "__name__"

  function Get(l: Labels, n: string): string {
    if n in l then l[n] else ""
  }

  function DropName(l: Labels): Labels {
    l - {METRIC_NAME}
  }

  // Setting a label to the empty string removes it.
  function With(l: Labels, n: string, v: string): Labels {
    if v == "" then l - {n} else l[n := v]
  }

  // ---------------------------------------------------------------- syntax

  datatype BinOp = Or | Unless | Equal | Greater | Plus | Times

  datatype Matching = NoMatching | On(labels: seq<string>) | OnGroupLeft(labels: seq<string>, carried: seq<string>)

  datatype AggOp = SumOf | MaxOf | CountOf

  datatype MatchOp = IsEqual | IsMatch

  datatype Matcher = Matcher(name: string, op: MatchOp, value: string)

  // `prefix(.+)` captures what follows the prefix; `([^c]*)c(.*)` splits at the first c.
  datatype Pattern = PrefixRest(prefix: string) | AroundFirst(c: char) | UnknownPattern

  // `prefix$1` and `${1}c${2}`.
  datatype Template = PrefixGroup(prefix: string) | AroundWith(c: char) | UnknownTemplate

  datatype Expr =
    | Number(value: real)
    | Selector(metric: string, matchers: seq<Matcher>)
    | RateOf(metric: string, matchers: seq<Matcher>)
    | Binary(op: BinOp, matching: Matching, left: Expr, right: Expr)
    | Aggregate(agg: AggOp, keep: seq<string>, arg: Expr)
    | LabelReplace(arg: Expr, dst: string, template: Template, src: string, pattern: Pattern)
    | VectorOf(scalar: real)

  // label_replace(arg, dst, "to$1", src, "from(.+)")
  function MoveLabel(arg: Expr, dst: string, to: string, src: string, from: string): Expr {
    LabelReplace(arg, dst, PrefixGroup(to), src, PrefixRest(from))
  }

  function ToSet(s: seq<string>): set<string> {
    set x | x in s
  }

  // ---------------------------------------------------------------- environment

  // `samples` holds every instant sample, `rates` the per-second rate of every counter over
  // $__rate_interval, and `router` is what the dashboard variable $router expands to.
  datatype Env = Env(samples: Vector, rates: Vector, router: string -> bool)

  // The two regular expressions used in selectors: the $router variable and `<prefix>.+`.
  ghost predicate MatchesRegex(env: Env, regex: string, s: string) {
    if regex == "$router" then env.router(s)
    else if |regex| >= 2 && regex[|regex| - 2..] == ".+" then
      var prefix := regex[..|regex| - 2];
      prefix < s
    else false
  }

  ghost predicate Satisfies(env: Env, m: Matcher, l: Labels) {
    match m.op
    case IsEqual => Get(l, m.name) == m.value
    case IsMatch => MatchesRegex(env, m.value, Get(l, m.name))
  }

  ghost predicate Selects(env: Env, metric: string, ms: seq<Matcher>, l: Labels) {
    Get(l, METRIC_NAME) == metric && forall m | m in ms :: Satisfies(env, m, l)
  }

  ghost function Select(env: Env, v: Vector, metric: string, ms: seq<Matcher>): Vector {
    map l | l in v && Selects(env, metric, ms, l) :: v[l]
  }

  // ---------------------------------------------------------------- set operators

  ghost predicate SameOn(a: Labels, b: Labels, names: set<string>) {
    forall n | n in names :: Get(a, n) == Get(b, n)
  }

  lemma SameOnOne(a: Labels, b: Labels, name: string)
    ensures SameOn(a, b, {name}) <==> Get(a, name) == Get(b, name)
  {
    assert name in {name};
  }

  ghost predicate HasTwin(l: Labels, v: Vector) {
    exists k | k in v :: DropName(k) == DropName(l)
  }

  ghost function VectorOr(a: Vector, b: Vector): Vector {
    a + map l | l in b && !HasTwin(l, a) :: b[l]
  }

  ghost predicate HasPartner(l: Labels, v: Vector, names: set<string>) {
    exists k | k in v :: SameOn(l, k, names)
  }

  ghost function VectorUnless(a: Vector, b: Vector, names: set<string>): Vector {
    map l | l in a && !HasPartner(l, b, names) :: a[l]
  }

  // ---------------------------------------------------------------- arithmetic and comparison

  function Arithmetic(op: BinOp, x: real, y: real): real
    requires op.Plus? || op.Times?
  {
    if op.Plus? then x + y else x * y
  }

  predicate Holds(op: BinOp, x: real, y: real)
    requires op.Equal? || op.Greater?
  {
    if op.Equal? then x == y else x > y
  }

  ghost function Scaled(op: BinOp, v: Vector, c: real): Vector
    requires op.Plus? || op.Times?
  {
    map l | l in v :: Arithmetic(op, v[l], c)
  }

  ghost function Filtered(op: BinOp, v: Vector, c: real): Vector
    requires op.Equal? || op.Greater?
  {
    map l | l in v && Holds(op, v[l], c) :: v[l]
  }

  // ---------------------------------------------------------------- relabelling

  function FirstIndex(c: char, s: string): (i: nat)
    ensures i <= |s|
    ensures c !in s[..i]
    ensures i < |s| ==> s[i] == c
  {
    if s == "" then 0
    else if s[0] == c then 0
    else
      var j := FirstIndex(c, s[1..]);
      assert s[..1 + j] == [s[0]] + s[1..][..j];
      1 + j
  }

  datatype Groups = NoMatch | One(first: string) | Two(first: string, second: string)

  function MatchAnchored(p: Pattern, s: string): Groups {
    match p
    case PrefixRest(prefix) => if prefix < s then One(s[|prefix|..]) else NoMatch
    case AroundFirst(c) =>
      var i := FirstIndex(c, s);
      if i < |s| then Two(s[..i], s[i + 1..]) else NoMatch
    case UnknownPattern => NoMatch
  }

  // A group that the pattern lacks expands to the empty string.
  function Expand(t: Template, g: Groups): string
    requires !g.NoMatch?
  {
    var second := if g.Two? then g.second else "";
    match t
    case PrefixGroup(prefix) => prefix + g.first
    case AroundWith(c) => g.first + [c] + second
    case UnknownTemplate => ""
  }

  datatype Relabelling = DropMetricName | Replace(dst: string, template: Template, src: string, pattern: Pattern)

  function Rewrite(r: Relabelling, l: Labels): Labels {
    match r
    case DropMetricName => DropName(l)
    case Replace(dst, template, src, pattern) =>
      var g := MatchAnchored(pattern, Get(l, src));
      if g.NoMatch? then l else With(l, dst, Expand(template, g))
  }

  // A renaming of the samples of a vector, and the vector it produces.
  ghost predicate OneToOne<K(!new), L(!new)>(name: map<K, L>) {
    forall a, b | a in name && b in name && name[a] == name[b] :: a == b
  }

  ghost function Renamed<K(!new), L(!new)>(v: map<K, real>, name: map<K, L>): (r: map<L, real>)
    requires v.Keys == name.Keys && OneToOne(name)
    ensures r.Keys == name.Values
    ensures forall k | k in v :: r[name[k]] == v[k]
  {
    map k | k in v :: name[k] := v[k]
  }

  ghost function Names(r: Relabelling, v: Vector): map<Labels, Labels> {
    map l | l in v :: Rewrite(r, l)
  }

  ghost predicate Injective(r: Relabelling, v: Vector) {
    OneToOne(Names(r, v))
  }

  ghost function Relabel(r: Relabelling, v: Vector): Result<Vector> {
    if Injective(r, v) then Ok(Renamed(v, Names(r, v))) else Err(DuplicateLabels)
  }

  // ---------------------------------------------------------------- many-to-one matching

  ghost predicate UniqueOn(v: Vector, names: set<string>) {
    forall a, b | a in v && b in v && SameOn(a, b, names) :: a == b
  }

  ghost function Partner(l: Labels, v: Vector, names: set<string>): (k: Labels)
    requires HasPartner(l, v, names)
    ensures k in v && SameOn(l, k, names)
  {
    var k :| k in v && SameOn(l, k, names);
    k
  }

  // group_left(carried) copies the included labels from the "one" side.
  function Included(l: Labels, one: Labels, carried: seq<string>): Labels
    decreases |carried|
  {
    if carried == [] then l else Included(With(l, carried[0], Get(one, carried[0])), one, carried[1..])
  }

  ghost function JoinLabels(l: Labels, one: Vector, names: set<string>, carried: seq<string>): Labels
    requires HasPartner(l, one, names)
  {
    Included(DropName(l), Partner(l, one, names), carried)
  }

  ghost function JoinNames(many: Vector, one: Vector, names: set<string>, carried: seq<string>): map<Labels, Labels> {
    map l | l in many && HasPartner(l, one, names) :: JoinLabels(l, one, names, carried)
  }

  ghost function Combined(op: BinOp, many: Vector, one: Vector, names: set<string>): Vector
    requires op.Plus? || op.Times?
  {
    map l | l in many && HasPartner(l, one, names) :: Arithmetic(op, many[l], one[Partner(l, one, names)])
  }

  // An empty operand matches nothing, and then duplicates on the other side go unnoticed.
  ghost function Join(op: BinOp, many: Vector, one: Vector, names: set<string>, carried: seq<string>): Result<Vector>
    requires op.Plus? || op.Times?
  {
    var name := JoinNames(many, one, names, carried);
    if many != map[] && !UniqueOn(one, names) then Err(ManyToMany)
    else if !OneToOne(name) then Err(DuplicateLabels)
    else Ok(Renamed(Combined(op, many, one, names), name))
  }

  // ---------------------------------------------------------------- aggregation

  ghost function Sum<K(!new)>(m: map<K, real>): real {
    if m == map[] then 0.0
    else
      var k :| k in m;
      m[k] + Sum(m - {k})
  }

  ghost function Max<K(!new)>(m: map<K, real>): (x: real)
    requires m != map[]
    ensures x in m.Values
    ensures forall k | k in m :: m[k] <= x
  {
    var k :| k in m;
    assert forall j | j in m :: j == k || j in m - {k};
    if m - {k} == map[] then m[k]
    else
      var y := Max(m - {k});
      if m[k] < y then y else m[k]
  }

  function GroupKey(l: Labels, keep: set<string>): Labels {
    map n | n in l && n in keep && l[n] != "" :: l[n]
  }

  ghost function Members(v: Vector, key: Labels, keep: set<string>): Vector {
    map l | l in v && GroupKey(l, keep) == key :: v[l]
  }

  ghost function GroupKeys(v: Vector, keep: set<string>): set<Labels> {
    set l | l in v :: GroupKey(l, keep)
  }

  ghost function Reduce(op: AggOp, v: Vector): real
    requires v != map[]
  {
    match op
    case SumOf => Sum(v)
    case MaxOf => Max(v)
    case CountOf => |v| as real
  }

  ghost function AggregateBy(op: AggOp, v: Vector, keep: set<string>): Vector {
    map k | k in GroupKeys(v, keep) ::
      assert Members(v, k, keep) != map[] by {
        var l :| l in v && GroupKey(l, keep) == k;
        assert l in Members(v, k, keep);
      }
      Reduce(op, Members(v, k, keep))
  }

  // ---------------------------------------------------------------- evaluation

  datatype Value = Scalar(s: real) | Vec(v: Vector)

  ghost function EvalSet(op: BinOp, m: Matching, x: Vector, y: Vector): Result<Value>
    requires op.Or? || op.Unless?
  {
    if op.Or? && m.NoMatching? then Ok(Vec(VectorOr(x, y)))
    else if op.Unless? && m.On? then Ok(Vec(VectorUnless(x, y, ToSet(m.labels))))
    else Err(Unsupported)
  }

  ghost function EvalJoin(op: BinOp, m: Matching, x: Vector, y: Vector): Result<Value>
    requires op.Plus? || op.Times?
  {
    if m.OnGroupLeft? then
      var v :- Join(op, x, y, ToSet(m.labels), m.carried);
      Ok(Vec(v))
    else Err(Unsupported)
  }

  ghost function EvalScalarArithmetic(op: BinOp, x: Vector, c: real): Result<Value>
    requires op.Plus? || op.Times?
  {
    var y :- Relabel(DropMetricName, x);
    Ok(Vec(Scaled(op, y, c)))
  }

  ghost function EvalBinary(op: BinOp, m: Matching, a: Value, b: Value): Result<Value> {
    if a.Scalar? then Err(Unsupported)
    else if op.Or? || op.Unless? then
      if b.Vec? then EvalSet(op, m, a.v, b.v) else Err(Unsupported)
    else if b.Vec? then
      if op.Plus? || op.Times? then EvalJoin(op, m, a.v, b.v) else Err(Unsupported)
    else if !m.NoMatching? then Err(Unsupported)
    else if op.Plus? || op.Times? then EvalScalarArithmetic(op, a.v, b.s)
    else Ok(Vec(Filtered(op, a.v, b.s)))
  }

  ghost function EvalAggregate(agg: AggOp, keep: seq<string>, a: Value): Result<Value> {
    if a.Vec? then Ok(Vec(AggregateBy(agg, a.v, ToSet(keep)))) else Err(Unsupported)
  }

  ghost function EvalRelabel(r: Relabelling, a: Value): Result<Value> {
    if a.Scalar? then Err(Unsupported)
    else
      var v :- Relabel(r, a.v);
      Ok(Vec(v))
  }

  ghost function EvalRate(env: Env, metric: string, ms: seq<Matcher>): Result<Value> {
    EvalRelabel(DropMetricName, Vec(Select(env, env.rates, metric, ms)))
  }

  ghost function Eval(e: Expr, env: Env): Result<Value> {
    match e
    case Number(c) => Ok(Scalar(c))
    case VectorOf(c) => Ok(Vec(map[map[] := c]))
    case Selector(metric, ms) => Ok(Vec(Select(env, env.samples, metric, ms)))
    case RateOf(metric, ms) => EvalRate(env, metric, ms)
    case Binary(op, m, l, r) =>
      var a :- Eval(l, env);
      var b :- Eval(r, env);
      EvalBinary(op, m, a, b)
    case Aggregate(agg, keep, arg) =>
      var a :- Eval(arg, env);
      EvalAggregate(agg, keep, a)
    case LabelReplace(arg, dst, template, src, pattern) =>
      var a :- Eval(arg, env);
      EvalRelabel(Replace(dst, template, src, pattern), a)
  }
}
