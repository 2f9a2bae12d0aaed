// The concrete syntax of the fragment: tokens, and a parser that follows Prometheus's "Binary
// operator precedence" (or < unless < comparison < + < *, all left-associative).
module PromText {
  import opened Wrappers
  import opened PromQL

  datatype Token =
    | Word(word: string)
    | Quoted(text: string)
    | Num(value: real)
    | Op(op: BinOp)
    | Symbol(c: char)      // ( ) { } , =
    | MatchSign            // =~
    | RateWindow           // [$__rate_interval]

  type Text = seq<Token>

  type Parsed<+T> = Option<(T, Text)>

  const LP := Symbol('(')
  const RP := Symbol(')')
  const COMMA := Symbol(',')

  predicate At(ts: Text, t: Token) {
    |ts| > 0 && ts[0] == t
  }

  const PRIMARY: nat := 6

  function Level(op: BinOp): (l: nat)
    ensures 1 <= l < PRIMARY
  {
    match op
    case Or => 1
    case Unless => 2
    case Equal => 3
    case Greater => 3
    case Plus => 4
    case Times => 5
  }

  // ---------------------------------------------------------------- string arguments

  // A prefix without regular-expression or expansion metacharacters.
  predicate Literal(s: string) {
    forall c | c in s :: 'a' <= c <= 'z' || c == ':'
  }

  function PatternOf(regex: string): Pattern {
    if |regex| >= 4 && regex[|regex| - 4..] == "(.+)" && Literal(regex[..|regex| - 4]) then
      PrefixRest(regex[..|regex| - 4])
    else if |regex| == 12 && 'A' <= regex[7] <= 'Z' && regex == "([^" + [regex[7]] + "]*)" + [regex[7]] + "(.*)" then
      AroundFirst(regex[7])
    else UnknownPattern
  }

  function TemplateOf(replacement: string): Template {
    if |replacement| >= 2 && replacement[|replacement| - 2..] == "$1" && Literal(replacement[..|replacement| - 2]) then
      PrefixGroup(replacement[..|replacement| - 2])
    else if |replacement| == 9 && 'a' <= replacement[4] <= 'z' && replacement == "${1}" + [replacement[4]] + "${2}" then
      AroundWith(replacement[4])
    else UnknownTemplate
  }

  // ---------------------------------------------------------------- label lists and selectors

  // The names after an opening parenthesis, up to and including the closing one.
  function ParseNames(ts: Text): (r: Parsed<seq<string>>)
    ensures r.Some? ==> |r.value.1| < |ts|
    decreases |ts|
  {
    if At(ts, RP) then Some(([], ts[1..]))
    else if |ts| >= 2 && ts[0].Word? then
      if ts[1] == RP then Some(([ts[0].word], ts[2..]))
      else if ts[1] == COMMA && |ts| >= 3 && ts[2].Word? then
        match ParseNames(ts[2..])
        case Some((names, rest)) => Some(([ts[0].word] + names, rest))
        case None => None
      else None
    else None
  }

  function ParseMatchers(ts: Text): (r: Parsed<seq<Matcher>>)
    ensures r.Some? ==> |r.value.1| < |ts|
    decreases |ts|
  {
    if |ts| >= 4 && ts[0].Word? && (ts[1] == Symbol('=') || ts[1] == MatchSign) && ts[2].Quoted? then
      var m := Matcher(ts[0].word, if ts[1] == MatchSign then IsMatch else IsEqual, ts[2].text);
      if ts[3] == Symbol('}') then Some(([m], ts[4..]))
      else if ts[3] == COMMA then
        match ParseMatchers(ts[4..])
        case Some((ms, rest)) => Some(([m] + ms, rest))
        case None => None
      else None
    else None
  }

  // ---------------------------------------------------------------- matching modifiers

  function ParseMatching(ts: Text): (r: Parsed<Matching>)
    ensures r.Some? ==> |r.value.1| <= |ts|
  {
    if !At(ts, Word("on")) then Some((NoMatching, ts))
    else if !At(ts[1..], LP) then None
    else
      match ParseNames(ts[2..])
      case None => None
      case Some((names, rest)) => ParseCarried(names, rest)
  }

  function ParseCarried(names: seq<string>, ts: Text): (r: Parsed<Matching>)
    ensures r.Some? ==> |r.value.1| <= |ts|
  {
    if !At(ts, Word("group_left")) then Some((On(names), ts))
    else if !At(ts[1..], LP) then None
    else
      match ParseNames(ts[2..])
      case None => None
      case Some((carried, rest)) => Some((OnGroupLeft(names, carried), rest))
  }

  // ---------------------------------------------------------------- expressions

  function AggOpOf(w: string): Option<AggOp> {
    if w == "sum" then Some(SumOf) else if w == "max" then Some(MaxOf) else if w == "count" then Some(CountOf) else None
  }

  predicate Reserved(w: string) {
    w in {"on", "by", "group_left", "label_replace", "vector", "rate", "sum", "max", "count"}
  }

  function ParseExpr(level: nat, ts: Text): (r: Parsed<Expr>)
    requires level <= PRIMARY
    ensures r.Some? ==> |r.value.1| < |ts|
    decreases |ts|, 1, PRIMARY - level + 1
  {
    if level == PRIMARY then ParsePrimary(ts)
    else
      match ParseExpr(level + 1, ts)
      case None => None
      case Some((e, rest)) => ParseTail(level, e, rest)
  }

  // Further operands of the operators of one level, folded to the left.
  function ParseTail(level: nat, left: Expr, ts: Text): (r: Parsed<Expr>)
    requires level < PRIMARY
    ensures r.Some? ==> |r.value.1| <= |ts|
    decreases |ts|, 0
  {
    if |ts| > 0 && ts[0].Op? && Level(ts[0].op) == level then
      match ParseMatching(ts[1..])
      case None => None
      case Some((m, rest)) =>
        match ParseExpr(level + 1, rest)
        case None => None
        case Some((right, rest')) => ParseTail(level, Binary(ts[0].op, m, left, right), rest')
    else Some((left, ts))
  }

  // `( expr )`, from the opening parenthesis.
  function ParseParens(ts: Text): (r: Parsed<Expr>)
    ensures r.Some? ==> |r.value.1| < |ts|
    decreases |ts|, 0
  {
    if !At(ts, LP) then None
    else
      match ParseExpr(0, ts[1..])
      case None => None
      case Some((e, rest)) => if At(rest, RP) then Some((e, rest[1..])) else None
  }

  function ParsePrimary(ts: Text): (r: Parsed<Expr>)
    ensures r.Some? ==> |r.value.1| < |ts|
    decreases |ts|, 1, 0
  {
    if ts == [] then None
    else
      match ts[0]
      case Num(x) => Some((Number(x), ts[1..]))
      case Symbol(_) => ParseParens(ts)
      case Word(w) =>
        if w == "label_replace" then ParseReplace(ts[1..])
        else if w == "vector" then
          if |ts| >= 4 && ts[1] == LP && ts[2].Num? && ts[3] == RP then Some((VectorOf(ts[2].value), ts[4..])) else None
        else if w == "rate" then ParseRate(ts[1..])
        else if AggOpOf(w).Some? then ParseAggregate(AggOpOf(w).value, ts[1..])
        else if Reserved(w) then None
        else ParseSelector(w, ts[1..])
      case _ => None
  }

  function ParseSelector(metric: string, ts: Text): (r: Parsed<Expr>)
    ensures r.Some? ==> |r.value.1| <= |ts|
  {
    if !At(ts, Symbol('{')) then Some((Selector(metric, []), ts))
    else
      match ParseMatchers(ts[1..])
      case None => None
      case Some((ms, rest)) => Some((Selector(metric, ms), rest))
  }

  function ParseRate(ts: Text): (r: Parsed<Expr>)
    ensures r.Some? ==> |r.value.1| < |ts|
  {
    if At(ts, LP) && |ts| >= 2 && ts[1].Word? && !Reserved(ts[1].word) then
      match ParseSelector(ts[1].word, ts[2..])
      case None => None
      case Some((e, rest)) =>
        if |rest| >= 2 && rest[0] == RateWindow && rest[1] == RP && e.Selector?
        then Some((RateOf(e.metric, e.matchers), rest[2..])) else None
    else None
  }

  function ParseAggregate(agg: AggOp, ts: Text): (r: Parsed<Expr>)
    ensures r.Some? ==> |r.value.1| < |ts|
    decreases |ts|, 1
  {
    if At(ts, Word("by")) then
      if !At(ts[1..], LP) then None
      else
        match ParseNames(ts[2..])
        case None => None
        case Some((keep, rest)) =>
          match ParseParens(rest)
          case None => None
          case Some((e, rest')) => Some((Aggregate(agg, keep, e), rest'))
    else
      match ParseParens(ts)
      case None => None
      case Some((e, rest)) => Some((Aggregate(agg, [], e), rest))
  }

  // The four string arguments of label_replace and the closing parenthesis.
  predicate AtReplaceArguments(ts: Text) {
    && |ts| >= 9
    && ts[0] == COMMA && ts[1].Quoted? && ts[2] == COMMA && ts[3].Quoted?
    && ts[4] == COMMA && ts[5].Quoted? && ts[6] == COMMA && ts[7].Quoted? && ts[8] == RP
  }

  function ParseReplace(ts: Text): (r: Parsed<Expr>)
    ensures r.Some? ==> |r.value.1| < |ts|
    decreases |ts|, 0
  {
    if !At(ts, LP) then None
    else
      match ParseExpr(0, ts[1..])
      case None => None
      case Some((e, rest)) =>
        if AtReplaceArguments(rest)
        then Some((LabelReplace(e, rest[1].text, TemplateOf(rest[3].text), rest[5].text, PatternOf(rest[7].text)), rest[9..]))
        else None
  }
}
