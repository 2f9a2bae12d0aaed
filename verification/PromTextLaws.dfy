// Composition laws of the parser: an operand text that parses on its own still parses to the same
// tree inside a larger text, provided what follows it binds no tighter than its level.
module PromTextLaws {
  import opened Wrappers
  import opened PromQL
  import opened PromText

  // What may follow an operand of the given level without being drawn into it.
  predicate Stops(level: nat, ext: Text) {
    ext == [] || ext[0] == RP || ext[0] == COMMA || (ext[0].Op? && Level(ext[0].op) < level)
  }

  ghost function Extended<T>(p: Parsed<T>, ext: Text): Parsed<T> {
    match p
    case None => None
    case Some((x, rest)) => Some((x, rest + ext))
  }

  lemma DropExtended(ts: Text, ext: Text, n: nat)
    requires n <= |ts|
    ensures (ts + ext)[n..] == ts[n..] + ext
  {
  }

  lemma {:induction false} ExtendNames(ts: Text, ext: Text)
    requires ParseNames(ts).Some?
    ensures ParseNames(ts + ext) == Extended(ParseNames(ts), ext)
    decreases |ts|
  {
    if At(ts, RP) {
      DropExtended(ts, ext, 1);
    } else {
      DropExtended(ts, ext, 2);
      if ts[1] != RP {
        ExtendNames(ts[2..], ext);
      }
    }
  }

  lemma {:induction false} ExtendMatchers(ts: Text, ext: Text)
    requires ParseMatchers(ts).Some?
    ensures ParseMatchers(ts + ext) == Extended(ParseMatchers(ts), ext)
    decreases |ts|
  {
    assert (ts + ext)[4..] == ts[4..] + ext;
    if ts[3] != Symbol('}') {
      ExtendMatchers(ts[4..], ext);
    }
  }

  lemma ExtendCarried(names: seq<string>, ts: Text, ext: Text)
    requires ParseCarried(names, ts).Some? && ParseCarried(names, ts).value.1 != []
    ensures ParseCarried(names, ts + ext) == Extended(ParseCarried(names, ts), ext)
  {
    if At(ts, Word("group_left")) {
      assert (ts + ext)[1..] == ts[1..] + ext && (ts + ext)[2..] == ts[2..] + ext;
      ExtendNames(ts[2..], ext);
    }
  }

  lemma ExtendMatching(ts: Text, ext: Text)
    requires ParseMatching(ts).Some? && ParseMatching(ts).value.1 != []
    ensures ParseMatching(ts + ext) == Extended(ParseMatching(ts), ext)
  {
    if At(ts, Word("on")) {
      assert (ts + ext)[1..] == ts[1..] + ext && (ts + ext)[2..] == ts[2..] + ext;
      ExtendNames(ts[2..], ext);
      var (names, rest) := ParseNames(ts[2..]).value;
      ExtendCarried(names, rest, ext);
    }
  }

  lemma ExtendSelector(metric: string, ts: Text, ext: Text)
    requires ParseSelector(metric, ts).Some? && (ts == [] ==> !At(ext, Symbol('{')))
    ensures ParseSelector(metric, ts + ext) == Extended(ParseSelector(metric, ts), ext)
  {
    if At(ts, Symbol('{')) {
      assert (ts + ext)[1..] == ts[1..] + ext;
      ExtendMatchers(ts[1..], ext);
    }
  }

  lemma ExtendRate(ts: Text, ext: Text)
    requires ParseRate(ts).Some?
    ensures ParseRate(ts + ext) == Extended(ParseRate(ts), ext)
  {
    assert (ts + ext)[2..] == ts[2..] + ext;
    var rest := ParseSelector(ts[1].word, ts[2..]).value.1;
    ExtendSelector(ts[1].word, ts[2..], ext);
    assert (rest + ext)[2..] == rest[2..] + ext;
  }

  // The extension matters only when the parse reaches the end of the text.
  ghost predicate Fits<T>(level: nat, p: Parsed<T>, ext: Text) {
    p.Some? && (p.value.1 == [] ==> Stops(level, ext))
  }

  lemma {:induction false} ExtendExpr(level: nat, ts: Text, ext: Text)
    requires level <= PRIMARY && Fits(level, ParseExpr(level, ts), ext)
    ensures ParseExpr(level, ts + ext) == Extended(ParseExpr(level, ts), ext)
    decreases |ts|, 2, PRIMARY - level
  {
    if level == PRIMARY {
      ExtendPrimary(ts, ext);
    } else {
      var (e, rest) := ParseExpr(level + 1, ts).value;
      ExtendExpr(level + 1, ts, ext);
      ExtendTail(level, e, rest, ext);
    }
  }

  // One more operator and operand in a tail.
  lemma TailStep(level: nat, left: Expr, op: BinOp, ts: Text, m: Matching, rest: Text, right: Expr, rest': Text)
    requires level < PRIMARY && Level(op) == level
    requires ParseMatching(ts) == Some((m, rest))
    requires ParseExpr(level + 1, rest) == Some((right, rest'))
    ensures ParseTail(level, left, [Op(op)] + ts) == ParseTail(level, Binary(op, m, left, right), rest')
  {
    assert ([Op(op)] + ts)[1..] == ts;
  }

  // The same step with an extension behind it.
  lemma TailStepExtended(level: nat, left: Expr, ts: Text, m: Matching, rest: Text, right: Expr, rest': Text, ext: Text)
    requires level < PRIMARY && |ts| > 0 && ts[0].Op? && Level(ts[0].op) == level
    requires ParseMatching(ts[1..] + ext) == Some((m, rest + ext))
    requires ParseExpr(level + 1, rest + ext) == Some((right, rest' + ext))
    ensures ParseTail(level, left, ts + ext) == ParseTail(level, Binary(ts[0].op, m, left, right), rest' + ext)
  {
    assert ts + ext == [Op(ts[0].op)] + (ts[1..] + ext);
    TailStep(level, left, ts[0].op, ts[1..] + ext, m, rest + ext, right, rest' + ext);
  }

  lemma {:induction false} ExtendTail(level: nat, left: Expr, ts: Text, ext: Text)
    requires level < PRIMARY && Fits(level, ParseTail(level, left, ts), ext)
    ensures ParseTail(level, left, ts + ext) == Extended(ParseTail(level, left, ts), ext)
    decreases |ts|, 0
  {
    if |ts| > 0 && ts[0].Op? && Level(ts[0].op) == level {
      var (m, rest) := ParseMatching(ts[1..]).value;
      var (right, rest') := ParseExpr(level + 1, rest).value;
      assert ParseMatching(ts[1..] + ext) == Some((m, rest + ext)) by { ExtendMatching(ts[1..], ext); }
      assert ParseExpr(level + 1, rest + ext) == Some((right, rest' + ext)) by { ExtendExpr(level + 1, rest, ext); }
      TailStepExtended(level, left, ts, m, rest, right, rest', ext);
      ExtendTail(level, Binary(ts[0].op, m, left, right), rest', ext);
    }
  }

  lemma {:induction false} ExtendParens(ts: Text, ext: Text)
    requires ParseParens(ts).Some?
    ensures ParseParens(ts + ext) == Extended(ParseParens(ts), ext)
    decreases |ts|, 0
  {
    assert (ts + ext)[1..] == ts[1..] + ext;
    var (e, rest) := ParseExpr(0, ts[1..]).value;
    ExtendExpr(0, ts[1..], ext);
    assert (rest + ext)[1..] == rest[1..] + ext;
  }

  lemma {:induction false} ExtendReplace(ts: Text, ext: Text)
    requires ParseReplace(ts).Some?
    ensures ParseReplace(ts + ext) == Extended(ParseReplace(ts), ext)
    decreases |ts|, 0
  {
    assert (ts + ext)[1..] == ts[1..] + ext;
    var (e, rest) := ParseExpr(0, ts[1..]).value;
    ExtendExpr(0, ts[1..], ext);
    assert (rest + ext)[9..] == rest[9..] + ext;
  }

  lemma {:induction false} ExtendAggregate(agg: AggOp, ts: Text, ext: Text)
    requires ParseAggregate(agg, ts).Some?
    ensures ParseAggregate(agg, ts + ext) == Extended(ParseAggregate(agg, ts), ext)
    decreases |ts|, 1
  {
    if At(ts, Word("by")) {
      assert (ts + ext)[1..] == ts[1..] + ext && (ts + ext)[2..] == ts[2..] + ext;
      ExtendNames(ts[2..], ext);
      ExtendParens(ParseNames(ts[2..]).value.1, ext);
    } else {
      ExtendParens(ts, ext);
    }
  }

  lemma {:induction false} ExtendPrimary(ts: Text, ext: Text)
    requires Fits(PRIMARY, ParsePrimary(ts), ext)
    ensures ParsePrimary(ts + ext) == Extended(ParsePrimary(ts), ext)
    decreases |ts|, 1
  {
    assert (ts + ext)[1..] == ts[1..] + ext;
    match ts[0]
    case Symbol(_) => ExtendParens(ts, ext);
    case Word(w) =>
      if w == "label_replace" {
        ExtendReplace(ts[1..], ext);
      } else if w == "vector" {
        assert (ts + ext)[4..] == ts[4..] + ext;
      } else if w == "rate" {
        ExtendRate(ts[1..], ext);
      } else if AggOpOf(w).Some? {
        ExtendAggregate(AggOpOf(w).value, ts[1..], ext);
      } else {
        ExtendSelector(w, ts[1..], ext);
      }
    case _ =>
  }

  // ---------------------------------------------------------------- whole texts

  // The text reads as the tree, with nothing left over, at a level and hence at every looser one.
  ghost predicate ReadsAt(level: nat, ts: Text, e: Expr)
    requires level <= PRIMARY
  {
    ParseExpr(level, ts) == Some((e, []))
  }

  // A query as a whole.
  ghost predicate ReadsAs(ts: Text, e: Expr) {
    ReadsAt(0, ts, e)
  }

  lemma {:induction false} Loosen(level: nat, to: nat, ts: Text, e: Expr)
    requires to <= level <= PRIMARY && ReadsAt(level, ts, e)
    ensures ReadsAt(to, ts, e)
    decreases level - to
  {
    if to < level {
      Loosen(level, to + 1, ts, e);
    }
  }

  // What an expression cannot start with.
  lemma {:induction false} StartsExpr(level: nat, ts: Text)
    requires level <= PRIMARY && ParseExpr(level, ts).Some?
    ensures ts != [] && !At(ts, Word("on")) && !At(ts, Word("by")) && !At(ts, Word("group_left"))
    decreases PRIMARY - level
  {
    if level < PRIMARY {
      StartsExpr(level + 1, ts);
    }
  }

  lemma ParensRead(arg: Text, e: Expr)
    requires ReadsAs(arg, e)
    ensures ParseParens([LP] + arg + [RP]) == Some((e, []))
  {
    assert ([LP] + arg + [RP])[1..] == arg + [RP];
    ExtendExpr(0, arg, [RP]);
    assert [] + [RP] == [RP] && [RP][1..] == [];
  }

  lemma InParens(ts: Text, e: Expr)
    requires ReadsAs(ts, e)
    ensures ReadsAt(PRIMARY, [LP] + ts + [RP], e)
  {
    ParensRead(ts, e);
    var all := [LP] + ts + [RP];
    assert all[0] == Symbol('(');
    assert ParsePrimary(all) == ParseParens(all);
  }

  function NamesText(names: seq<string>): Text {
    if names == [] then []
    else if |names| == 1 then [Word(names[0])]
    else [Word(names[0]), COMMA] + NamesText(names[1..])
  }

  lemma {:induction false} ReadNames(names: seq<string>, rest: Text)
    ensures ParseNames(NamesText(names) + [RP] + rest) == Some((names, rest))
    decreases |names|
  {
    var ts := NamesText(names) + [RP] + rest;
    if names == [] {
      assert ts == [RP] + rest && ts[1..] == rest;
    } else if |names| == 1 {
      assert ts == [Word(names[0]), RP] + rest && ts[2..] == rest;
      assert names == [names[0]];
    } else {
      var more := NamesText(names[1..]) + [RP] + rest;
      ReadNames(names[1..], rest);
      assert more[0] == Word(names[1]);
      assert ts == [Word(names[0]), COMMA] + more && ts[2..] == more;
      assert names == [names[0]] + names[1..];
    }
  }

  function OnText(names: seq<string>, rest: Text): Text {
    [Word("on"), LP] + (NamesText(names) + [RP] + rest)
  }

  function GroupLeftText(carried: seq<string>): Text {
    [Word("group_left"), LP] + (NamesText(carried) + [RP])
  }

  function MatchingText(m: Matching): Text {
    match m
    case NoMatching => []
    case On(names) => OnText(names, [])
    case OnGroupLeft(names, carried) => OnText(names, GroupLeftText(carried))
  }

  lemma OnTextThen(names: seq<string>, rest: Text, b: Text)
    ensures OnText(names, rest) + b == OnText(names, rest + b)
  {
  }

  lemma ReadOn(names: seq<string>, rest: Text)
    ensures ParseMatching(OnText(names, rest)) == ParseCarried(names, rest)
  {
    var ts := OnText(names, rest);
    assert ts[1..][0] == LP && ts[2..] == NamesText(names) + [RP] + rest;
    ReadNames(names, rest);
  }

  lemma ReadCarried(names: seq<string>, carried: seq<string>, b: Text)
    ensures ParseCarried(names, GroupLeftText(carried) + b) == Some((OnGroupLeft(names, carried), b))
  {
    var ts := GroupLeftText(carried) + b;
    assert ts[1..][0] == LP && ts[2..] == NamesText(carried) + [RP] + b;
    ReadNames(carried, b);
  }

  lemma ReadMatching(m: Matching, level: nat, b: Text)
    requires level <= PRIMARY && ParseExpr(level, b).Some?
    ensures ParseMatching(MatchingText(m) + b) == Some((m, b))
  {
    StartsExpr(level, b);
    match m
    case NoMatching =>
      assert MatchingText(m) + b == b;
    case On(names) =>
      OnTextThen(names, [], b);
      assert [] + b == b;
      ReadOn(names, b);
    case OnGroupLeft(names, carried) =>
      OnTextThen(names, GroupLeftText(carried), b);
      ReadOn(names, GroupLeftText(carried) + b);
      ReadCarried(names, carried, b);
  }

  function BinaryText(op: BinOp, m: Matching, a: Text, b: Text): Text {
    a + ([Op(op)] + (MatchingText(m) + b))
  }

  // After a complete operand of its level, parsing goes on with the tail.
  lemma {:induction false} TailAfter(level: nat, left: Expr, ts: Text, e: Expr, ext: Text)
    requires level < PRIMARY && Stops(level + 1, ext)
    requires ParseTail(level, left, ts) == Some((e, []))
    ensures ParseTail(level, left, ts + ext) == ParseTail(level, e, ext)
    decreases |ts|
  {
    if ts == [] {
      assert ts + ext == ext;
    } else {
      var (m, rest) := ParseMatching(ts[1..]).value;
      var (right, rest') := ParseExpr(level + 1, rest).value;
      assert ParseMatching(ts[1..] + ext) == Some((m, rest + ext)) by { ExtendMatching(ts[1..], ext); }
      assert ParseExpr(level + 1, rest + ext) == Some((right, rest' + ext)) by { ExtendExpr(level + 1, rest, ext); }
      TailStepExtended(level, left, ts, m, rest, right, rest', ext);
      TailAfter(level, Binary(ts[0].op, m, left, right), rest', e, ext);
    }
  }

  lemma ExprAfter(level: nat, ts: Text, e: Expr, ext: Text)
    requires level < PRIMARY && Stops(level + 1, ext) && ReadsAt(level, ts, e)
    ensures ParseExpr(level, ts + ext) == ParseTail(level, e, ext)
  {
    var (left, rest) := ParseExpr(level + 1, ts).value;
    ExtendExpr(level + 1, ts, ext);
    TailAfter(level, left, rest, e, ext);
  }

  lemma LastOperand(level: nat, op: BinOp, m: Matching, b: Text, x: Expr, y: Expr)
    requires level == Level(op) && ReadsAt(level + 1, b, y)
    ensures ParseTail(level, x, [Op(op)] + (MatchingText(m) + b)) == Some((Binary(op, m, x, y), []))
  {
    ReadMatching(m, level + 1, b);
    TailStep(level, x, op, MatchingText(m) + b, m, b, y, []);
  }

  lemma FirstOperand(level: nat, a: Text, ext: Text, x: Expr, e: Expr)
    requires level < PRIMARY && Stops(level + 1, ext) && ReadsAt(level, a, x)
    requires ParseTail(level, x, ext) == Some((e, []))
    ensures ReadsAt(level, a + ext, e)
  {
    ExprAfter(level, a, x, ext);
  }

  // The left operand may contain operators of the same level, the right one only tighter ones.
  lemma BinaryReads(op: BinOp, m: Matching, a: Text, b: Text, x: Expr, y: Expr)
    requires ReadsAt(Level(op), a, x) && ReadsAt(Level(op) + 1, b, y)
    ensures ReadsAt(Level(op), BinaryText(op, m, a, b), Binary(op, m, x, y))
  {
    var ext := [Op(op)] + (MatchingText(m) + b);
    LastOperand(Level(op), op, m, b, x, y);
    FirstOperand(Level(op), a, ext, x, Binary(op, m, x, y));
  }

  // ---------------------------------------------------------------- primaries

  function MatcherText(m: Matcher): Text {
    [Word(m.name), if m.op.IsMatch? then MatchSign else Symbol('='), Quoted(m.value)]
  }

  function MatchersText(ms: seq<Matcher>): Text
    requires ms != []
  {
    if |ms| == 1 then MatcherText(ms[0]) else MatcherText(ms[0]) + [COMMA] + MatchersText(ms[1..])
  }

  lemma ReadMatcher(m: Matcher, sep: Token, rest: Text)
    requires sep == COMMA || sep == Symbol('}')
    ensures var ts := MatcherText(m) + [sep] + rest;
            && ts[0] == Word(m.name) && (ts[1] == Symbol('=') || ts[1] == MatchSign) && ts[2] == Quoted(m.value)
            && ts[3] == sep && ts[4..] == rest
            && (ts[1] == MatchSign <==> m.op.IsMatch?)
  {
  }

  lemma OneMatcher(m: Matcher, rest: Text)
    ensures ParseMatchers(MatcherText(m) + [Symbol('}')] + rest) == Some(([m], rest))
  {
    ReadMatcher(m, Symbol('}'), rest);
  }

  lemma NextMatcher(m: Matcher, more: Text, ms: seq<Matcher>, rest: Text)
    requires ParseMatchers(more) == Some((ms, rest))
    ensures ParseMatchers(MatcherText(m) + [COMMA] + more) == Some(([m] + ms, rest))
  {
    ReadMatcher(m, COMMA, more);
  }

  lemma {:induction false} ReadMatchers(ms: seq<Matcher>, rest: Text)
    requires ms != []
    ensures ParseMatchers(MatchersText(ms) + [Symbol('}')] + rest) == Some((ms, rest))
    decreases |ms|
  {
    var ts := MatchersText(ms) + [Symbol('}')] + rest;
    if |ms| == 1 {
      assert ts == MatcherText(ms[0]) + [Symbol('}')] + rest;
      OneMatcher(ms[0], rest);
      assert ms == [ms[0]];
    } else {
      var more := MatchersText(ms[1..]) + [Symbol('}')] + rest;
      ReadMatchers(ms[1..], rest);
      assert ts == MatcherText(ms[0]) + [COMMA] + more;
      NextMatcher(ms[0], more, ms[1..], rest);
      assert ms == [ms[0]] + ms[1..];
    }
  }

  function SelectorText(metric: string, ms: seq<Matcher>): Text
    requires ms != []
  {
    [Word(metric), Symbol('{')] + MatchersText(ms) + [Symbol('}')]
  }

  lemma SelectorReads(metric: string, ms: seq<Matcher>)
    requires ms != [] && !Reserved(metric)
    ensures ReadsAt(PRIMARY, SelectorText(metric, ms), Selector(metric, ms))
  {
    var ts := SelectorText(metric, ms);
    ReadMatchers(ms, []);
    assert ts[1..][1..] == MatchersText(ms) + [Symbol('}')] + [];
    assert AggOpOf(metric).None?;
  }

  function RateText(metric: string, ms: seq<Matcher>): Text
    requires ms != []
  {
    [Word("rate"), LP] + SelectorText(metric, ms) + [RateWindow, RP]
  }

  lemma RateReads(metric: string, ms: seq<Matcher>)
    requires ms != [] && !Reserved(metric)
    ensures ReadsAt(PRIMARY, RateText(metric, ms), RateOf(metric, ms))
  {
    var ts := RateText(metric, ms);
    ReadMatchers(ms, [RateWindow, RP]);
    assert ts[1..][2..][1..] == MatchersText(ms) + [Symbol('}')] + [RateWindow, RP];
    assert ts[1..][1] == Word(metric) && ts[1..][2..][0] == Symbol('{');
  }

  function ReplaceText(arg: Text, dst: string, replacement: string, src: string, regex: string): Text {
    [Word("label_replace"), LP] + arg
    + [COMMA, Quoted(dst), COMMA, Quoted(replacement), COMMA, Quoted(src), COMMA, Quoted(regex), RP]
  }

  lemma ReplaceArguments(ts: Text, dst: string, replacement: string, src: string, regex: string, e: Expr)
    requires At(ts, LP)
    requires ParseExpr(0, ts[1..])
          == Some((e, [COMMA, Quoted(dst), COMMA, Quoted(replacement), COMMA, Quoted(src), COMMA, Quoted(regex), RP]))
    ensures ParseReplace(ts) == Some((LabelReplace(e, dst, TemplateOf(replacement), src, PatternOf(regex)), []))
  {
    var rest := [COMMA, Quoted(dst), COMMA, Quoted(replacement), COMMA, Quoted(src), COMMA, Quoted(regex), RP];
    assert rest[9..] == [];
  }

  lemma ReplaceReads(arg: Text, dst: string, replacement: string, src: string, regex: string, e: Expr)
    requires ReadsAs(arg, e)
    ensures ReadsAt(PRIMARY, ReplaceText(arg, dst, replacement, src, regex),
                    LabelReplace(e, dst, TemplateOf(replacement), src, PatternOf(regex)))
  {
    var ts := ReplaceText(arg, dst, replacement, src, regex);
    var ext := [COMMA, Quoted(dst), COMMA, Quoted(replacement), COMMA, Quoted(src), COMMA, Quoted(regex), RP];
    assert ts[1..] == [LP] + arg + ext;
    assert ts[1..][1..] == arg + ext;
    ExtendExpr(0, arg, ext);
    assert [] + ext == ext;
    ReplaceArguments(ts[1..], dst, replacement, src, regex, e);
  }

  lemma PrefixDollar(prefix: string)
    requires Literal(prefix)
    ensures TemplateOf(prefix + "$1") == PrefixGroup(prefix)
    ensures PatternOf(prefix + "(.+)") == PrefixRest(prefix)
  {
    var t, p := prefix + "$1", prefix + "(.+)";
    assert t[..|t| - 2] == prefix && t[|t| - 2..] == "$1";
    assert p[..|p| - 4] == prefix && p[|p| - 4..] == "(.+)";
  }

  // label_replace(arg, dst, "to$1", src, "from(.+)")
  function MoveText(arg: Text, dst: string, to: string, src: string, from: string): Text {
    ReplaceText(arg, dst, to + "$1", src, from + "(.+)")
  }

  lemma MoveReads(arg: Text, dst: string, to: string, src: string, from: string, e: Expr)
    requires ReadsAs(arg, e) && Literal(to) && Literal(from)
    ensures ReadsAt(PRIMARY, MoveText(arg, dst, to, src, from), MoveLabel(e, dst, to, src, from))
  {
    PrefixDollar(to);
    PrefixDollar(from);
    ReplaceReads(arg, dst, to + "$1", src, from + "(.+)", e);
  }

  function AggText(agg: AggOp): string {
    match agg
    case SumOf => "sum"
    case MaxOf => "max"
    case CountOf => "count"
  }

  // Without grouping labels the generators leave `by` out.
  function ByText(keep: seq<string>, parens: Text): Text {
    [Word("by"), LP] + (NamesText(keep) + [RP] + parens)
  }

  function AggregateText(agg: AggOp, keep: seq<string>, arg: Text): Text {
    var parens := [LP] + arg + [RP];
    [Word(AggText(agg))] + (if keep == [] then parens else ByText(keep, parens))
  }

  lemma ReadAggregate(agg: AggOp, keep: seq<string>, parens: Text, e: Expr)
    requires ParseParens(parens) == Some((e, []))
    ensures ParseAggregate(agg, ByText(keep, parens)) == Some((Aggregate(agg, keep, e), []))
  {
    var ts := ByText(keep, parens);
    assert ts[1..][0] == LP;
    assert ts[2..] == NamesText(keep) + [RP] + parens;
    ReadNames(keep, parens);
  }

  lemma AggregateWord(agg: AggOp, ts: Text)
    ensures ParsePrimary([Word(AggText(agg))] + ts) == ParseAggregate(agg, ts)
  {
    assert ([Word(AggText(agg))] + ts)[1..] == ts;
  }

  lemma AggregateReads(agg: AggOp, keep: seq<string>, arg: Text, e: Expr)
    requires ReadsAs(arg, e)
    ensures ReadsAt(PRIMARY, AggregateText(agg, keep, arg), Aggregate(agg, keep, e))
  {
    var parens := [LP] + arg + [RP];
    ParensRead(arg, e);
    if keep == [] {
      AggregateWord(agg, parens);
    } else {
      ReadAggregate(agg, keep, parens, e);
      AggregateWord(agg, ByText(keep, parens));
    }
  }

  lemma NumberReads(x: real)
    ensures ReadsAt(PRIMARY, [Num(x)], Number(x))
  {
  }

  lemma VectorReads(x: real)
    ensures ReadsAt(PRIMARY, [Word("vector"), LP, Num(x), RP], VectorOf(x))
  {
  }
}
