// Lowercasing a MAC label with nothing but label_replace: twelve anchored replacements for each of
// the letters A to F, each turning the first remaining occurrence into lower case.
module MacLowercase {
  import opened PromQL
  import opened VectorLaws
  import opened Reconciliation
  import opened PromText
  import opened PromTextLaws

  const LETTERS := "ABCDEF"
  const ROUNDS: nat := 12

  predicate HexLetter(c: char) {
    'A' <= c <= 'F'
  }

  function Lower(c: char): (d: char)
    requires HexLetter(c)
    ensures 'a' <= d <= 'f'
  {
    (c as int + 32) as char
  }

  // ---------------------------------------------------------------- the generated expression

  function Step(e: Expr, name: string, c: char): Expr
    requires HexLetter(c)
  {
    LabelReplace(e, name, AroundWith(Lower(c)), name, AroundFirst(c))
  }

  // Every letter is lowered to its own small form.
  lemma LowerLetters()
    ensures Lower('A') == 'a' && Lower('B') == 'b' && Lower('C') == 'c'
    ensures Lower('D') == 'd' && Lower('E') == 'e' && Lower('F') == 'f'
  {
  }

  predicate HexLetters(cs: string) {
    forall c | c in cs :: HexLetter(c)
  }

  // One replacement per letter of the schedule, innermost first.
  function Chain(e: Expr, name: string, cs: string): Expr
    requires HexLetters(cs)
    decreases |cs|
  {
    if cs == "" then e else Step(Chain(e, name, cs[..|cs| - 1]), name, cs[|cs| - 1])
  }

  function Repeat(c: char, n: nat): (s: string)
    ensures |s| == n && forall d | d in s :: d == c
  {
    seq(n, _ => c)
  }

  function Schedule(letters: string): (s: string)
    requires HexLetters(letters)
    ensures HexLetters(s)
    decreases |letters|
  {
    if letters == "" then "" else Schedule(letters[..|letters| - 1]) + Repeat(letters[|letters| - 1], ROUNDS)
  }

  lemma ChainOneMore(e: Expr, name: string, cs: string, c: char)
    requires HexLetters(cs) && HexLetter(c)
    ensures HexLetters(cs + [c]) && Chain(e, name, cs + [c]) == Step(Chain(e, name, cs), name, c)
  {
    assert (cs + [c])[..|cs + [c]| - 1] == cs;
  }

  lemma ScheduleOneMore(letters: string, i: nat)
    requires HexLetters(letters) && i < |letters|
    ensures Schedule(letters[..i + 1]) == Schedule(letters[..i]) + Repeat(letters[i], ROUNDS)
  {
    assert letters[..i + 1][..i] == letters[..i];
  }

  lemma RepeatOneMore(c: char, n: nat)
    ensures Repeat(c, n + 1) == Repeat(c, n) + [c]
  {
  }

  method LowercaseLetters(expr: Expr, name: string, letters: string) returns (lowered: Expr)
    requires HexLetters(letters)
    ensures lowered == Chain(expr, name, Schedule(letters))
  {
    lowered := expr;
    ghost var chain := "";
    for i := 0 to |letters|
      invariant chain == Schedule(letters[..i]) && HexLetters(chain) && lowered == Chain(expr, name, chain)
    {
      var upper := letters[i];
      assert upper in letters;
      ghost var done := chain;
      assert done + Repeat(upper, 0) == done;
      for j := 0 to ROUNDS
        invariant chain == done + Repeat(upper, j) && HexLetters(chain) && lowered == Chain(expr, name, chain)
      {
        RepeatOneMore(upper, j);
        ChainOneMore(expr, name, chain, upper);
        lowered := Step(lowered, name, upper);
        chain := chain + [upper];
      }
      ScheduleOneMore(letters, i);
    }
    assert letters[..|letters|] == letters;
  }

  method LowercaseMacLabel(expr: Expr, name: string) returns (lowered: Expr)
    ensures lowered == Chain(expr, name, Schedule(LETTERS))
  {
    lowered := LowercaseLetters(expr, name, LETTERS);
  }

  // ---------------------------------------------------------------- one label value

  function StepValue(c: char, s: string): string
    requires HexLetter(c)
  {
    var i := FirstIndex(c, s);
    if i < |s| then s[..i] + [Lower(c)] + s[i + 1..] else s
  }

  function ChainValue(cs: string, s: string): string
    requires HexLetters(cs)
    decreases |cs|
  {
    if cs == "" then s else StepValue(cs[|cs| - 1], ChainValue(cs[..|cs| - 1], s))
  }

  // The intended result: every letter A to F in lower case.
  function LowerHex(s: string): (r: string)
    ensures |r| == |s|
    ensures forall i | 0 <= i < |s| :: r[i] == if HexLetter(s[i]) then Lower(s[i]) else s[i]
  {
    seq(|s|, i requires 0 <= i < |s| => if HexLetter(s[i]) then Lower(s[i]) else s[i])
  }

  lemma OccurrencesAround(a: string, x: char, b: string, d: char)
    ensures multiset(a + [x] + b)[d] == multiset(a)[d] + (if x == d then 1 else 0) + multiset(b)[d]
  {
  }

  lemma StepOccurrences(c: char, s: string, d: char)
    requires HexLetter(c) && HexLetter(d)
    ensures multiset(StepValue(c, s))[d] == if c == d && c in s then multiset(s)[d] - 1 else multiset(s)[d]
  {
    var i := FirstIndex(c, s);
    if i < |s| {
      var a, b := s[..i], s[i + 1..];
      OccurrencesAround(a, c, b, d);
      OccurrencesAround(a, Lower(c), b, d);
      assert s == a + [c] + b;
    } else {
      assert s[..i] == s;
    }
  }

  lemma StepKeepsLower(c: char, s: string)
    requires HexLetter(c)
    ensures LowerHex(StepValue(c, s)) == LowerHex(s)
  {
  }

  lemma LastOccurrence(cs: string, d: char)
    requires cs != ""
    ensures multiset(cs)[d] == multiset(cs[..|cs| - 1])[d] + if cs[|cs| - 1] == d then 1 else 0
  {
    assert cs == cs[..|cs| - 1] + [cs[|cs| - 1]];
  }

  lemma CharOccurs(c: char, s: string)
    ensures c in s <==> multiset(s)[c] > 0
  {
    assert c in s <==> c in multiset(s);
  }

  // How often the schedule replaces a letter.
  lemma {:induction false} ChainOccurrences(cs: string, s: string, d: char)
    requires HexLetters(cs) && HexLetter(d)
    ensures multiset(ChainValue(cs, s))[d]
            == if multiset(cs)[d] < multiset(s)[d] then multiset(s)[d] - multiset(cs)[d] else 0
    decreases |cs|
  {
    if cs != "" {
      var last, rest := cs[|cs| - 1], cs[..|cs| - 1];
      ChainOccurrences(rest, s, d);
      StepOccurrences(last, ChainValue(rest, s), d);
      LastOccurrence(cs, d);
      CharOccurs(last, ChainValue(rest, s));
    }
  }

  lemma {:induction false} ChainKeepsLower(cs: string, s: string)
    requires HexLetters(cs)
    ensures LowerHex(ChainValue(cs, s)) == LowerHex(s)
    decreases |cs|
  {
    if cs != "" {
      ChainKeepsLower(cs[..|cs| - 1], s);
      StepKeepsLower(cs[|cs| - 1], ChainValue(cs[..|cs| - 1], s));
    }
  }

  lemma {:induction false} ScheduleOccurrences(letters: string, d: char)
    requires HexLetters(letters)
    ensures multiset(Schedule(letters))[d] == ROUNDS * multiset(letters)[d]
    decreases |letters|
  {
    if letters != "" {
      var last, rest := letters[|letters| - 1], letters[..|letters| - 1];
      ScheduleOccurrences(rest, d);
      assert letters == rest + [last];
      RepeatOccurrences(last, ROUNDS, d);
    }
  }

  lemma {:induction false} RepeatOccurrences(c: char, n: nat, d: char)
    ensures multiset(Repeat(c, n))[d] == if c == d then n else 0
    decreases n
  {
    if n > 0 {
      RepeatOccurrences(c, n - 1, d);
      assert Repeat(c, n) == Repeat(c, n - 1) + [c];
    }
  }

  lemma EachLetterOnce(d: char)
    requires HexLetter(d)
    ensures multiset(LETTERS)[d] == 1
  {
    assert multiset(LETTERS) == multiset{'A', 'B', 'C', 'D', 'E', 'F'};
  }

  ghost predicate FewLetters(s: string) {
    forall d | HexLetter(d) :: multiset(s)[d] <= 12
  }

  lemma SurplusStays(s: string, d: char)
    requires HexLetter(d)
    ensures multiset(ChainValue(Schedule(LETTERS), s))[d] == if multiset(s)[d] > 12 then multiset(s)[d] - 12 else 0
  {
    EachLetterOnce(d);
    SurplusOf(LETTERS, s, d);
  }

  lemma SurplusOf(letters: string, s: string, d: char)
    requires HexLetters(letters) && HexLetter(d) && multiset(letters)[d] == 1
    ensures multiset(ChainValue(Schedule(letters), s))[d] == if multiset(s)[d] > 12 then multiset(s)[d] - 12 else 0
  {
    ScheduleOccurrences(letters, d);
    ChainOccurrences(Schedule(letters), s, d);
  }

  lemma NoLettersLeft(r: string)
    requires forall d | HexLetter(d) :: d !in r
    ensures r == LowerHex(r)
  {
    forall i | 0 <= i < |r| ensures r[i] == LowerHex(r)[i] {
      assert r[i] in r;
    }
  }

  // The whole schedule lowercases a value exactly when no letter occurs more than twelve times;
  // of a letter that does, the surplus stays, and the case of nothing else changes.
  lemma LowercasedExactly(s: string)
    ensures LowerHex(ChainValue(Schedule(LETTERS), s)) == LowerHex(s)
    ensures forall d | HexLetter(d) ::
              multiset(ChainValue(Schedule(LETTERS), s))[d] == if multiset(s)[d] > 12 then multiset(s)[d] - 12 else 0
    ensures ChainValue(Schedule(LETTERS), s) == LowerHex(s) <==> FewLetters(s)
  {
    var r := ChainValue(Schedule(LETTERS), s);
    ChainKeepsLower(Schedule(LETTERS), s);
    forall d | HexLetter(d) ensures multiset(r)[d] == if multiset(s)[d] > 12 then multiset(s)[d] - 12 else 0 {
      SurplusStays(s, d);
    }
    if FewLetters(s) {
      forall d | HexLetter(d) ensures d !in r {
        assert multiset(r)[d] == 0;
      }
      NoLettersLeft(r);
    }
    if r == LowerHex(s) {
      forall d | HexLetter(d) ensures multiset(s)[d] <= 12 {
        assert d !in LowerHex(s);
      }
    }
  }

  // ---------------------------------------------------------------- whole vectors

  function Cased(l: Labels, name: string, s: string): Labels {
    if Get(l, name) == "" then l else l[name := s]
  }

  ghost function CasedNames(v: Vector, name: string, cs: string): map<Labels, Labels>
    requires HexLetters(cs)
  {
    map l | l in v :: Cased(l, name, ChainValue(cs, Get(l, name)))
  }

  lemma StepNonEmpty(c: char, s: string)
    requires HexLetter(c)
    ensures StepValue(c, s) == "" <==> s == ""
  {
  }

  lemma {:induction false} ChainNonEmpty(cs: string, s: string)
    requires HexLetters(cs)
    ensures ChainValue(cs, s) == "" <==> s == ""
    decreases |cs|
  {
    if cs != "" {
      ChainNonEmpty(cs[..|cs| - 1], s);
      StepNonEmpty(cs[|cs| - 1], ChainValue(cs[..|cs| - 1], s));
    }
  }

  function StepRelabelling(name: string, c: char): Relabelling
    requires HexLetter(c)
  {
    Replace(name, AroundWith(Lower(c)), name, AroundFirst(c))
  }

  lemma StepRow(l: Labels, name: string, c: char)
    requires HexLetter(c)
    ensures Rewrite(StepRelabelling(name, c), l) == Cased(l, name, StepValue(c, Get(l, name)))
  {
    var s := Get(l, name);
    var i := FirstIndex(c, s);
    if i < |s| {
      assert StepValue(c, s) == s[..i] + [Lower(c)] + s[i + 1..];
    } else if s != "" {
      assert l[name := s] == l;
    }
  }

  lemma ChainRow(l: Labels, name: string, cs: string)
    requires HexLetters(cs) && cs != ""
    ensures
      var rest := cs[..|cs| - 1];
      Rewrite(StepRelabelling(name, cs[|cs| - 1]), Cased(l, name, ChainValue(rest, Get(l, name))))
      == Cased(l, name, ChainValue(cs, Get(l, name)))
  {
    var rest, s := cs[..|cs| - 1], Get(l, name);
    ChainNonEmpty(rest, s);
    var before := Cased(l, name, ChainValue(rest, s));
    StepRow(before, name, cs[|cs| - 1]);
    if s != "" {
      assert Get(before, name) == ChainValue(rest, s);
      assert l[name := ChainValue(rest, s)][name := ChainValue(cs, s)] == l[name := ChainValue(cs, s)];
    }
  }

  // Two renamings in a row fail or succeed like their composition.
  lemma Composed<K(!new), L(!new), M(!new)>(f: map<K, L>, g: map<L, M>, fg: map<K, M>)
    requires f.Values == g.Keys && f.Keys == fg.Keys
    requires forall k | k in f :: fg[k] == g[f[k]]
    ensures OneToOne(fg) <==> OneToOne(f) && OneToOne(g)
  {
    if OneToOne(fg) {
      forall x, y | x in g && y in g && g[x] == g[y] ensures x == y {
        var i :| i in f && f[i] == x;
        var j :| j in f && f[j] == y;
        assert fg[i] == fg[j];
      }
      forall i, j | i in f && j in f && f[i] == f[j] ensures i == j {
        assert fg[i] == fg[j];
      }
    }
  }

  lemma NamesCompose(v: Vector, name: string, cs: string)
    requires HexLetters(cs) && cs != "" && OneToOne(CasedNames(v, name, cs[..|cs| - 1]))
    ensures
      var f := CasedNames(v, name, cs[..|cs| - 1]);
      var g := Names(StepRelabelling(name, cs[|cs| - 1]), Renamed(v, f));
      && (OneToOne(CasedNames(v, name, cs)) <==> OneToOne(g))
      && (OneToOne(g) ==> Renamed(Renamed(v, f), g) == Renamed(v, CasedNames(v, name, cs)))
  {
    var f := CasedNames(v, name, cs[..|cs| - 1]);
    var g := Names(StepRelabelling(name, cs[|cs| - 1]), Renamed(v, f));
    var fg := CasedNames(v, name, cs);
    forall l | l in v ensures fg[l] == g[f[l]] {
      ChainRow(l, name, cs);
    }
    Composed(f, g, fg);
    if OneToOne(g) {
      RenamedTwice(v, f, g, fg);
    }
  }

  lemma CollisionStays(v: Vector, name: string, cs: string)
    requires HexLetters(cs) && cs != "" && !OneToOne(CasedNames(v, name, cs[..|cs| - 1]))
    ensures !OneToOne(CasedNames(v, name, cs))
  {
    var f := CasedNames(v, name, cs[..|cs| - 1]);
    var a, b :| a in f && b in f && f[a] == f[b] && a != b;
    ChainRow(a, name, cs);
    ChainRow(b, name, cs);
    assert CasedNames(v, name, cs)[a] == CasedNames(v, name, cs)[b];
  }

  ghost function ChainResult(v: Vector, name: string, cs: string): Result<Value>
    requires HexLetters(cs)
  {
    if OneToOne(CasedNames(v, name, cs)) then Ok(Vec(Renamed(v, CasedNames(v, name, cs)))) else Err(DuplicateLabels)
  }

  lemma EmptyChain(v: Vector, name: string)
    ensures ChainResult(v, name, "") == Ok(Vec(v))
  {
    forall l | l in v ensures CasedNames(v, name, "")[l] == l {
      if Get(l, name) != "" {
        assert l[name := Get(l, name)] == l;
      }
    }
    IdentityRenaming(v, CasedNames(v, name, ""));
  }

  lemma StepFails(env: Env, e: Expr, name: string, c: char, error: EvalError)
    requires HexLetter(c) && Eval(e, env) == Err(error)
    ensures Eval(Step(e, name, c), env) == Err(error)
  {
  }

  lemma StepResult(v: Vector, name: string, cs: string, u: Vector)
    requires HexLetters(cs) && cs != "" && OneToOne(CasedNames(v, name, cs[..|cs| - 1]))
    requires u == Renamed(v, CasedNames(v, name, cs[..|cs| - 1]))
    ensures EvalRelabel(StepRelabelling(name, cs[|cs| - 1]), Vec(u)) == ChainResult(v, name, cs)
  {
    NamesCompose(v, name, cs);
  }

  lemma StepSucceeds(env: Env, e: Expr, v: Vector, name: string, cs: string, u: Vector)
    requires HexLetters(cs) && cs != "" && OneToOne(CasedNames(v, name, cs[..|cs| - 1]))
    requires u == Renamed(v, CasedNames(v, name, cs[..|cs| - 1])) && Eval(e, env) == Ok(Vec(u))
    ensures Eval(Step(e, name, cs[|cs| - 1]), env) == ChainResult(v, name, cs)
  {
    var c := cs[|cs| - 1];
    StepResult(v, name, cs, u);
    EvalReplaceStep(env, e, Vec(u), name, AroundWith(Lower(c)), name, AroundFirst(c));
  }

  // The nested calls rename every series in one go, or fail exactly when two series end up under
  // the same labels.
  lemma {:induction false} ChainMeaning(env: Env, e: Expr, v: Vector, name: string, cs: string)
    requires HexLetters(cs) && Eval(e, env) == Ok(Vec(v))
    ensures Eval(Chain(e, name, cs), env) == ChainResult(v, name, cs)
    decreases |cs|
  {
    if cs == "" {
      EmptyChain(v, name);
    } else {
      var rest, c := cs[..|cs| - 1], cs[|cs| - 1];
      ChainMeaning(env, e, v, name, rest);
      if OneToOne(CasedNames(v, name, rest)) {
        StepSucceeds(env, Chain(e, name, rest), v, name, cs, Renamed(v, CasedNames(v, name, rest)));
      } else {
        CollisionStays(v, name, cs);
        StepFails(env, Chain(e, name, rest), name, c, DuplicateLabels);
      }
    }
  }

  ghost function LoweredNames(v: Vector, name: string): map<Labels, Labels> {
    map l | l in v :: Cased(l, name, LowerHex(Get(l, name)))
  }

  lemma NamesLowered(v: Vector, name: string)
    requires forall l | l in v :: FewLetters(Get(l, name))
    ensures CasedNames(v, name, Schedule(LETTERS)) == LoweredNames(v, name)
  {
    var a, b := CasedNames(v, name, Schedule(LETTERS)), LoweredNames(v, name);
    forall l | l in a.Keys ensures a[l] == b[l] {
      LowercasedExactly(Get(l, name));
    }
    SameMap(a, b);
  }

  // When no letter occurs more than twelve times, the query lowercases the label of every series,
  // and fails exactly when two series differ in nothing but that label's case.
  lemma LowercaseMeaning(env: Env, e: Expr, v: Vector, name: string)
    requires Eval(e, env) == Ok(Vec(v)) && forall l | l in v :: FewLetters(Get(l, name))
    ensures Eval(Chain(e, name, Schedule(LETTERS)), env)
            == if OneToOne(LoweredNames(v, name)) then Ok(Vec(Renamed(v, LoweredNames(v, name)))) else Err(DuplicateLabels)
  {
    ChainMeaning(env, e, v, name, Schedule(LETTERS));
    NamesLowered(v, name);
  }

  // ---------------------------------------------------------------- addresses

  // Pairs of characters between colons: five colons, so at most twelve of any letter.
  predicate IsMac(s: string) {
    |s| == 17 && s[2] == ':' && s[5] == ':' && s[8] == ':' && s[11] == ':' && s[14] == ':'
  }

  lemma {:induction false} GroupedLetters(s: string, groups: nat, d: char)
    requires groups > 0 && |s| == 3 * groups - 1 && forall i | 0 < i < groups :: s[3 * i - 1] == ':'
    requires d != ':'
    ensures multiset(s)[d] <= 2 * groups
    decreases groups
  {
    if groups == 1 {
      assert |multiset(s)| == 2;
    } else {
      var first, rest := s[..2], s[3..];
      assert s[3 * 1 - 1] == ':';
      assert s == first + [':'] + rest;
      forall i | 0 < i < groups - 1 ensures rest[3 * i - 1] == ':' {
        assert rest[3 * i - 1] == s[3 * (i + 1) - 1];
      }
      GroupedLetters(rest, groups - 1, d);
      OccurrencesAround(first, ':', rest, d);
      assert |multiset(first)| == 2;
    }
  }

  lemma MacFewLetters(s: string)
    requires IsMac(s)
    ensures FewLetters(s)
  {
    forall d | HexLetter(d) ensures multiset(s)[d] <= 12 {
      GroupedLetters(s, 6, d);
    }
  }

  // ---------------------------------------------------------------- text

  function RegexText(c: char): string {
    "([^" + [c] + "]*)" + [c] + "(.*)"
  }

  function ReplacementText(c: char): string
    requires HexLetter(c)
  {
    "${1}" + [Lower(c)] + "${2}"
  }

  lemma LetterPatterns(c: char)
    requires HexLetter(c)
    ensures PatternOf(RegexText(c)) == AroundFirst(c)
    ensures TemplateOf(ReplacementText(c)) == AroundWith(Lower(c))
  {
    var r, t := RegexText(c), ReplacementText(c);
    assert |r| == 12 && r[7] == c && r[8..] == "(.*)" && "(.*)"[2] != "(.+)"[2];
    assert |t| == 9 && t[4] == Lower(c) && t[7..] == "2}" && "2}"[0] != "$1"[0];
  }

  function ChainText(ts: Text, name: string, cs: string): Text
    requires HexLetters(cs)
    decreases |cs|
  {
    if cs == "" then ts
    else
      var c := cs[|cs| - 1];
      ReplaceText(ChainText(ts, name, cs[..|cs| - 1]), name, ReplacementText(c), name, RegexText(c))
  }

  lemma {:induction false} ChainReads(ts: Text, e: Expr, name: string, cs: string)
    requires HexLetters(cs) && ReadsAs(ts, e)
    ensures ReadsAs(ChainText(ts, name, cs), Chain(e, name, cs))
    decreases |cs|
  {
    if cs != "" {
      var c, rest := cs[|cs| - 1], cs[..|cs| - 1];
      ChainReads(ts, e, name, rest);
      LetterPatterns(c);
      ReplaceReads(ChainText(ts, name, rest), name, ReplacementText(c), name, RegexText(c), Chain(e, name, rest));
      Loosen(PRIMARY, 0, ChainText(ts, name, cs), Chain(e, name, cs));
    }
  }

  // Around an operand that binds tightly the chain does too.
  lemma ChainReadsPrimary(ts: Text, e: Expr, name: string, cs: string)
    requires HexLetters(cs) && ReadsAt(PRIMARY, ts, e)
    ensures ReadsAt(PRIMARY, ChainText(ts, name, cs), Chain(e, name, cs))
  {
    if cs != "" {
      var c, rest := cs[|cs| - 1], cs[..|cs| - 1];
      Loosen(PRIMARY, 0, ts, e);
      ChainReads(ts, e, name, rest);
      LetterPatterns(c);
      ReplaceReads(ChainText(ts, name, rest), name, ReplacementText(c), name, RegexText(c), Chain(e, name, rest));
    }
  }
}
