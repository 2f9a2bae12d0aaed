// Command output on its way to the caller: every secret is replaced, then the text is cut to the
// limit. No secret shows in what is returned, whatever the other secrets are.
module Redaction {
  import opened SeqLaws
  import opened Strings
  import opened Policy

  const MARK := "[redacted]"
  const CUT := "\n[truncated]"
  const MIN_SECRET: nat := 4

  // str.replace(target, MARK): the matches taken from the left, none overlapping.
  function ReplaceAll(s: string, target: string): string
    requires target != ""
    decreases |s|
  {
    if s == "" then ""
    else if target <= s then MARK + ReplaceAll(s[|target|..], target)
    else [s[0]] + ReplaceAll(s[1..], target)
  }

  function RedactAll(value: string, secrets: seq<string>): string
    decreases |secrets|
  {
    if secrets == [] then value
    else RedactAll(if |secrets[0]| >= MIN_SECRET then ReplaceAll(value, secrets[0]) else value, secrets[1..])
  }

  method Redact(value: string, secrets: seq<string>) returns (redacted: string)
    ensures redacted == RedactAll(value, secrets)
  {
    redacted := value;
    var i := 0;
    while i < |secrets|
      invariant i <= |secrets|
      invariant RedactAll(redacted, secrets[i..]) == RedactAll(value, secrets)
    {
      var secret := secrets[i];
      assert secrets[i..][1..] == secrets[i + 1..];
      if |secret| >= MIN_SECRET {
        redacted := ReplaceAll(redacted, secret);
      }
      i := i + 1;
    }
  }

  function Truncate(value: string, limit: int): Verdict<(string, bool)> {
    if limit < 1 then Rejected(BadLimit)
    else if |value| <= limit then Accepted((value, false))
    else Accepted((value[..limit] + CUT, true))
  }

  // What _result returns of one stream.
  function Output(value: string, secrets: seq<string>, limit: int): Verdict<(string, bool)> {
    Truncate(RedactAll(value, secrets), limit)
  }

  // ---------------------------------------------------------------- what the replacements are

  // The leftmost match is replaced, and the text after it treated alike.
  lemma {:induction false} LeftmostReplaced(before: string, target: string, after: string)
    requires target != "" && forall i | 0 <= i < |before| :: !OccursAt(target, before + target + after, i)
    ensures ReplaceAll(before + target + after, target) == before + "[redacted]" + ReplaceAll(after, target)
    decreases |before|
  {
    if before == "" {
      NoneBefore(target, after);
      NoneBefore(MARK, ReplaceAll(after, target));
      FirstReplaced(target, after);
    } else {
      var rest := before[1..] + target + after;
      Regroup(before, target, after);
      Regroup(before, MARK, ReplaceAll(after, target));
      assert !OccursAt(target, [before[0]] + rest, 0);
      if target <= [before[0]] + rest {
        AtStart(target, [before[0]] + rest);
      }
      ReplaceFirst(before[0], rest, target);
      forall i | 0 <= i < |before[1..]| ensures !OccursAt(target, rest, i) {
        OccursShifted(target, [before[0]], rest, i);
      }
      LeftmostReplaced(before[1..], target, after);
    }
  }

  lemma AtStart(target: string, text: string)
    requires target <= text
    ensures OccursAt(target, text, 0)
  {
    assert text[0..0 + |target|] == target;
  }

  // The secrets are taken one after another; those shorter than four characters are passed over.
  lemma {:induction false} RedactedInTurn(value: string, first: seq<string>, second: seq<string>)
    ensures RedactAll(value, first + second) == RedactAll(RedactAll(value, first), second)
    decreases |first|
  {
    if first == [] {
      assert first + second == second;
    } else {
      var s := first[0];
      assert first + second == [s] + (first[1..] + second);
      RedactedInTurn(if |s| >= MIN_SECRET then ReplaceAll(value, s) else value, first[1..], second);
    }
  }

  lemma OneRedacted(value: string, s: string)
    ensures RedactAll(value, [s]) == if |s| >= 4 then ReplaceAll(value, s) else value
  {
    assert [s][1..] == [];
  }

  lemma {:induction false} ShortSecretsStay(value: string, secrets: seq<string>)
    requires forall s | s in secrets :: |s| < 4
    ensures RedactAll(value, secrets) == value
    decreases |secrets|
  {
    if secrets != [] {
      assert secrets[0] in secrets && forall s | s in secrets[1..] :: s in secrets;
      ShortSecretsStay(value, secrets[1..]);
    }
  }

  // ---------------------------------------------------------------- overlapping

  // Laid over t from position d on, s agrees with it wherever both have a character.
  predicate Agrees(s: string, t: string, d: int) {
    forall i | 0 <= i < |s| && 0 <= d + i < |t| :: s[i] == t[d + i]
  }

  // Somewhere s and t share a character position and agree: s is part of t or contains it, or begins
  // with an end of t, or ends with a beginning of it.
  predicate Overlaps(s: string, t: string) {
    exists d | -|s| < d < |t| :: Agrees(s, t, d)
  }

  // The same without running past the end of t.
  predicate EndsIn(s: string, t: string) {
    exists d | -|s| < d <= |t| - |s| :: Agrees(s, t, d)
  }

  // A string that reaches into t between two others overlaps it.
  lemma AgreesAt(s: string, before: string, t: string, after: string, i: int)
    requires OccursAt(s, before + t + after, i)
    ensures Agrees(s, t, i - |before|)
  {
    var text := before + t + after;
    forall k | 0 <= k < |s| && 0 <= i - |before| + k < |t| ensures s[k] == t[i - |before| + k] {
      assert text[i + k] == text[i..i + |s|][k] == s[k];
    }
  }

  lemma OccursByChars(s: string, text: string, i: int)
    requires 0 <= i && i + |s| <= |text| && forall k | 0 <= k < |s| :: s[k] == text[i + k]
    ensures Occurs(s, text)
  {
    assert text[i..i + |s|] == s;
    OccursIn(s, text, i);
  }

  // ---------------------------------------------------------------- replacing

  lemma MarkBegins(s: string, k: nat, rest: string)
    requires k < |s| && s[k..] <= MARK + rest
    ensures Overlaps(s, MARK)
  {
    var d := 0 - k;
    forall i | 0 <= i < |s| && 0 <= d + i < |MARK| ensures s[i] == MARK[d + i] {
      assert s[i] == s[k..][i - k] == (MARK + rest)[i - k];
    }
    assert Agrees(s, MARK, d);
  }

  // What follows the first k characters of s, where it begins a text with marks, began the text before.
  lemma {:induction false} PrefixKept(s: string, k: nat, text: string, target: string)
    requires target != "" && !Overlaps(s, MARK) && k <= |s| && s[k..] <= ReplaceAll(text, target)
    ensures s[k..] <= text
    decreases |text|
  {
    if k < |s| {
      if target <= text {
        MarkBegins(s, k, ReplaceAll(text[|target|..], target));
        assert false;
      } else {
        var rest := ReplaceAll(text[1..], target);
        assert ReplaceAll(text, target)[1..] == rest && s[k..][1..] == s[k + 1..];
        PrefixKept(s, k + 1, text[1..], target);
        assert text == [text[0]] + text[1..] && s[k..] == [s[k]] + s[k + 1..];
      }
    }
  }

  // Replacing target shows a string that cannot overlap the mark only if it was there and is not target.
  lemma {:induction false} ReplaceShows(s: string, text: string, target: string, i: int)
    requires s != "" && target != "" && !Overlaps(s, MARK) && OccursAt(s, ReplaceAll(text, target), i)
    ensures s != target && Occurs(s, text)
    decreases |text|
  {
    if target <= text {
      var rest := ReplaceAll(text[|target|..], target);
      if i < |MARK| {
        assert "" + MARK + rest == MARK + rest;
        AgreesAt(s, "", MARK, rest, i);
        assert false;
      } else {
        OccursShifted(s, MARK, rest, i - |MARK|);
        ReplaceShows(s, text[|target|..], target, i - |MARK|);
        OccursInTail(s, text, |target|);
      }
    } else if i == 0 {
      assert s[0..] == s <= ReplaceAll(text, target);
      PrefixKept(s, 0, text, target);
      OccursIn(s, text, 0);
    } else {
      var rest := ReplaceAll(text[1..], target);
      OccursShifted(s, [text[0]], rest, i - 1);
      ReplaceShows(s, text[1..], target, i - 1);
      OccursInTail(s, text, 1);
    }
  }

  lemma OccursInTail(s: string, text: string, k: nat)
    requires k <= |text| && Occurs(s, text[k..])
    ensures Occurs(s, text)
  {
    var i := Occurrence(s, text[k..]);
    assert text == text[..k] + text[k..];
    OccursShifted(s, text[..k], text[k..], i);
    OccursIn(s, text, k + i);
  }

  lemma ReplaceKeepsOut(s: string, text: string, target: string)
    requires s != "" && target != "" && !Overlaps(s, MARK) && (s == target || !Occurs(s, text))
    ensures !Occurs(s, ReplaceAll(text, target))
  {
    if Occurs(s, ReplaceAll(text, target)) {
      var i := Occurrence(s, ReplaceAll(text, target));
      ReplaceShows(s, text, target, i);
    }
  }

  // After all replacements a secret that cannot overlap the mark is gone: later replacements do not
  // bring it back.
  lemma {:induction false} RedactErases(value: string, secrets: seq<string>, s: string)
    requires |s| >= 4 && !Overlaps(s, "[redacted]")
    requires s in secrets || !Occurs(s, value)
    ensures !Occurs(s, RedactAll(value, secrets))
    decreases |secrets|
  {
    if secrets != [] {
      var first := secrets[0];
      assert secrets == [first] + secrets[1..];
      if |first| >= MIN_SECRET {
        if s == first || !Occurs(s, value) {
          ReplaceKeepsOut(s, value, first);
        }
        RedactErases(ReplaceAll(value, first), secrets[1..], s);
      } else {
        RedactErases(value, secrets[1..], s);
      }
    }
  }

  // ---------------------------------------------------------------- cutting

  lemma TruncateKeepsOut(s: string, value: string, limit: int)
    requires s != "" && limit >= 1 && !Occurs(s, value) && !EndsIn(s, CUT)
    ensures !Occurs(s, Truncate(value, limit).value.0)
  {
    if |value| > limit && Occurs(s, value[..limit] + CUT) {
      var i := Occurrence(s, value[..limit] + CUT);
      if i + |s| <= limit {
        OccursCut(s, value[..limit], CUT, i);
        assert value == value[..limit] + value[limit..];
        OccursCut(s, value[..limit], value[limit..], i);
        OccursIn(s, value, i);
      } else {
        assert value[..limit] + CUT + "" == value[..limit] + CUT;
        AgreesAt(s, value[..limit], CUT, "", i);
        assert EndsIn(s, CUT);
      }
    }
  }

  // The limit holds up to the notice, and what is kept is a prefix of the redacted text.
  lemma OutputBounded(value: string, secrets: seq<string>, limit: int)
    ensures Output(value, secrets, limit).Accepted? <==> limit >= 1
    ensures limit >= 1 ==>
      var redacted, (text, cut) := RedactAll(value, secrets), Output(value, secrets, limit).value;
      && |text| <= limit + 12
      && (cut <==> |redacted| > limit)
      && text == if cut then redacted[..limit] + "\n[truncated]" else redacted
  {
    assert |CUT| == 12;
  }

  lemma {:induction false} ReplaceNothing(text: string, target: string)
    requires target != "" && !Occurs(target, text)
    ensures ReplaceAll(text, target) == text
    decreases |text|
  {
    if text != "" {
      if target <= text {
        OccursIn(target, text, 0);
      }
      if Occurs(target, text[1..]) {
        OccursInTail(target, text, 1);
      }
      ReplaceNothing(text[1..], target);
      assert text == [text[0]] + text[1..];
    }
  }

  // Text without secrets is not touched.
  lemma {:induction false} RedactNothing(value: string, secrets: seq<string>)
    requires forall s | s in secrets && |s| >= 4 :: !Occurs(s, value)
    ensures RedactAll(value, secrets) == value
    decreases |secrets|
  {
    if secrets != [] {
      assert secrets[0] in secrets && forall s | s in secrets[1..] :: s in secrets;
      if |secrets[0]| >= MIN_SECRET {
        ReplaceNothing(value, secrets[0]);
      }
      RedactNothing(value, secrets[1..]);
    }
  }

  // No such secret is in the output, whatever the text, the limit and the other secrets are.
  lemma SecretStaysOut(value: string, secrets: seq<string>, limit: int, s: string)
    requires limit >= 1 && s in secrets && |s| >= 4
    requires !Overlaps(s, "[redacted]") && !EndsIn(s, "\n[truncated]")
    ensures !Occurs(s, Output(value, secrets, limit).value.0)
  {
    RedactErases(value, secrets, s);
    TruncateKeepsOut(s, RedactAll(value, secrets), limit);
  }

  // ---------------------------------------------------------------- secrets that show

  function Other(a: char, b: char, c: char): (other: char)
    ensures other != a && other != b && other != c
  {
    if 'A' !in {a, b, c} then 'A' else if 'B' !in {a, b, c} then 'B' else if 'C' !in {a, b, c} then 'C' else 'D'
  }

  function Run(c: char, n: nat): string {
    seq(n, _ => c)
  }

  // A long run of a character that s neither begins nor ends with keeps s out of what surrounds it.
  lemma RunKeepsOut(s: string, before: string, c: char, n: nat, after: string)
    requires s != "" && s[0] != c && s[|s| - 1] != c && |before| < |s| && |after| < |s| <= n
    ensures !Occurs(s, before + Run(c, n) + after)
  {
    forall i ensures !OccursAt(s, before + Run(c, n) + after, i) {
      RunKeepsOutAt(s, before, c, n, after, i);
    }
  }

  lemma RunKeepsOutAt(s: string, before: string, c: char, n: nat, after: string, i: int)
    requires s != "" && s[0] != c && s[|s| - 1] != c && |before| < |s| && |after| < |s| <= n
    ensures !OccursAt(s, before + Run(c, n) + after, i)
  {
    var text := before + Run(c, n) + after;
    if 0 <= i && i + |s| <= |text| {
      var own, last := text[i..i + |s|], i + |s| - 1;
      assert own[0] == text[i] && own[|s| - 1] == text[last];
      if |before| <= last < |before| + n {
        assert text[last] == Run(c, n)[last - |before|] == c;
      } else {
        assert text[i] == Run(c, n)[i - |before|] == c;
      }
    }
  }

  lemma RunNotYet(before: string, c: char, n: nat, after: string)
    requires before != "" && before[|before| - 1] != c && |before| <= n
    ensures !(Run(c, n) <= before + Run(c, n) + after)
  {
    var last := |before| - 1;
    assert (before + Run(c, n) + after)[last] == before[last] && Run(c, n)[last] == c;
  }

  lemma ReplaceFirst(first: char, rest: string, target: string)
    requires target != "" && !(target <= [first] + rest)
    ensures ReplaceAll([first] + rest, target) == [first] + ReplaceAll(rest, target)
  {
    assert ([first] + rest)[1..] == rest;
  }

  lemma Regroup(before: string, middle: string, after: string)
    requires before != ""
    ensures before + middle + after == [before[0]] + (before[1..] + middle + after)
  {
  }

  lemma {:induction false} RunReplaced(before: string, c: char, n: nat, after: string)
    requires (before != "" ==> before[|before| - 1] != c) && |before| <= n && |after| < n
    ensures ReplaceAll(before + Run(c, n) + after, Run(c, n)) == before + MARK + after
    decreases |before|
  {
    if before == "" {
      RunFirst(c, n, after);
    } else {
      RunNotYet(before, c, n, after);
      Regroup(before, Run(c, n), after);
      ReplaceFirst(before[0], before[1..] + Run(c, n) + after, Run(c, n));
      RunReplaced(before[1..], c, n, after);
      Regroup(before, MARK, after);
    }
  }

  lemma RunFirst(c: char, n: nat, after: string)
    requires |after| < n
    ensures ReplaceAll("" + Run(c, n) + after, Run(c, n)) == "" + MARK + after
  {
    NoneBefore(Run(c, n), after);
    NoneBefore(MARK, after);
    FirstReplaced(Run(c, n), after);
    LongerStaysOut(Run(c, n), after);
    ReplaceNothing(after, Run(c, n));
  }

  lemma FirstReplaced(target: string, after: string)
    requires target != ""
    ensures ReplaceAll(target + after, target) == MARK + ReplaceAll(after, target)
  {
    assert (target + after)[|target|..] == after;
  }

  lemma TwoSecrets(value: string, s: string, t: string)
    requires |s| >= 4 && |t| >= 4 && !Occurs(s, value)
    ensures RedactAll(value, [s, t]) == ReplaceAll(value, t)
  {
    ReplaceNothing(value, s);
    assert [s, t][1..] == [t] && [t][1..] == [];
    assert RedactAll(ReplaceAll(value, t), []) == ReplaceAll(value, t);
    assert RedactAll(value, [t]) == RedactAll(ReplaceAll(value, t), [t][1..]);
    assert RedactAll(value, [s, t]) == RedactAll(value, [s, t][1..]);
  }

  // The parts of s on either side of a mark that it overlaps from d on.
  function Before(s: string, d: int): string
    requires -|s| < d
  {
    if d < 0 then s[..-d] else ""
  }

  function After(s: string, t: string, d: int): string
    requires d < |t|
  {
    if |t| - d < |s| then s[|t| - d..] else ""
  }

  lemma AroundShows(s: string, t: string, d: int)
    requires -|s| < d < |t| && Agrees(s, t, d)
    ensures Occurs(s, Before(s, d) + t + After(s, t, d))
  {
    var before, after := Before(s, d), After(s, t, d);
    var text, i := before + t + after, if d < 0 then 0 else d;
    forall k | 0 <= k < |s| ensures s[k] == text[i + k] {
      if 0 <= d + k < |t| {
        assert text[i + k] == t[d + k];
      } else if d + k < 0 {
        assert text[i + k] == before[k];
      } else {
        assert text[i + k] == after[d + k - |t|];
      }
    }
    OccursByChars(s, text, i);
  }

  lemma MarkCompletes(s: string, before: string, c: char, after: string)
    requires |s| >= 4 && s[0] != c && s[|s| - 1] != c && |before| < |s| && |after| < |s|
    requires before != "" ==> before[|before| - 1] != c
    ensures Output(before + Run(c, |s|) + after, [s, Run(c, |s|)], |before + MARK + after|)
         == Accepted((before + MARK + after, false))
  {
    RunKeepsOut(s, before, c, |s|, after);
    RunReplaced(before, c, |s|, after);
    TwoSecrets(before + Run(c, |s|) + after, s, Run(c, |s|));
  }

  // Another secret between the two parts is replaced by the mark that completes s.
  lemma MarkShows(s: string)
    requires |s| >= 4 && Overlaps(s, MARK)
    ensures !NeverShown(s)
  {
    var d :| -|s| < d < |MARK| && Agrees(s, MARK, d);
    var before, after := Before(s, d), After(s, MARK, d);
    var c := Other(s[0], s[|s| - 1], if before == "" then s[0] else before[|before| - 1]);
    MarkCompletes(s, before, c, after);
    AroundShows(s, MARK, d);
    ShownIn(s, before + Run(c, |s|) + after, Run(c, |s|), |before + MARK + after|);
  }

  lemma ShownIn(s: string, value: string, other: string, limit: int)
    requires limit >= 1 && Occurs(s, Output(value, [s, other], limit).value.0)
    ensures !NeverShown(s)
  {
    assert s in [s, other];
  }

  lemma LongerStaysOut(s: string, value: string)
    requires |value| < |s| || (|value| == |s| && s != value)
    ensures !Occurs(s, value)
  {
    assert value[0..|value|] == value;
  }

  // Text that ends where the notice begins completes s.
  lemma NoticeShows(s: string)
    requires |s| >= 4 && EndsIn(s, CUT)
    ensures !NeverShown(s)
  {
    var d :| -|s| < d <= |CUT| - |s| && Agrees(s, CUT, d);
    var head := if d < 0 then s[..-d] else "-";
    var value := head + "-";
    assert d < 0 ==> s[-d] == CUT[0] && value[-d] == '-';
    LongerStaysOut(s, value);
    AroundShows(s, CUT, d);
    HeadShows(s, CUT, Before(s, d), head);
    NoticeCompletes(s, head);
  }

  lemma NoticeCompletes(s: string, head: string)
    requires s != "" && head != "" && !Occurs(s, head + "-") && Occurs(s, head + CUT)
    ensures !NeverShown(s)
  {
    var value := head + "-";
    RedactNothing(value, [s]);
    assert value[..|head|] == head;
    assert Output(value, [s], |head|) == Accepted((head + CUT, true));
    assert s in [s];
  }

  lemma HeadShows(s: string, t: string, before: string, head: string)
    requires Occurs(s, before + t + "") && (before == head || before == "")
    ensures Occurs(s, head + t)
  {
    assert before + t + "" == before + t;
    if before != head {
      assert before + t == t;
      var i := Occurrence(s, t);
      OccursShifted(s, head, t, i);
      OccursIn(s, head + t, |head| + i);
    }
  }

  ghost predicate NeverShown(s: string) {
    forall value, secrets: seq<string>, limit | limit >= 1 && s in secrets ::
      !Occurs(s, Output(value, secrets, limit).value.0)
  }

  // Exactly which secrets are safe: those that can neither overlap the mark nor end in the notice.
  lemma ExactlyTheSafeSecrets(s: string)
    requires |s| >= 4
    ensures NeverShown(s) <==> !Overlaps(s, "[redacted]") && !EndsIn(s, "\n[truncated]")
  {
    if Overlaps(s, MARK) {
      MarkShows(s);
    } else if EndsIn(s, CUT) {
      NoticeShows(s);
    } else {
      forall value, secrets: seq<string>, limit | limit >= 1 && s in secrets
        ensures !Occurs(s, Output(value, secrets, limit).value.0)
      {
        SecretStaysOut(value, secrets, limit, s);
      }
    }
  }

  // ---------------------------------------------------------------- ordinary secrets

  predicate Clean(s: string) {
    s != "" && '[' !in s && ']' !in s && '\n' !in s
  }

  lemma LaidOn(s: string, t: string, d: int, k: int)
    requires Agrees(s, t, d) && 0 <= k < |t| && 0 <= k - d < |s|
    ensures t[k] in s
  {
    assert s[k - d] == t[d + (k - d)];
  }

  // Between two characters that s lacks, it can only overlap the word they enclose.
  lemma InsideWord(s: string, open: string, word: string, close: char, d: int)
    requires s != "" && open != "" && open[|open| - 1] !in s && close !in s
    requires -|s| < d < |open| + |word| + 1 && Agrees(s, open + word + [close], d)
    requires open[0] !in s && |open| <= 2
    ensures Occurs(s, word)
  {
    var t := open + word + [close];
    var n := |open| + |word|;
    assert t[0] == open[0] && t[|open| - 1] == open[|open| - 1] && t[n] == close;
    if d <= 0 {
      LaidOn(s, t, d, 0);
    } else if d < |open| {
      LaidOn(s, t, d, |open| - 1);
    } else if n < d + |s| {
      LaidOn(s, t, d, n);
    }
    assert |open| <= d && d + |s| <= n;
    OccursByChars(s, word, d - |open|);
  }

  lemma WordAgrees(s: string, open: string, word: string, close: string)
    requires Occurs(s, word) && s != ""
    ensures exists d | 0 <= d <= |open + word + close| - |s| :: Agrees(s, open + word + close, d)
  {
    var i := Occurrence(s, word);
    OccursShifted(s, open, word, i);
    OccursCut(s, open + word, close, |open| + i);
    var t := open + word + close;
    assert "" + t + "" == t;
    AgreesAt(s, "", t, "", |open| + i);
  }

  // For a secret without brackets and line breaks: it is safe unless it is part of one of the two words.
  lemma CleanSecrets(s: string)
    requires |s| >= 4 && Clean(s)
    ensures NeverShown(s) <==> !Occurs(s, "redacted") && !Occurs(s, "truncated")
  {
    ExactlyTheSafeSecrets(s);
    assert MARK == "[" + "redacted" + "]" && CUT == "\n[" + "truncated" + "]";
    if Overlaps(s, MARK) {
      var d :| -|s| < d < |MARK| && Agrees(s, MARK, d);
      InsideWord(s, "[", "redacted", ']', d);
    }
    if EndsIn(s, CUT) {
      var d :| -|s| < d <= |CUT| - |s| && Agrees(s, CUT, d);
      InsideWord(s, "\n[", "truncated", ']', d);
    }
    if Occurs(s, "redacted") {
      WordAgrees(s, "[", "redacted", "]");
    }
    if Occurs(s, "truncated") {
      WordAgrees(s, "\n[", "truncated", "]");
    }
  }
}
