// The string operations the Python and shell sources share: strip, split, join, substring tests
// and decimal numbers. Strings are ASCII.
module Strings {
  import opened Wrappers

  predicate IsSpace(c: char) {
    9 as char <= c <= 13 as char || 28 as char <= c <= 32 as char
  }

  function StripLeft(s: string): string {
    if s != "" && IsSpace(s[0]) then StripLeft(s[1..]) else s
  }

  function StripRight(s: string): string
    decreases |s|
  {
    if s != "" && IsSpace(s[|s| - 1]) then StripRight(s[..|s| - 1]) else s
  }

  function Strip(s: string): string {
    StripRight(StripLeft(s))
  }

  predicate NoSpace(s: string) {
    forall c | c in s :: !IsSpace(c)
  }

  lemma StripNothing(s: string)
    requires NoSpace(s)
    ensures Strip(s) == s
  {
    if s != "" {
      assert s[0] in s && s[|s| - 1] in s;
    }
  }

  lemma {:induction false} StripChars(s: string)
    ensures forall c | c in Strip(s) :: c in s
  {
    StripLeftChars(s);
    StripRightChars(StripLeft(s));
  }

  lemma {:induction false} StripLeftChars(s: string)
    ensures forall c | c in StripLeft(s) :: c in s
    decreases |s|
  {
    if s != "" && IsSpace(s[0]) {
      StripLeftChars(s[1..]);
    }
  }

  lemma {:induction false} StripRightChars(s: string)
    ensures forall c | c in StripRight(s) :: c in s
    decreases |s|
  {
    if s != "" && IsSpace(s[|s| - 1]) {
      StripRightChars(s[..|s| - 1]);
    }
  }

  predicate Spaces(s: string) {
    forall c | c in s :: IsSpace(c)
  }

  lemma {:induction false} StripLeftMeans(s: string) returns (before: string)
    ensures s == before + StripLeft(s) && Spaces(before)
    ensures StripLeft(s) != "" ==> !IsSpace(StripLeft(s)[0])
    decreases |s|
  {
    before := "";
    if s != "" && IsSpace(s[0]) {
      var rest := StripLeftMeans(s[1..]);
      before := [s[0]] + rest;
      assert s == [s[0]] + s[1..];
    }
  }

  lemma {:induction false} StripRightMeans(s: string) returns (after: string)
    ensures s == StripRight(s) + after && Spaces(after)
    ensures StripRight(s) != "" ==> !IsSpace(StripRight(s)[|StripRight(s)| - 1])
    decreases |s|
  {
    after := "";
    if s != "" && IsSpace(s[|s| - 1]) {
      var rest := StripRightMeans(s[..|s| - 1]);
      after := rest + [s[|s| - 1]];
      assert s == s[..|s| - 1] + [s[|s| - 1]];
      assert s == StripRight(s) + (rest + [s[|s| - 1]]);
    }
  }

  // Only spaces are removed, and none is left at either end.
  lemma StripMeans(s: string) returns (before: string, after: string)
    ensures s == before + Strip(s) + after && Spaces(before) && Spaces(after)
    ensures Strip(s) != "" ==> !IsSpace(Strip(s)[0]) && !IsSpace(Strip(s)[|Strip(s)| - 1])
  {
    before := StripLeftMeans(s);
    after := StripRightMeans(StripLeft(s));
    assert s == before + (Strip(s) + after);
    assert Strip(s) != "" ==> Strip(s)[0] == StripLeft(s)[0];
  }

  // So stripping undoes any padding.
  lemma StripPadded(before: string, s: string, after: string)
    requires Spaces(before) && Spaces(after)
    requires s != "" && !IsSpace(s[0]) && !IsSpace(s[|s| - 1])
    ensures Strip(before + s + after) == s
  {
    PadLeft(before, s + after);
    assert before + s + after == before + (s + after);
    PadRight(s, after);
  }

  lemma {:induction false} PadLeft(before: string, s: string)
    requires Spaces(before) && s != "" && !IsSpace(s[0])
    ensures StripLeft(before + s) == s
    decreases |before|
  {
    if before == "" {
      assert before + s == s;
    } else {
      assert before[0] in before && (before + s)[1..] == before[1..] + s;
      PadLeft(before[1..], s);
    }
  }

  lemma {:induction false} PadRight(s: string, after: string)
    requires Spaces(after) && s != "" && !IsSpace(s[|s| - 1])
    ensures StripRight(s + after) == s
    decreases |after|
  {
    if after == "" {
      assert s + after == s;
    } else {
      var last := |after| - 1;
      assert after[last] in after && (s + after)[..|s + after| - 1] == s + after[..last];
      PadRight(s, after[..last]);
    }
  }

  // A tab, a line end, the four separators and the blank are spaces.
  lemma SpaceCodes(c: char)
    ensures IsSpace(c) <==> c as int in {9, 10, 11, 12, 13, 28, 29, 30, 31, 32}
  {
  }

  // ---------------------------------------------------------------- split and join

  function Split(s: string, sep: char): (parts: seq<string>)
    ensures parts != []
  {
    if s == "" then [""]
    else
      var rest := Split(s[1..], sep);
      if s[0] == sep then [""] + rest else [[s[0]] + rest[0]] + rest[1..]
  }

  function Join(parts: seq<string>, sep: char): string
    requires parts != []
  {
    if |parts| == 1 then parts[0] else parts[0] + [sep] + Join(parts[1..], sep)
  }

  lemma {:induction false} SplitParts(s: string, sep: char)
    ensures forall p | p in Split(s, sep) :: sep !in p
    ensures forall p | p in Split(s, sep) :: forall c | c in p :: c in s
    decreases |s|
  {
    if s != "" {
      SplitParts(s[1..], sep);
      var rest := Split(s[1..], sep);
      assert s == [s[0]] + s[1..];
      assert rest[0] in rest;
      assert forall p | p in rest[1..] :: p in rest;
    }
  }

  lemma {:induction false} SplitAt(head: string, sep: char, rest: string)
    requires sep !in head
    ensures Split(head + [sep] + rest, sep) == [head] + Split(rest, sep)
    decreases |head|
  {
    var s := head + [sep] + rest;
    if head == "" {
      assert s[1..] == rest;
    } else {
      SplitAt(head[1..], sep, rest);
      assert s[1..] == head[1..] + [sep] + rest;
      assert head == [head[0]] + head[1..];
      assert ([head[1..]] + Split(rest, sep))[1..] == Split(rest, sep);
    }
  }

  lemma {:induction false} SplitNone(s: string, sep: char)
    requires sep !in s
    ensures Split(s, sep) == [s]
    decreases |s|
  {
    if s != "" {
      SplitNone(s[1..], sep);
      assert s == [s[0]] + s[1..];
    }
  }

  lemma {:induction false} SplitJoin(parts: seq<string>, sep: char)
    requires parts != [] && forall p | p in parts :: sep !in p
    ensures Split(Join(parts, sep), sep) == parts
    decreases |parts|
  {
    if |parts| == 1 {
      SplitNone(parts[0], sep);
    } else {
      assert forall p | p in parts[1..] :: p in parts;
      SplitJoin(parts[1..], sep);
      SplitAt(parts[0], sep, Join(parts[1..], sep));
      assert parts == [parts[0]] + parts[1..];
    }
  }

  lemma {:induction false} JoinSplit(s: string, sep: char)
    ensures Join(Split(s, sep), sep) == s
    decreases |s|
  {
    if s != "" {
      var rest := Split(s[1..], sep);
      JoinSplit(s[1..], sep);
      if s[0] == sep {
        assert ([""] + rest)[1..] == rest;
        assert s == [sep] + s[1..];
      } else {
        assert ([[s[0]] + rest[0]] + rest[1..])[1..] == rest[1..];
        assert s == [s[0]] + s[1..];
        if |rest| > 1 {
          assert [s[0]] + rest[0] + [sep] + Join(rest[1..], sep) == [s[0]] + (rest[0] + [sep] + Join(rest[1..], sep));
        }
      }
    }
  }

  lemma {:induction false} JoinChars(parts: seq<string>, sep: char, c: char)
    requires parts != [] && c in Join(parts, sep)
    ensures c == sep || exists p | p in parts :: c in p
    decreases |parts|
  {
    if |parts| == 1 {
      assert parts[0] in parts;
    } else if c in parts[0] {
      assert parts[0] in parts;
    } else if c != sep {
      JoinChars(parts[1..], sep, c);
      var p :| p in parts[1..] && c in p;
      assert p in parts;
    }
  }

  // ---------------------------------------------------------------- cutting at the first separator

  // s.split(sep, 1) where sep occurs, and the shell's ${s%%sep*} and ${s#*sep}.
  function Cut(s: string, sep: char): (cut: Option<(string, string)>)
    ensures cut.Some? ==> |cut.value.0| + 1 + |cut.value.1| == |s|
  {
    if s == "" then None
    else if s[0] == sep then Some(("", s[1..]))
    else
      match Cut(s[1..], sep)
      case None => None
      case Some((head, tail)) => Some(([s[0]] + head, tail))
  }

  lemma {:induction false} CutAt(head: string, sep: char, tail: string)
    requires sep !in head
    ensures Cut(head + [sep] + tail, sep) == Some((head, tail))
    decreases |head|
  {
    var s := head + [sep] + tail;
    if head == "" {
      assert s[1..] == tail;
    } else {
      CutAt(head[1..], sep, tail);
      assert s[1..] == head[1..] + [sep] + tail;
      assert head == [head[0]] + head[1..];
    }
  }

  lemma {:induction false} CutNone(s: string, sep: char)
    ensures Cut(s, sep) == None <==> sep !in s
    ensures Cut(s, sep).Some? ==> sep !in Cut(s, sep).value.0 && s == Cut(s, sep).value.0 + [sep] + Cut(s, sep).value.1
    decreases |s|
  {
    if s != "" {
      CutNone(s[1..], sep);
      assert s == [s[0]] + s[1..];
    }
  }

  // ---------------------------------------------------------------- lower case

  function LowerChar(c: char): char {
    if 'A' <= c <= 'Z' then (c as int + 32) as char else c
  }

  function Lower(s: string): string {
    seq(|s|, i requires 0 <= i < |s| => LowerChar(s[i]))
  }

  // The capitals become small, in order; nothing else changes.
  lemma LowerMeans(s: string)
    ensures |Lower(s)| == |s|
    ensures forall i | 0 <= i < |s| && !('A' <= s[i] <= 'Z') :: Lower(s)[i] == s[i]
    ensures Lower("ABCDEFGHIJKLMNOPQRSTUVWXYZ") == "abcdefghijklmnopqrstuvwxyz"
  {
  }

  // ---------------------------------------------------------------- substrings

  predicate OccursAt(pattern: string, s: string, i: int) {
    0 <= i && i + |pattern| <= |s| && s[i..i + |pattern|] == pattern
  }

  predicate Occurs(pattern: string, s: string) {
    exists i | 0 <= i <= |s| :: OccursAt(pattern, s, i)
  }

  lemma OccursIn(pattern: string, s: string, i: int)
    requires OccursAt(pattern, s, i)
    ensures Occurs(pattern, s)
  {
  }

  lemma Occurrence(pattern: string, s: string) returns (i: int)
    requires Occurs(pattern, s)
    ensures OccursAt(pattern, s, i)
  {
    i :| OccursAt(pattern, s, i);
  }

  lemma OccursShifted(pattern: string, before: string, s: string, i: int)
    requires 0 <= i
    ensures OccursAt(pattern, before + s, |before| + i) <==> OccursAt(pattern, s, i)
  {
    if i + |pattern| <= |s| {
      assert (before + s)[|before| + i..|before| + i + |pattern|] == s[i..i + |pattern|];
    }
  }

  lemma OccursCut(pattern: string, s: string, after: string, i: int)
    requires i + |pattern| <= |s|
    ensures OccursAt(pattern, s + after, i) <==> OccursAt(pattern, s, i)
  {
    if 0 <= i {
      assert (s + after)[i..i + |pattern|] == s[i..i + |pattern|];
    }
  }

  // ---------------------------------------------------------------- membership as a substring test

  lemma FirstEntry(s: string, sep: char) returns (rest: string)
    requires sep in s
    ensures |rest| < |s|
    ensures s == Split(s, sep)[0] + [sep] + rest && sep !in Split(s, sep)[0]
    ensures Split(s, sep) == [Split(s, sep)[0]] + Split(rest, sep)
  {
    var parts := Split(s, sep);
    SplitParts(s, sep);
    JoinSplit(s, sep);
    assert parts[0] in parts;
    rest := Join(parts[1..], sep);
    assert forall p | p in parts[1..] :: p in parts;
    SplitJoin(parts[1..], sep);
    assert parts == [parts[0]] + parts[1..];
  }

  function Wrapped(s: string, sep: char): string {
    [sep] + s + [sep]
  }

  lemma SameEntry(p: string, q: string, sep: char, tail: string)
    requires sep !in p && sep !in q
    ensures OccursAt(Wrapped(p, sep), Wrapped(q, sep) + tail, 0) <==> p == q
  {
    var w, all := Wrapped(p, sep), Wrapped(q, sep) + tail;
    assert forall k | 1 <= k <= |q| :: all[k] == q[k - 1] && q[k - 1] in q;
    assert forall k | 1 <= k <= |p| :: w[k] == p[k - 1] && p[k - 1] in p;
    assert all[|q| + 1] == sep && w[|p| + 1] == sep;
    if OccursAt(w, all, 0) {
      assert forall k | 0 <= k < |w| :: w[k] == all[0..|w|][k] == all[k];
      assert |p| == |q|;
      assert forall k | 0 <= k < |p| :: p[k] == w[k + 1] && q[k] == all[k + 1];
    }
  }

  lemma NoSeparatorInside(first: string, sep: char, tail: string, i: nat)
    requires sep !in first && 0 < i <= |first|
    ensures (Wrapped(first, sep) + tail)[i] != sep
  {
    assert (Wrapped(first, sep) + tail)[i] == first[i - 1];
  }

  // An occurrence of a wrapped entry after the first position starts at a later separator.
  lemma LaterEntry(p: string, first: string, sep: char, tail: string, i: int)
    requires sep !in first && 0 < i
    requires OccursAt(Wrapped(p, sep), Wrapped(first, sep) + tail, i)
    ensures |first| < i && OccursAt(Wrapped(p, sep), [sep] + tail, i - |first| - 1)
  {
    var w, all := Wrapped(p, sep), Wrapped(first, sep) + tail;
    assert all[i] == all[i..i + |w|][0] == w[0];
    if i <= |first| {
      NoSeparatorInside(first, sep, tail, i);
    }
    assert all == ([sep] + first) + ([sep] + tail);
    OccursShifted(w, [sep] + first, [sep] + tail, i - |first| - 1);
  }

  lemma SoleEntry(p: string, s: string, sep: char)
    requires sep !in p && sep !in s
    ensures Occurs(Wrapped(p, sep), Wrapped(s, sep)) <==> p == s
  {
    assert Wrapped(s, sep) + "" == Wrapped(s, sep);
    SameEntry(p, s, sep, "");
    if Occurs(Wrapped(p, sep), Wrapped(s, sep)) && p != s {
      var i := Occurrence(Wrapped(p, sep), Wrapped(s, sep));
      LaterEntry(p, s, sep, "", i);
    }
  }

  lemma EntryOrLater(p: string, first: string, sep: char, rest: string)
    requires sep !in p && sep !in first
    ensures Occurs(Wrapped(p, sep), Wrapped(first + [sep] + rest, sep))
       <==> p == first || Occurs(Wrapped(p, sep), Wrapped(rest, sep))
  {
    var w, all, later := Wrapped(p, sep), Wrapped(first + [sep] + rest, sep), Wrapped(rest, sep);
    assert all == Wrapped(first, sep) + (rest + [sep]);
    assert all == ([sep] + first) + later;
    assert later == [sep] + (rest + [sep]);
    SameEntry(p, first, sep, rest + [sep]);
    if Occurs(w, all) && p != first {
      var i := Occurrence(w, all);
      LaterEntry(p, first, sep, rest + [sep], i);
      OccursIn(w, later, i - |first| - 1);
    }
    if Occurs(w, later) {
      var i := Occurrence(w, later);
      OccursShifted(w, [sep] + first, later, i);
    }
  }

  // Wrapping a list in separators turns membership into a substring test.
  lemma {:induction false} EntryIsSubstring(p: string, list: string, sep: char)
    requires sep !in p
    ensures Occurs(Wrapped(p, sep), Wrapped(list, sep)) <==> p in Split(list, sep)
    decreases |list|
  {
    if sep !in list {
      SplitNone(list, sep);
      SoleEntry(p, list, sep);
    } else {
      var rest := FirstEntry(list, sep);
      EntryIsSubstring(p, rest, sep);
      EntryOrLater(p, Split(list, sep)[0], sep, rest);
    }
  }

  // The shell's test for an empty entry: the patterns '', *, ,* and *,,*
  predicate HasGap(list: string, sep: char) {
    list == "" || list[0] == sep || list[|list| - 1] == sep || Occurs([sep, sep], list)
  }

  lemma PairAt(s: string, sep: char, i: int)
    ensures OccursAt([sep, sep], s, i) <==> 0 <= i && i + 2 <= |s| && s[i] == sep && s[i + 1] == sep
  {
    if 0 <= i && i + 2 <= |s| {
      assert s[i..i + 2] == [s[i], s[i + 1]];
    }
  }

  lemma GapGivesPair(list: string, sep: char)
    requires HasGap(list, sep)
    ensures Occurs([sep, sep], Wrapped(list, sep))
  {
    var pair, all := [sep, sep], Wrapped(list, sep);
    if list == "" || list[0] == sep {
      PairAt(all, sep, 0);
      OccursIn(pair, all, 0);
    } else if list[|list| - 1] == sep {
      PairAt(all, sep, |list|);
      OccursIn(pair, all, |list|);
    } else {
      var i := Occurrence(pair, list);
      OccursShifted(pair, [sep], list, i);
      OccursCut(pair, [sep] + list, [sep], i + 1);
      OccursIn(pair, all, i + 1);
    }
  }

  lemma PairGivesGap(list: string, sep: char)
    requires Occurs([sep, sep], Wrapped(list, sep))
    ensures HasGap(list, sep)
  {
    var pair, all := [sep, sep], Wrapped(list, sep);
    var i := Occurrence(pair, all);
    PairAt(all, sep, i);
    if 0 < i < |list| {
      OccursCut(pair, [sep] + list, [sep], i);
      OccursShifted(pair, [sep], list, i - 1);
      OccursIn(pair, list, i - 1);
    } else if list != "" {
      assert all[1] == list[0] && all[|list|] == list[|list| - 1];
    }
  }

  lemma GapIsEmptyEntry(list: string, sep: char)
    ensures HasGap(list, sep) <==> "" in Split(list, sep)
  {
    EntryIsSubstring("", list, sep);
    assert Wrapped("", sep) == [sep, sep];
    if HasGap(list, sep) {
      GapGivesPair(list, sep);
    }
    if "" in Split(list, sep) {
      PairGivesGap(list, sep);
    }
  }

  // An empty part with a part on either side.
  predicate InnerEmpty(parts: seq<string>) {
    exists k | 0 < k < |parts| - 1 :: parts[k] == ""
  }

  lemma BeforeSeparator(first: string, sep: char, rest: string, i: nat)
    requires sep !in first && i < |first|
    ensures (first + [sep] + rest)[i] != sep
  {
    assert (first + [sep] + rest)[i] == first[i];
  }

  lemma PairStep(first: string, sep: char, rest: string)
    requires sep !in first
    ensures Occurs([sep, sep], first + [sep] + rest) <==> (rest != "" && rest[0] == sep) || Occurs([sep, sep], rest)
  {
    var pair, all := [sep, sep], first + [sep] + rest;
    PairAt(all, sep, |first|);
    if rest != "" && rest[0] == sep {
      OccursIn(pair, all, |first|);
    }
    if Occurs(pair, rest) {
      var i := Occurrence(pair, rest);
      OccursShifted(pair, first + [sep], rest, i);
      OccursIn(pair, all, |first| + 1 + i);
    }
    if Occurs(pair, all) {
      var i := Occurrence(pair, all);
      PairAt(all, sep, i);
      if i < |first| {
        BeforeSeparator(first, sep, rest, i);
      }
      if i > |first| {
        OccursShifted(pair, first + [sep], rest, i - |first| - 1);
        OccursIn(pair, rest, i - |first| - 1);
      }
    }
  }

  lemma InnerStep(first: string, parts: seq<string>)
    requires parts != []
    ensures InnerEmpty([first] + parts) <==> (parts[0] == "" && |parts| > 1) || InnerEmpty(parts)
  {
    var all := [first] + parts;
    if InnerEmpty(all) {
      var k :| 0 < k < |all| - 1 && all[k] == "";
      assert parts[k - 1] == "";
    }
    if parts[0] == "" && |parts| > 1 {
      assert all[1] == "";
    } else if InnerEmpty(parts) {
      var k :| 0 < k < |parts| - 1 && parts[k] == "";
      assert all[k + 1] == "";
    }
  }

  // Two separators in a row are an empty part that is neither the first nor the last.
  lemma {:induction false} PairIsInnerEmpty(s: string, sep: char)
    ensures Occurs([sep, sep], s) <==> InnerEmpty(Split(s, sep))
    decreases |s|
  {
    if sep !in s {
      SplitNone(s, sep);
      if Occurs([sep, sep], s) {
        var i := Occurrence([sep, sep], s);
        PairAt(s, sep, i);
      }
    } else {
      var rest := FirstEntry(s, sep);
      PairIsInnerEmpty(rest, sep);
      PairStep(Split(s, sep)[0], sep, rest);
      InnerStep(Split(s, sep)[0], Split(rest, sep));
    }
  }

  // ---------------------------------------------------------------- decimal numbers

  predicate IsDigit(c: char) {
    '0' <= c <= '9'
  }

  function Digit(n: nat): char
    requires n < 10
  {
    ('0' as int + n) as char
  }

  function Decimal(n: nat): string {
    if n < 10 then [Digit(n)] else Decimal(n / 10) + [Digit(n % 10)]
  }

  function DigitsValue(s: string): nat
    requires forall c | c in s :: IsDigit(c)
    decreases |s|
  {
    if s == "" then 0
    else
      assert forall c | c in s[..|s| - 1] :: c in s;
      var low := s[|s| - 1];
      assert low in s && IsDigit(low);
      10 * DigitsValue(s[..|s| - 1]) + (low as int - '0' as int)
  }

  lemma {:induction false} DecimalDigits(n: nat)
    ensures Decimal(n) != "" && forall c | c in Decimal(n) :: IsDigit(c)
    decreases n
  {
    if n >= 10 {
      DecimalDigits(n / 10);
    }
  }

  // No leading zeros.
  lemma {:induction false} DecimalFirst(n: nat)
    ensures Decimal(n) != "" && (Decimal(n)[0] == '0' <==> n == 0)
    decreases n
  {
    if n >= 10 {
      DecimalFirst(n / 10);
      assert Decimal(n)[0] == Decimal(n / 10)[0];
    }
  }

  lemma {:induction false} DecimalRoundTrip(n: nat)
    ensures Decimal(n) != "" && forall c | c in Decimal(n) :: IsDigit(c)
    ensures DigitsValue(Decimal(n)) == n
    decreases n
  {
    DecimalDigits(n);
    if n < 10 {
      assert [Digit(n)][..0] == "";
    } else {
      DecimalDigits(n / 10);
      DecimalRoundTrip(n / 10);
      var high, low := Decimal(n / 10), Digit(n % 10);
      assert Decimal(n) == high + [low];
      assert Decimal(n)[..|Decimal(n)| - 1] == high;
      assert Decimal(n)[|Decimal(n)| - 1] == low;
    }
  }
}
