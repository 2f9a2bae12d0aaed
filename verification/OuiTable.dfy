// The OUI table: rows classified by the first matching rule, compiled to a sorted string of
// fixed-width records, and read back by binary search.
module OuiTable {
  import opened Wrappers
  import opened SeqLaws
  import opened Strings

  const PREFIX_LEN: nat := 6
  const INDEX_LEN: nat := 2
  const RECORD_LEN: nat := 8
  const MAX_VENDORS: nat := 1296

  // ---------------------------------------------------------------- the order of strings

  predicate Less(a: string, b: string) {
    |b| > 0 && (|a| == 0 || a[0] < b[0] || (a[0] == b[0] && Less(a[1..], b[1..])))
  }

  // The order Python and Lua give strings: at the first difference, or by length where there is none.
  lemma {:induction false} LessMeans(a: string, b: string)
    ensures Less(a, b) <==> exists k :: DiffersAt(a, b, k)
    decreases |a|
  {
    if |a| > 0 && |b| > 0 && a[0] == b[0] {
      LessMeans(a[1..], b[1..]);
      if k :| DiffersAt(a[1..], b[1..], k) {
        assert DiffersAt(a, b, k + 1) by {
          assert a == [a[0]] + a[1..] && b == [b[0]] + b[1..];
        }
      }
      if k :| DiffersAt(a, b, k) {
        assert a[1..][..k - 1] == a[..k][1..] && b[1..][..k - 1] == b[..k][1..];
        assert DiffersAt(a[1..], b[1..], k - 1);
      }
    } else {
      assert Less(a, b) ==> DiffersAt(a, b, 0);
      forall k | k > 0 ensures !DiffersAt(a, b, k) {
        NotLater(a, b, k);
      }
    }
  }

  lemma NotLater(a: string, b: string, k: int)
    requires a == "" || b == "" || a[0] != b[0]
    requires k > 0
    ensures !DiffersAt(a, b, k)
  {
    if a != "" && b != "" && k <= |a| && k <= |b| {
      assert a[..k][0] == a[0] && b[..k][0] == b[0];
    }
  }

  predicate DiffersAt(a: string, b: string, k: int) {
    0 <= k <= |a| && k < |b| && a[..k] == b[..k] && (k == |a| || a[k] < b[k])
  }

  lemma {:induction false} LessTransitive(a: string, b: string, c: string)
    requires Less(a, b) && Less(b, c)
    ensures Less(a, c)
    decreases |a|
  {
    if |a| > 0 && a[0] == b[0] == c[0] {
      LessTransitive(a[1..], b[1..], c[1..]);
    }
  }

  lemma {:induction false} LessTotal(a: string, b: string)
    ensures (a == b && !Less(a, b) && !Less(b, a)) || (a != b && (Less(a, b) <==> !Less(b, a)))
    decreases |a|
  {
    if |a| > 0 && |b| > 0 {
      LessTotal(a[1..], b[1..]);
      assert a == [a[0]] + a[1..] && b == [b[0]] + b[1..];
    }
  }

  // ---------------------------------------------------------------- classification

  // A display name with its icon.
  datatype Pair<D, I> = Hit(display: D, icon: I)

  type Hit = Pair<string, string>

  datatype Rule = Rule(pattern: string, hit: Hit)

  datatype Row = Row(prefix: string, organization: string)

  function FirstRule(lowered: string, rules: seq<Rule>): Option<Hit> {
    if rules == [] then None
    else if Occurs(rules[0].pattern, lowered) then Some(rules[0].hit)
    else FirstRule(lowered, rules[1..])
  }

  function Classify(organization: string, rules: seq<Rule>): Option<Hit> {
    FirstRule(Lower(organization), rules)
  }

  // The k-th rule is the first whose pattern occurs in the name.
  predicate FirstMatch(lowered: string, rules: seq<Rule>, k: int) {
    0 <= k < |rules| && Occurs(rules[k].pattern, lowered) && forall j | 0 <= j < k :: !Occurs(rules[j].pattern, lowered)
  }

  lemma {:induction false} FirstRuleMeans(lowered: string, rules: seq<Rule>)
    ensures FirstRule(lowered, rules) == None <==> forall k | 0 <= k < |rules| :: !Occurs(rules[k].pattern, lowered)
    ensures forall k | FirstMatch(lowered, rules, k) :: FirstRule(lowered, rules) == Some(rules[k].hit)
    decreases |rules|
  {
    if rules != [] {
      FirstRuleMeans(lowered, rules[1..]);
      assert forall k | 0 < k < |rules| :: rules[k] == rules[1..][k - 1];
      if Occurs(rules[0].pattern, lowered) {
        assert forall k | FirstMatch(lowered, rules, k) :: k == 0;
      } else {
        forall k | FirstMatch(lowered, rules, k) ensures FirstMatch(lowered, rules[1..], k - 1) {
          assert forall j | 0 <= j < k - 1 :: rules[1..][j] == rules[j + 1];
        }
      }
    }
  }

  lemma {:induction false} SomeFirstMatch(lowered: string, rules: seq<Rule>, k: nat) returns (first: nat)
    requires k < |rules| && Occurs(rules[k].pattern, lowered)
    ensures first <= k && FirstMatch(lowered, rules, first)
    decreases k
  {
    if j: nat :| j < k && Occurs(rules[j].pattern, lowered) {
      first := SomeFirstMatch(lowered, rules, j);
    } else {
      first := k;
    }
  }

  // Classification is by the first rule whose pattern occurs in the lower-cased name, and fails exactly
  // when none does.
  lemma ClassifyMeans(organization: string, rules: seq<Rule>)
    ensures Classify(organization, rules) == None
       <==> forall k | 0 <= k < |rules| :: !Occurs(rules[k].pattern, Lower(organization))
    ensures forall h :: Classify(organization, rules) == Some(h)
                   <==> exists k :: FirstMatch(Lower(organization), rules, k) && rules[k].hit == h
  {
    var lowered := Lower(organization);
    FirstRuleMeans(lowered, rules);
    if k :| 0 <= k < |rules| && Occurs(rules[k].pattern, lowered) {
      var first := SomeFirstMatch(lowered, rules, k);
    }
  }

  // A rule ever classifies anything exactly when no earlier pattern occurs in its own.
  lemma RuleIsUsed(rules: seq<Rule>, k: nat)
    requires k < |rules| && Lower(rules[k].pattern) == rules[k].pattern
    ensures (exists name :: FirstMatch(Lower(name), rules, k))
       <==> forall j | 0 <= j < k :: !Occurs(rules[j].pattern, rules[k].pattern)
  {
    var own := rules[k].pattern;
    if forall j | 0 <= j < k :: !Occurs(rules[j].pattern, own) {
      assert own[0..0 + |own|] == own;
      OccursIn(own, own, 0);
      assert FirstMatch(Lower(own), rules, k);
    } else {
      var j: nat :| j < k && Occurs(rules[j].pattern, own);
      forall name ensures !FirstMatch(Lower(name), rules, k) {
        if Occurs(own, Lower(name)) {
          OccursWithin(rules[j].pattern, own, Lower(name));
        }
      }
    }
  }

  lemma OccursWithin(inner: string, outer: string, text: string)
    requires Occurs(inner, outer) && Occurs(outer, text)
    ensures Occurs(inner, text)
  {
    var i := Occurrence(inner, outer);
    var j := Occurrence(outer, text);
    var head, tail := text[..j], text[j + |outer|..];
    assert text == (head + outer) + tail;
    OccursShifted(inner, head, outer, i);
    OccursCut(inner, head + outer, tail, j + i);
    OccursIn(inner, text, j + i);
  }

  // The shipped list has the pattern "intel" before "qingdao intelligent", which is never used.
  lemma QingdaoIsNeverUsed(rules: seq<Rule>, j: nat, k: nat, name: string)
    requires j < k < |rules| && rules[j].pattern == "intel" && rules[k].pattern == "qingdao intelligent"
    ensures !FirstMatch(Lower(name), rules, k)
  {
    var own := rules[k].pattern;
    assert own[8..13] == "intel";
    OccursIn("intel", own, 8);
    if Occurs(own, Lower(name)) {
      OccursWithin("intel", own, Lower(name));
    }
  }

  // The hit of the last row for the prefix that classifies at all.
  function LastHit(rows: seq<Row>, rules: seq<Rule>, prefix: string): Option<Hit>
    decreases |rows|
  {
    if rows == [] then None
    else
      var last := rows[|rows| - 1];
      if last.prefix == prefix && Classify(last.organization, rules).Some? then Classify(last.organization, rules)
      else LastHit(rows[..|rows| - 1], rules, prefix)
  }

  // The row that decides a prefix: it classifies by its k-th rule, and no later row of the prefix does.
  predicate Decides(rows: seq<Row>, rules: seq<Rule>, prefix: string, i: int, k: int) {
    && 0 <= i < |rows| && rows[i].prefix == prefix && FirstMatch(Lower(rows[i].organization), rules, k)
    && forall j, m | i < j < |rows| && rows[j].prefix == prefix && 0 <= m < |rules| ::
         !Occurs(rules[m].pattern, Lower(rows[j].organization))
  }

  lemma {:induction false} LastHitMeans(rows: seq<Row>, rules: seq<Rule>, prefix: string, h: Hit)
    ensures LastHit(rows, rules, prefix) == Some(h) <==> exists i, k :: Decides(rows, rules, prefix, i, k) && rules[k].hit == h
    decreases |rows|
  {
    if rows != [] {
      var last, before := |rows| - 1, rows[..|rows| - 1];
      ClassifyMeans(rows[last].organization, rules);
      LastHitMeans(before, rules, prefix, h);
      if rows[last].prefix == prefix && Classify(rows[last].organization, rules).Some? {
        LastRowDecides(rows, rules, prefix, h);
      } else {
        forall i, k ensures Decides(rows, rules, prefix, i, k) <==> Decides(before, rules, prefix, i, k) {
          EarlierRowDecides(rows, rules, prefix, i, k);
        }
      }
    }
  }

  lemma LastRowDecides(rows: seq<Row>, rules: seq<Rule>, prefix: string, h: Hit)
    requires rows != [] && rows[|rows| - 1].prefix == prefix
    requires Classify(rows[|rows| - 1].organization, rules).Some?
    ensures Classify(rows[|rows| - 1].organization, rules) == Some(h)
       <==> exists i, k :: Decides(rows, rules, prefix, i, k) && rules[k].hit == h
  {
    var last := |rows| - 1;
    ClassifyMeans(rows[last].organization, rules);
    forall i, k | Decides(rows, rules, prefix, i, k) ensures i == last {
      var m :| 0 <= m < |rules| && Occurs(rules[m].pattern, Lower(rows[last].organization));
    }
    if k :| FirstMatch(Lower(rows[last].organization), rules, k) && rules[k].hit == h {
      assert Decides(rows, rules, prefix, last, k);
    }
  }

  lemma EarlierRowDecides(rows: seq<Row>, rules: seq<Rule>, prefix: string, i: int, k: int)
    requires rows != []
    requires rows[|rows| - 1].prefix == prefix ==> Classify(rows[|rows| - 1].organization, rules).None?
    ensures Decides(rows, rules, prefix, i, k) <==> Decides(rows[..|rows| - 1], rules, prefix, i, k)
  {
    var last, before := |rows| - 1, rows[..|rows| - 1];
    ClassifyMeans(rows[last].organization, rules);
    assert forall j | 0 <= j < last :: before[j] == rows[j];
  }

  ghost predicate MatchedFor(matched: map<string, Hit>, rows: seq<Row>, rules: seq<Rule>) {
    forall p :: (if p in matched then Some(matched[p]) else None) == LastHit(rows, rules, p)
  }

  lemma {:induction false} HitHasRow(rows: seq<Row>, rules: seq<Rule>, p: string)
    requires LastHit(rows, rules, p).Some?
    ensures exists row | row in rows :: row.prefix == p
    decreases |rows|
  {
    var last := rows[|rows| - 1];
    if last.prefix == p {
      assert last in rows;
    } else {
      HitHasRow(rows[..|rows| - 1], rules, p);
    }
  }

  // The classified prefixes, each with the hit of its last classified row.
  ghost function Matched(rows: seq<Row>, rules: seq<Rule>): map<string, Hit> {
    map row | row in rows && LastHit(rows, rules, row.prefix).Some? :: row.prefix := LastHit(rows, rules, row.prefix).value
  }

  lemma MatchedIsUnique(matched: map<string, Hit>, rows: seq<Row>, rules: seq<Rule>)
    requires MatchedFor(matched, rows, rules)
    ensures matched == Matched(rows, rules)
  {
    forall p | LastHit(rows, rules, p).Some? ensures exists row | row in rows :: row.prefix == p {
      HitHasRow(rows, rules, p);
    }
    assert forall p :: p in matched <==> p in Matched(rows, rules);
    assert forall p | p in matched :: matched[p] == Matched(rows, rules)[p];
  }

  method MatchRows(rows: seq<Row>, rules: seq<Rule>) returns (matched: map<string, Hit>)
    ensures MatchedFor(matched, rows, rules) && matched == Matched(rows, rules)
  {
    matched := map[];
    for i := 0 to |rows|
      invariant MatchedFor(matched, rows[..i], rules)
    {
      var hit := Classify(rows[i].organization, rules);
      assert rows[..i + 1][..i] == rows[..i];
      if hit.Some? {
        matched := matched[rows[i].prefix := hit.value];
      }
    }
    assert rows[..|rows|] == rows;
    MatchedIsUnique(matched, rows, rules);
  }

  // ---------------------------------------------------------------- base 36

  const DIGITS := "0123456789abcdefghijklmnopqrstuvwxyz"

  function DigitValue(c: char): Option<nat> {
    if '0' <= c <= '9' then Some(c as int - '0' as int)
    else if 'a' <= c <= 'z' then Some(c as int - 'a' as int + 10)
    else None
  }

  lemma DigitsValued(d: nat)
    requires d < 36
    ensures DigitValue(DIGITS[d]) == Some(d)
  {
  }

  // Lua's tonumber(s, 36), on lower-case digits.
  function FromBase36(s: string): Option<nat>
    decreases |s|
  {
    if s == "" then Some(0)
    else
      match (FromBase36(s[..|s| - 1]), DigitValue(s[|s| - 1]))
      case (Some(high), Some(low)) => Some(36 * high + low)
      case _ => None
  }

  lemma TwoDigits(value: nat)
    requires value < MAX_VENDORS
    ensures FromBase36([DIGITS[value / 36], DIGITS[value % 36]]) == Some(value)
  {
    var high, low := DIGITS[value / 36], DIGITS[value % 36];
    DigitsValued(value / 36);
    DigitsValued(value % 36);
    assert [high][..0] == "" && [high, low][..1] == [high];
    assert FromBase36([high]) == Some(value / 36);
  }

  lemma TwoDivisions(value: nat)
    ensures value / 36 / 36 == 0 <==> value < MAX_VENDORS
    ensures value < MAX_VENDORS ==> value / 36 % 36 == value / 36
  {
  }

  // None stands for the ValueError.
  method Base36(value: nat) returns (r: Option<string>)
    ensures r.Some? <==> value < 1296
    ensures r.Some? ==> |r.value| == 2 && FromBase36(r.value) == Some(value)
  {
    var rest := value;
    var out := "";
    for i := 0 to INDEX_LEN
      invariant i == 0 ==> rest == value && out == ""
      invariant i == 1 ==> rest == value / 36 && out == [DIGITS[value % 36]]
      invariant i == 2 ==> rest == value / 36 / 36 && out == [DIGITS[value / 36 % 36], DIGITS[value % 36]]
    {
      out := [DIGITS[rest % 36]] + out;
      rest := rest / 36;
    }
    TwoDivisions(value);
    if rest != 0 {
      return None;
    }
    TwoDigits(value);
    r := Some(out);
  }

  // ---------------------------------------------------------------- sorting

  ghost predicate StrictOrder<K(!new)>(less: (K, K) -> bool) {
    && (forall a, b, c | less(a, b) && less(b, c) :: less(a, c))
    && (forall a, b | a != b :: less(a, b) || less(b, a))
    && (forall a :: !less(a, a))
  }

  ghost predicate Ascending<K>(r: seq<K>, less: (K, K) -> bool) {
    forall i, j | 0 <= i < j < |r| :: less(r[i], r[j])
  }

  method Least<K(==, !new)>(s: set<K>, less: (K, K) -> bool) returns (m: K)
    requires s != {} && StrictOrder(less)
    ensures m in s && forall x | x in s && x != m :: less(m, x)
  {
    m :| m in s;
    var rest := s - {m};
    while rest != {}
      invariant m in s && rest <= s && m !in rest
      invariant forall x | x in s && x !in rest && x != m :: less(m, x)
      decreases rest
    {
      var x :| x in rest;
      rest := rest - {x};
      if less(x, m) {
        m := x;
      }
    }
  }

  // sorted(...) of a set.
  method Sorted<K(==, !new)>(s: set<K>, less: (K, K) -> bool) returns (r: seq<K>)
    requires StrictOrder(less)
    ensures Ascending(r, less) && forall x :: x in r <==> x in s
  {
    r := [];
    var rest := s;
    while rest != {}
      invariant rest <= s && Ascending(r, less)
      invariant forall x :: x in r <==> x in s && x !in rest
      invariant forall i, x | 0 <= i < |r| && x in rest :: less(r[i], x)
      decreases rest
    {
      var m := Least(rest, less);
      r := r + [m];
      rest := rest - {m};
    }
  }

  predicate HitLess(a: Hit, b: Hit) {
    Less(a.display, b.display) || (a.display == b.display && Less(a.icon, b.icon))
  }

  lemma StringsOrdered()
    ensures StrictOrder(Less)
  {
    forall a, b, c | Less(a, b) && Less(b, c) ensures Less(a, c) {
      LessTransitive(a, b, c);
    }
    forall a, b ensures a != b ==> Less(a, b) || Less(b, a) {
      LessTotal(a, b);
    }
    forall a ensures !Less(a, a) {
      LessTotal(a, a);
    }
  }

  lemma HitLessTransitive(a: Hit, b: Hit, c: Hit)
    requires HitLess(a, b) && HitLess(b, c)
    ensures HitLess(a, c)
  {
    if Less(a.display, b.display) && Less(b.display, c.display) {
      LessTransitive(a.display, b.display, c.display);
    } else if a.display == b.display == c.display {
      LessTransitive(a.icon, b.icon, c.icon);
    }
  }

  lemma HitsOrdered()
    ensures StrictOrder(HitLess)
  {
    forall a, b, c | HitLess(a, b) && HitLess(b, c) ensures HitLess(a, c) {
      HitLessTransitive(a, b, c);
    }
    forall a, b ensures (a != b ==> HitLess(a, b) || HitLess(b, a)) && !HitLess(a, a) {
      LessTotal(a.display, b.display);
      LessTotal(a.icon, b.icon);
      LessTotal(a.display, a.display);
      LessTotal(a.icon, a.icon);
    }
  }

  // ---------------------------------------------------------------- vendors

  // Every display name of the hits has a slot, the slot names it, and its icon is that of the
  // first hit with this display name.
  ghost predicate VendorTable<D(!new), I(!new)>(
    hits: seq<Pair<D, I>>, seen: map<D, nat>, vendors: seq<D>, icons: seq<I>, first: map<D, nat>)
  {
    && |vendors| == |icons| == |seen| && first.Keys == seen.Keys
    && (forall s | 0 <= s < |vendors| :: vendors[s] in seen && seen[vendors[s]] == s + 1)
    && (forall d | d in seen ::
          && 1 <= seen[d] <= |vendors| && vendors[seen[d] - 1] == d
          && first[d] < |hits| && hits[first[d]] == Hit(d, icons[seen[d] - 1]))
    && (forall k | 0 <= k < |hits| :: hits[k].display in seen && first[hits[k].display] <= k)
  }

  lemma VendorAdded<D(!new), I(!new)>(
    hits: seq<Pair<D, I>>, h: Pair<D, I>, seen: map<D, nat>, vendors: seq<D>, icons: seq<I>, first: map<D, nat>)
    requires VendorTable(hits, seen, vendors, icons, first) && h.display !in seen
    ensures VendorTable(hits + [h], seen[h.display := |vendors| + 1], vendors + [h.display], icons + [h.icon],
                        first[h.display := |hits|])
  {
  }

  lemma VendorSkipped<D(!new), I(!new)>(
    hits: seq<Pair<D, I>>, h: Pair<D, I>, seen: map<D, nat>, vendors: seq<D>, icons: seq<I>, first: map<D, nat>)
    requires VendorTable(hits, seen, vendors, icons, first) && h.display in seen
    ensures VendorTable(hits + [h], seen, vendors, icons, first)
  {
  }

  predicate IsFirst<D(==), I>(hits: seq<Pair<D, I>>, k: nat)
    requires k < |hits|
  {
    forall j | 0 <= j < k :: hits[j].display != hits[k].display
  }

  // The display names in the order in which they first occur.
  function FirstDisplays<D(==), I>(hits: seq<Pair<D, I>>): seq<D> {
    if hits == [] then []
    else
      var before, d := FirstDisplays(hits[..|hits| - 1]), hits[|hits| - 1].display;
      if d in before then before else before + [d]
  }

  // Among hits in order, the display names first occur in order.
  lemma {:induction false} DisplaysAscend(hits: seq<Hit>)
    requires Ascending(hits, HitLess)
    ensures Ascending(FirstDisplays(hits), Less)
    ensures forall d :: d in FirstDisplays(hits) <==> exists h :: h in hits && h.display == d
    decreases |hits|
  {
    if hits != [] {
      var before, last := hits[..|hits| - 1], hits[|hits| - 1];
      DisplaysAscend(before);
      assert hits == before + [last];
      var names := FirstDisplays(before);
      if last.display !in names {
        forall i | 0 <= i < |names| ensures Less(names[i], last.display) {
          assert names[i] in names;
          var h :| h in before && h.display == names[i];
          var k :| 0 <= k < |before| && before[k] == h;
          assert HitLess(hits[k], last);
        }
      }
    }
  }

  // One slot for each display name, holding the name and the icon of its first hit.
  ghost predicate Numbered<D(!new), I(!new)>(hits: seq<Pair<D, I>>, seen: map<D, nat>, vendors: seq<D>, icons: seq<I>) {
    && |vendors| == |icons| == |seen|
    && (forall d | d in seen :: 1 <= seen[d] <= |vendors| && vendors[seen[d] - 1] == d)
    && (forall k: nat | k < |hits| :: hits[k].display in seen)
    && (forall k: nat | k < |hits| && IsFirst(hits, k) :: icons[seen[hits[k].display] - 1] == hits[k].icon)
  }

  lemma TableNumbers<D(!new), I(!new)>(
    hits: seq<Pair<D, I>>, seen: map<D, nat>, vendors: seq<D>, icons: seq<I>, first: map<D, nat>)
    requires VendorTable(hits, seen, vendors, icons, first)
    ensures Numbered(hits, seen, vendors, icons)
  {
    forall k: nat | k < |hits| && IsFirst(hits, k) ensures icons[seen[hits[k].display] - 1] == hits[k].icon {
      assert first[hits[k].display] == k;
    }
  }

  lemma NextDisplay<D, I>(hits: seq<Pair<D, I>>, h: Pair<D, I>)
    ensures FirstDisplays(hits + [h])
         == FirstDisplays(hits) + if h.display in FirstDisplays(hits) then [] else [h.display]
  {
    assert (hits + [h])[..|hits|] == hits;
  }

  lemma SeenIsNumbered<D(!new), I(!new)>(
    hits: seq<Pair<D, I>>, seen: map<D, nat>, vendors: seq<D>, icons: seq<I>, first: map<D, nat>, d: D)
    requires VendorTable(hits, seen, vendors, icons, first)
    ensures d in seen <==> d in vendors
  {
  }

  lemma NewVendor<D(!new), I(!new)>(
    hits: seq<Pair<D, I>>, h: Pair<D, I>, seen: map<D, nat>, vendors: seq<D>, icons: seq<I>, first: map<D, nat>)
    requires VendorTable(hits, seen, vendors, icons, first) && vendors == FirstDisplays(hits) && h.display !in seen
    ensures VendorTable(hits + [h], seen[h.display := |vendors| + 1], vendors + [h.display], icons + [h.icon],
                        first[h.display := |hits|])
    ensures vendors + [h.display] == FirstDisplays(hits + [h])
  {
    VendorAdded(hits, h, seen, vendors, icons, first);
    SeenIsNumbered(hits, seen, vendors, icons, first, h.display);
    NextDisplay(hits, h);
  }

  lemma OldVendor<D(!new), I(!new)>(
    hits: seq<Pair<D, I>>, h: Pair<D, I>, seen: map<D, nat>, vendors: seq<D>, icons: seq<I>, first: map<D, nat>)
    requires VendorTable(hits, seen, vendors, icons, first) && vendors == FirstDisplays(hits) && h.display in seen
    ensures VendorTable(hits + [h], seen, vendors, icons, first) && vendors == FirstDisplays(hits + [h])
  {
    VendorSkipped(hits, h, seen, vendors, icons, first);
    SeenIsNumbered(hits, seen, vendors, icons, first, h.display);
    NextDisplay(hits, h);
  }

  method TakeVendor<D(==, !new), I(!new)>(
    h: Pair<D, I>, ghost done: seq<Pair<D, I>>, seen: map<D, nat>, vendors: seq<D>, icons: seq<I>, ghost first: map<D, nat>)
    returns (seen': map<D, nat>, vendors': seq<D>, icons': seq<I>, ghost first': map<D, nat>)
    requires VendorTable(done, seen, vendors, icons, first) && vendors == FirstDisplays(done)
    ensures VendorTable(done + [h], seen', vendors', icons', first') && vendors' == FirstDisplays(done + [h])
  {
    if h.display in seen {
      OldVendor(done, h, seen, vendors, icons, first);
      return seen, vendors, icons, first;
    }
    NewVendor(done, h, seen, vendors, icons, first);
    return seen[h.display := |vendors| + 1], vendors + [h.display], icons + [h.icon], first[h.display := |done|];
  }

  method FillVendors<D(==, !new), I(!new)>(hits: seq<Pair<D, I>>)
    returns (seen: map<D, nat>, vendors: seq<D>, icons: seq<I>, ghost first: map<D, nat>)
    ensures VendorTable(hits, seen, vendors, icons, first) && vendors == FirstDisplays(hits)
  {
    seen, vendors, icons, first := map[], [], [], map[];
    ghost var done: seq<Pair<D, I>> := [];
    for k := 0 to |hits|
      invariant done == hits[..k]
      invariant VendorTable(done, seen, vendors, icons, first) && vendors == FirstDisplays(done)
    {
      PrefixStep(hits, k);
      seen, vendors, icons, first := TakeVendor(hits[k], done, seen, vendors, icons, first);
      done := done + [hits[k]];
    }
    WholePrefix(hits);
  }

  method NumberVendors<D(==, !new), I(!new)>(hits: seq<Pair<D, I>>)
    returns (seen: map<D, nat>, vendors: seq<D>, icons: seq<I>, ghost first: map<D, nat>)
    ensures Numbered(hits, seen, vendors, icons) && vendors == FirstDisplays(hits)
    ensures VendorTable(hits, seen, vendors, icons, first)
  {
    seen, vendors, icons, first := FillVendors(hits);
    TableNumbers(hits, seen, vendors, icons, first);
  }

  // Among hits in order, the icon of the first one with a display name is its least.
  lemma FirstIsLeast(hits: seq<Hit>, j: nat, k: nat)
    requires Ascending(hits, HitLess) && j <= k < |hits| && hits[j].display == hits[k].display
    ensures !Less(hits[k].icon, hits[j].icon)
  {
    LessTotal(hits[k].icon, hits[j].icon);
    LessTotal(hits[k].display, hits[k].display);
    if j < k {
      assert HitLess(hits[j], hits[k]);
    }
  }

  // ---------------------------------------------------------------- the index

  datatype Table = Table(index: string, vendors: seq<string>, icons: seq<string>)

  function RecordPrefix(index: string, k: nat): string
    requires RECORD_LEN * k + RECORD_LEN <= |index|
  {
    index[RECORD_LEN * k..RECORD_LEN * k + PREFIX_LEN]
  }

  function RecordSlot(index: string, k: nat): string
    requires RECORD_LEN * k + RECORD_LEN <= |index|
  {
    index[RECORD_LEN * k + PREFIX_LEN..RECORD_LEN * k + RECORD_LEN]
  }

  // The index holds one record per prefix, in order, each with the slot of its display name.
  ghost predicate Indexes(index: string, order: seq<string>, slot: map<string, nat>) {
    && |index| == RECORD_LEN * |order|
    && forall k: nat | k < |order| ::
         RecordPrefix(index, k) == order[k] && order[k] in slot && FromBase36(RecordSlot(index, k)) == Some(slot[order[k]])
  }

  lemma RecordAppended(index: string, record: string, k: nat)
    requires |index| % RECORD_LEN == 0 && |record| == RECORD_LEN && RECORD_LEN * k + RECORD_LEN <= |index + record|
    ensures RECORD_LEN * k < |index| ==>
              RecordPrefix(index + record, k) == RecordPrefix(index, k) && RecordSlot(index + record, k) == RecordSlot(index, k)
    ensures RECORD_LEN * k == |index| ==>
              RecordPrefix(index + record, k) == record[..PREFIX_LEN] && RecordSlot(index + record, k) == record[PREFIX_LEN..]
  {
  }

  lemma PlainAppended(index: string, record: string)
    requires Plain(index) && Plain(record)
    ensures Plain(index + record)
  {
  }

  method Records(order: seq<string>, slot: map<string, nat>) returns (index: string)
    requires forall p | p in order :: IsPrefix(p) && p in slot && slot[p] < MAX_VENDORS
    ensures Indexes(index, order, slot) && Plain(index)
  {
    index := "";
    for n := 0 to |order|
      invariant Indexes(index, order[..n], slot) && Plain(index)
    {
      var p := order[n];
      assert p in order && IsPrefix(p);
      var digits := Base36(slot[p]);
      var record := p + digits.value;
      assert record[..PREFIX_LEN] == p && record[PREFIX_LEN..] == digits.value;
      forall k: nat | k <= n ensures
        && RecordPrefix(index + record, k) == order[k] && order[k] in slot
        && FromBase36(RecordSlot(index + record, k)) == Some(slot[order[k]])
      {
        RecordAppended(index, record, k);
        assert k < n ==> order[..n][k] == order[k];
      }
      PlainAppended(index, record);
      index := index + record;
    }
    assert order[..|order|] == order;
  }

  // `icon` is the alphabetically least icon of the matched rules with this display name.
  // The layout of the index, in characters: eight for each prefix, its six and two for its slot.
  lemma RecordLayout(index: string, order: seq<string>, slot: map<string, nat>, k: nat)
    requires Indexes(index, order, slot) && k < |order|
    ensures |index| == 8 * |order|
    ensures index[8 * k..8 * k + 6] == order[k]
    ensures order[k] in slot && FromBase36(index[8 * k + 6..8 * k + 8]) == Some(slot[order[k]])
  {
    assert RecordPrefix(index, k) == index[8 * k..8 * k + 6] && RecordSlot(index, k) == index[8 * k + 6..8 * k + 8];
  }

  ghost predicate LeastIcon(icon: string, display: string, hits: set<Hit>) {
    Hit(display, icon) in hits && forall h | h in hits && h.display == display :: !Less(h.icon, icon)
  }

  ghost predicate SlotNames(vendors: seq<string>, icons: seq<string>, slot: nat, hit: Hit, hits: set<Hit>) {
    && 1 <= slot <= |vendors| == |icons|
    && vendors[slot - 1] == hit.display && LeastIcon(icons[slot - 1], hit.display, hits)
  }

  // What the table says about the classified prefixes.
  ghost predicate Compiled(t: Table, order: seq<string>, slot: map<string, nat>, matched: map<string, Hit>) {
    && Ascending(order, Less)
    && (forall p :: p in order <==> p in matched)
    && Indexes(t.index, order, slot)
    && (forall p | p in order :: p in slot && SlotNames(t.vendors, t.icons, slot[p], matched[p], matched.Values))
    && Plain(t.index) && SlotsUsed(t.vendors, t.icons, matched.Values)
  }

  // Every slot holds the display name and icon of some hit.
  ghost predicate SlotsUsed(vendors: seq<string>, icons: seq<string>, hits: set<Hit>) {
    |vendors| == |icons| && forall s | 0 <= s < |vendors| :: Hit(vendors[s], icons[s]) in hits
  }

  predicate IsHex(c: char) {
    '0' <= c <= '9' || 'a' <= c <= 'f'
  }

  predicate IsBase36(c: char) {
    '0' <= c <= '9' || 'a' <= c <= 'z'
  }

  predicate Plain(s: string) {
    forall c | c in s :: IsBase36(c)
  }

  ghost predicate CompiledFrom(t: Table, matched: map<string, Hit>) {
    exists order, slot :: Compiled(t, order, slot, matched)
  }

  ghost predicate WellFormedRows(rows: seq<Row>) {
    forall row | row in rows :: IsPrefix(row.prefix)
  }

  predicate IsPrefix(p: string) {
    |p| == PREFIX_LEN && forall c | c in p :: IsHex(c)
  }

  ghost function Displays<D(!new), I(!new)>(hits: set<Pair<D, I>>): set<D> {
    set h | h in hits :: h.display
  }

  lemma VendorCount<D(!new), I(!new)>(
    values: set<Pair<D, I>>, hits: seq<Pair<D, I>>, seen: map<D, nat>, vendors: seq<D>, icons: seq<I>, first: map<D, nat>)
    requires VendorTable(hits, seen, vendors, icons, first) && forall x :: x in hits <==> x in values
    ensures |vendors| == |Displays(values)|
  {
    forall d ensures d in seen.Keys <==> d in Displays(values) {
      if d in seen.Keys {
        assert hits[first[d]] in hits;
      }
      if d in Displays(values) {
        var h :| h in values && h.display == d;
        var k :| 0 <= k < |hits| && hits[k] == h;
      }
    }
    assert seen.Keys == Displays(values);
    assert |seen| == |seen.Keys|;
  }

  lemma VendorsUsed(values: set<Hit>, hits: seq<Hit>, seen: map<string, nat>, vendors: seq<string>, icons: seq<string>,
                    first: map<string, nat>)
    requires VendorTable(hits, seen, vendors, icons, first) && forall x :: x in hits <==> x in values
    ensures SlotsUsed(vendors, icons, values)
  {
    forall s | 0 <= s < |vendors| ensures Hit(vendors[s], icons[s]) in values {
      assert hits[first[vendors[s]]] in hits;
    }
  }

  lemma SlotOfHit(hits: seq<Hit>, seen: map<string, nat>, vendors: seq<string>, icons: seq<string>, first: map<string, nat>, k: nat)
    requires VendorTable(hits, seen, vendors, icons, first) && Ascending(hits, HitLess) && k < |hits|
    ensures !Less(hits[k].icon, icons[seen[hits[k].display] - 1])
  {
    FirstIsLeast(hits, first[hits[k].display], k);
  }

  lemma FirstIconIsLeast(hits: seq<Hit>, values: set<Hit>, seen: map<string, nat>, vendors: seq<string>, icons: seq<string>,
                         first: map<string, nat>, d: string)
    requires VendorTable(hits, seen, vendors, icons, first) && Ascending(hits, HitLess)
    requires forall x :: x in hits <==> x in values
    requires d in seen
    ensures LeastIcon(icons[seen[d] - 1], d, values)
  {
    assert hits[first[d]] in hits;
    forall h | h in values && h.display == d ensures !Less(h.icon, icons[seen[d] - 1]) {
      var i :| 0 <= i < |hits| && hits[i] == h;
      SlotOfHit(hits, seen, vendors, icons, first, i);
    }
  }

  lemma TableCompiled(t: Table, found: map<string, Hit>, order: seq<string>, slot: map<string, nat>)
    requires Ascending(order, Less) && forall p :: p in order <==> p in found
    requires slot.Keys == found.Keys && forall p | p in found :: SlotNames(t.vendors, t.icons, slot[p], found[p], found.Values)
    requires Indexes(t.index, order, slot) && Plain(t.index) && SlotsUsed(t.vendors, t.icons, found.Values)
    ensures Compiled(t, order, slot, found)
  {
  }

  lemma PrefixesFit(rows: seq<Row>, rules: seq<Rule>, found: map<string, Hit>)
    requires WellFormedRows(rows) && MatchedFor(found, rows, rules)
    ensures forall p | p in found :: IsPrefix(p)
  {
    forall p | p in found ensures IsPrefix(p) {
      assert LastHit(rows, rules, p).Some?;
      HitHasRow(rows, rules, p);
    }
  }

  method SortedHits(found: map<string, Hit>) returns (hits: seq<Hit>)
    ensures Ascending(hits, HitLess) && forall x :: x in hits <==> x in found.Values
  {
    HitsOrdered();
    hits := Sorted(found.Values, HitLess);
  }

  // None stands for the "too many vendors" exit.
  method Build(rows: seq<Row>, rules: seq<Rule>) returns (t: Option<Table>)
    requires WellFormedRows(rows)
    ensures t.Some? <==> |Displays(Matched(rows, rules).Values)| < 1296
    ensures t.Some? ==> CompiledFrom(t.value, Matched(rows, rules)) && Ascending(t.value.vendors, Less)
  {
    var found := MatchRows(rows, rules);
    PrefixesFit(rows, rules, found);
    var slots, vendors, icons := Slots(found);
    if |vendors| >= MAX_VENDORS {
      return None;
    }
    var table := BuildIndex(found, slots, vendors, icons);
    t := Some(table);
  }

  method Slots(found: map<string, Hit>) returns (slots: map<string, nat>, vendors: seq<string>, icons: seq<string>)
    ensures |vendors| == |Displays(found.Values)| && SlotsUsed(vendors, icons, found.Values) && Ascending(vendors, Less)
    ensures slots.Keys == found.Keys && forall p | p in found :: slots[p] <= |vendors|
    ensures forall p | p in found :: SlotNames(vendors, icons, slots[p], found[p], found.Values)
  {
    var hits := SortedHits(found);
    var seen, names, pictures, first := NumberVendors(hits);
    DisplaysAscend(hits);
    vendors, icons := names, pictures;
    VendorCount(found.Values, hits, seen, vendors, icons, first);
    VendorsUsed(found.Values, hits, seen, vendors, icons, first);
    slots := SlotMap(found, hits, seen, vendors, icons, first);
  }

  lemma SlotNamesHit(found: map<string, Hit>, hits: seq<Hit>, seen: map<string, nat>, vendors: seq<string>, icons: seq<string>,
                     first: map<string, nat>, p: string)
    requires VendorTable(hits, seen, vendors, icons, first) && Ascending(hits, HitLess)
    requires forall x :: x in hits <==> x in found.Values
    requires p in found
    ensures found[p].display in seen && SlotNames(vendors, icons, seen[found[p].display], found[p], found.Values)
  {
    assert found[p] in found.Values;
    var k :| 0 <= k < |hits| && hits[k] == found[p];
    FirstIconIsLeast(hits, found.Values, seen, vendors, icons, first, hits[k].display);
  }

  lemma SlotsName(found: map<string, Hit>, hits: seq<Hit>, seen: map<string, nat>, vendors: seq<string>, icons: seq<string>,
                  first: map<string, nat>, slots: map<string, nat>)
    requires VendorTable(hits, seen, vendors, icons, first) && Ascending(hits, HitLess)
    requires forall x :: x in hits <==> x in found.Values
    requires slots.Keys == found.Keys
    requires forall p | p in found :: found[p].display in seen && slots[p] == seen[found[p].display]
    ensures forall p | p in found :: SlotNames(vendors, icons, slots[p], found[p], found.Values)
  {
    forall p | p in found ensures SlotNames(vendors, icons, slots[p], found[p], found.Values) {
      SlotNamesHit(found, hits, seen, vendors, icons, first, p);
    }
  }

  lemma SlotsExist(found: map<string, Hit>, hits: seq<Hit>, seen: map<string, nat>, vendors: seq<string>, icons: seq<string>,
                   first: map<string, nat>)
    requires VendorTable(hits, seen, vendors, icons, first)
    requires forall x :: x in hits <==> x in found.Values
    ensures forall p | p in found :: found[p].display in seen && seen[found[p].display] <= |vendors|
  {
    forall p | p in found ensures found[p].display in seen && seen[found[p].display] <= |vendors| {
      assert found[p] in found.Values;
      var k :| 0 <= k < |hits| && hits[k] == found[p];
    }
  }

  method SlotMap(found: map<string, Hit>, ghost hits: seq<Hit>, seen: map<string, nat>, vendors: seq<string>, icons: seq<string>,
                 ghost first: map<string, nat>)
    returns (slots: map<string, nat>)
    requires VendorTable(hits, seen, vendors, icons, first) && Ascending(hits, HitLess)
    requires forall x :: x in hits <==> x in found.Values
    ensures slots.Keys == found.Keys && forall p | p in found :: slots[p] <= |vendors|
    ensures forall p | p in found :: SlotNames(vendors, icons, slots[p], found[p], found.Values)
  {
    SlotsExist(found, hits, seen, vendors, icons, first);
    slots := map p | p in found :: seen[found[p].display];
    SlotsName(found, hits, seen, vendors, icons, first, slots);
  }

  // The records of `build`, once the vendors are known to fit.
  method BuildIndex(found: map<string, Hit>, slots: map<string, nat>, vendors: seq<string>, icons: seq<string>)
    returns (t: Table)
    requires (forall p | p in found :: IsPrefix(p)) && SlotsUsed(vendors, icons, found.Values)
    requires slots.Keys == found.Keys && forall p | p in found :: slots[p] < MAX_VENDORS
    requires forall p | p in found :: SlotNames(vendors, icons, slots[p], found[p], found.Values)
    ensures CompiledFrom(t, found) && t.vendors == vendors && t.icons == icons
  {
    var prefixes := SortedPrefixes(found);
    var index := Records(prefixes, slots);
    t := Table(index, vendors, icons);
    TableCompiled(t, found, prefixes, slots);
  }

  method SortedPrefixes(found: map<string, Hit>) returns (prefixes: seq<string>)
    ensures Ascending(prefixes, Less) && forall p :: p in prefixes <==> p in found
  {
    StringsOrdered();
    prefixes := Sorted(found.Keys, Less);
  }

  // ---------------------------------------------------------------- binary search

  // A probe that compares less rules out everything up to it, and the other way round.
  lemma ProbeRulesOut(order: seq<string>, prefix: string, mid: nat, k: nat)
    requires Ascending(order, Less) && mid < |order| && k < |order| && order[k] == prefix
    ensures Less(order[mid], prefix) ==> k > mid
    ensures !Less(order[mid], prefix) && order[mid] != prefix ==> k < mid
  {
    LessTotal(order[mid], prefix);
    if k < mid {
      LessTotal(order[k], order[mid]);
    }
  }

  method Search(index: string, prefix: string, ghost order: seq<string>, ghost slot: map<string, nat>)
    returns (r: Option<nat>)
    requires Indexes(index, order, slot) && Ascending(order, Less)
    ensures r == if prefix in order then Some(slot[prefix]) else None
  {
    var low, high := 0, |index| / RECORD_LEN - 1;
    while low <= high
      invariant 0 <= low <= high + 1 <= |order|
      invariant forall k | 0 <= k < |order| && order[k] == prefix :: low <= k <= high
    {
      var mid := (low + high) / 2;
      var key := RecordPrefix(index, mid);
      if key == prefix {
        return FromBase36(RecordSlot(index, mid));
      }
      forall k | 0 <= k < |order| && order[k] == prefix
        ensures Less(order[mid], prefix) ==> k > mid
        ensures !Less(order[mid], prefix) ==> k < mid
      {
        ProbeRulesOut(order, prefix, mid, k);
      }
      if Less(key, prefix) {
        low := mid + 1;
      } else {
        high := mid - 1;
      }
    }
    r := None;
  }

  lemma LastHitIsMatched(rows: seq<Row>, rules: seq<Rule>, prefix: string)
    ensures var matched := Matched(rows, rules);
      LastHit(rows, rules, prefix) == if prefix in matched then Some(matched[prefix]) else None
  {
    if LastHit(rows, rules, prefix).Some? {
      HitHasRow(rows, rules, prefix);
    }
  }

  method FindSlot(t: Table, prefix: string, ghost order: seq<string>, ghost slot: map<string, nat>, ghost matched: map<string, Hit>)
    returns (r: Option<nat>)
    requires Compiled(t, order, slot, matched)
    ensures r.Some? <==> prefix in matched
    ensures r.Some? ==> SlotNames(t.vendors, t.icons, r.value, matched[prefix], matched.Values)
  {
    r := Search(t.index, prefix, order, slot);
    assert prefix in order <==> prefix in matched;
  }

  // No matched hit of the prefix's display name has a smaller icon.
  ghost predicate KeepsIcon(rows: seq<Row>, rules: seq<Rule>, prefix: string) {
    var own := LastHit(rows, rules, prefix);
    own.Some? ==> LeastIcon(own.value.icon, own.value.display, Matched(rows, rules).Values)
  }

  // The least icon is the row's own exactly when no rule of the same display name has a smaller one.
  lemma IconKept(icon: string, hit: Hit, hits: set<Hit>)
    requires hit in hits && LeastIcon(icon, hit.display, hits)
    ensures icon == hit.icon <==> LeastIcon(hit.icon, hit.display, hits)
  {
    LessTotal(icon, hit.icon);
  }

  // The rules give each display name one icon.
  ghost predicate OneIcon(rules: seq<Rule>) {
    forall a, b | a in rules && b in rules && a.hit.display == b.hit.display :: a.hit.icon == b.hit.icon
  }

  lemma {:induction false} FirstRuleIsRule(lowered: string, rules: seq<Rule>) returns (rule: Rule)
    requires FirstRule(lowered, rules).Some?
    ensures rule in rules && FirstRule(lowered, rules) == Some(rule.hit)
    decreases |rules|
  {
    rule := rules[0];
    if !Occurs(rules[0].pattern, lowered) {
      rule := FirstRuleIsRule(lowered, rules[1..]);
    }
  }

  lemma {:induction false} LastHitIsRule(rows: seq<Row>, rules: seq<Rule>, prefix: string) returns (rule: Rule)
    requires LastHit(rows, rules, prefix).Some?
    ensures rule in rules && LastHit(rows, rules, prefix) == Some(rule.hit)
    decreases |rows|
  {
    var last := rows[|rows| - 1];
    if last.prefix == prefix && Classify(last.organization, rules).Some? {
      rule := FirstRuleIsRule(Lower(last.organization), rules);
    } else {
      rule := LastHitIsRule(rows[..|rows| - 1], rules, prefix);
    }
  }

  lemma MatchedIsRule(rows: seq<Row>, rules: seq<Rule>, hit: Hit) returns (rule: Rule)
    requires hit in Matched(rows, rules).Values
    ensures rule in rules && rule.hit == hit
  {
    var p :| p in Matched(rows, rules) && Matched(rows, rules)[p] == hit;
    rule := LastHitIsRule(rows, rules, p);
  }

  lemma OneIconKept(rows: seq<Row>, rules: seq<Rule>, prefix: string)
    ensures OneIcon(rules) ==> KeepsIcon(rows, rules, prefix)
  {
    var own := LastHit(rows, rules, prefix);
    if OneIcon(rules) && own.Some? {
      LastHitIsMatched(rows, rules, prefix);
      var rule := LastHitIsRule(rows, rules, prefix);
      forall h | h in Matched(rows, rules).Values && h.display == own.value.display ensures !Less(h.icon, own.value.icon) {
        var other := MatchedIsRule(rows, rules, h);
        LessTotal(h.icon, own.value.icon);
      }
    }
  }

  // From rows to answers: the collector finds a vendor exactly for the prefixes some row of which
  // classifies, and it is the display name of the last such row, with the least icon that any
  // matched rule gives this display name.
  method Lookup(t: Table, prefix: string, ghost rows: seq<Row>, ghost rules: seq<Rule>) returns (r: Option<Hit>)
    requires CompiledFrom(t, Matched(rows, rules))
    ensures r.Some? <==> LastHit(rows, rules, prefix).Some?
    ensures r.Some? ==>
              && r.value.display == LastHit(rows, rules, prefix).value.display
              && LeastIcon(r.value.icon, r.value.display, Matched(rows, rules).Values)
    ensures r == LastHit(rows, rules, prefix) <==> KeepsIcon(rows, rules, prefix)
    ensures OneIcon(rules) ==> r == LastHit(rows, rules, prefix)
  {
    ghost var matched := Matched(rows, rules);
    ghost var order, slot :| Compiled(t, order, slot, matched);
    var found := FindSlot(t, prefix, order, slot, matched);
    LastHitIsMatched(rows, rules, prefix);
    OneIconKept(rows, rules, prefix);
    if found.None? {
      return None;
    }
    r := Some(Hit(t.vendors[found.value - 1], t.icons[found.value - 1]));
    IconKept(r.value.icon, matched[prefix], matched.Values);
  }
}
