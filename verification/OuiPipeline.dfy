// From registry rows to the vendor shown for an address: build, render, load and search together.
module OuiPipeline {
  import opened Wrappers
  import opened Strings
  import opened OuiTable
  import opened OuiRender
  import opened SetSizes

  // Display names and icons of the rules are free of line breaks.
  predicate OneLineRules(rules: seq<Rule>) {
    forall rule | rule in rules :: OneLine(rule.hit.display) && OneLine(rule.hit.icon)
  }

  lemma PlainOneLine(s: string)
    requires Plain(s)
    ensures OneLine(s)
  {
  }

  // Everything the table holds can be written as one-line strings.
  lemma TableOneLine(t: Table, rows: seq<Row>, rules: seq<Rule>)
    requires OneLineRules(rules) && CompiledFrom(t, Matched(rows, rules))
    ensures Renderable(t)
  {
    PlainOneLine(t.index);
    forall s | 0 <= s < |t.vendors| ensures OneLine(t.vendors[s]) && OneLine(t.icons[s]) {
      var rule := MatchedIsRule(rows, rules, Pair.Hit(t.vendors[s], t.icons[s]));
    }
  }

  method SearchLoaded(indexText: string, prefix: string, ghost t: Table, ghost matched: map<string, Hit>)
    returns (r: Option<nat>)
    requires CompiledFrom(t, matched) && OneLine(t.index) && indexText == IndexText(t.index)
    ensures r.Some? <==> prefix in matched
    ensures r.Some? ==> SlotNames(t.vendors, t.icons, r.value, matched[prefix], matched.Values)
  {
    IndexRoundTrip(t.index);
    var index := LoadIndex(indexText);
    ghost var order, slot :| Compiled(t, order, slot, matched);
    r := Search(index.value, prefix, order, slot);
    assert prefix in order <==> prefix in matched;
  }

  predicate Renderable(t: Table) {
    && OneLine(t.index) && |t.vendors| == |t.icons|
    && (forall v | v in t.vendors :: OneLine(v)) && (forall i | i in t.icons :: OneLine(i))
  }

  method VendorLoaded(vendorsText: string, slot: nat, ghost t: Table) returns (r: Option<Hit>)
    requires Renderable(t) && vendorsText == VendorsText(t.vendors, t.icons) && 1 <= slot <= |t.vendors|
    ensures r == Some(Pair.Hit(t.vendors[slot - 1], t.icons[slot - 1]))
  {
    VendorsRoundTrip(t.vendors, t.icons);
    FlatPairs(t.vendors, t.icons, slot);
    var flat := LoadVendors(vendorsText);
    r := VendorAt(flat.value, slot);
  }

  // What an answer should be: the display name of the last classified row, with the least icon of the
  // rows that go by that name, which may be its own.
  ghost predicate Answers(r: Option<Hit>, rows: seq<Row>, rules: seq<Rule>, prefix: string) {
    && (r.Some? <==> LastHit(rows, rules, prefix).Some?)
    && (r.Some? ==> r.value.display == LastHit(rows, rules, prefix).value.display
                    && LeastIcon(r.value.icon, r.value.display, Matched(rows, rules).Values))
    && (r == LastHit(rows, rules, prefix) <==> KeepsIcon(rows, rules, prefix))
  }

  // The same, said of the classified prefixes.
  ghost predicate Names(r: Option<Hit>, matched: map<string, Hit>, prefix: string) {
    && (r.Some? <==> prefix in matched)
    && (r.Some? ==> r.value.display == matched[prefix].display
                    && LeastIcon(r.value.icon, r.value.display, matched.Values))
  }

  lemma NamesAnswers(r: Option<Hit>, rows: seq<Row>, rules: seq<Rule>, prefix: string)
    requires Names(r, Matched(rows, rules), prefix)
    ensures Answers(r, rows, rules, prefix)
  {
    var matched := Matched(rows, rules);
    LastHitIsMatched(rows, rules, prefix);
    if prefix in matched {
      IconKept(r.value.icon, matched[prefix], matched.Values);
    }
  }

  lemma SlotNamed(vendors: seq<string>, icons: seq<string>, slot: nat, matched: map<string, Hit>, prefix: string)
    requires prefix in matched && SlotNames(vendors, icons, slot, matched[prefix], matched.Values)
    ensures Names(Some(Pair.Hit(vendors[slot - 1], icons[slot - 1])), matched, prefix)
  {
  }

  method VendorOfSlot(vendorsText: string, found: Option<nat>, prefix: string, ghost t: Table, ghost matched: map<string, Hit>)
    returns (r: Option<Hit>)
    requires Renderable(t) && vendorsText == VendorsText(t.vendors, t.icons)
    requires found.Some? <==> prefix in matched
    requires found.Some? ==> SlotNames(t.vendors, t.icons, found.value, matched[prefix], matched.Values)
    ensures Names(r, matched, prefix)
  {
    if found.None? {
      return None;
    }
    SlotNamed(t.vendors, t.icons, found.value, matched, prefix);
    r := VendorLoaded(vendorsText, found.value, t);
  }

  // The collector's side: the two loaded lists, the binary search, and the slot's entries.
  method LookupLoaded(indexText: string, vendorsText: string, prefix: string,
                      ghost t: Table, ghost matched: map<string, Hit>)
    returns (r: Option<Hit>)
    requires Renderable(t) && CompiledFrom(t, matched)
    requires indexText == IndexText(t.index) && vendorsText == VendorsText(t.vendors, t.icons)
    ensures Names(r, matched, prefix)
  {
    var found := SearchLoaded(indexText, prefix, t, matched);
    r := VendorOfSlot(vendorsText, found, prefix, t, matched);
  }

  // The answer is the first matching rule of the last row of the prefix that any rule matches.
  ghost predicate DecidedBy(r: Option<Hit>, rows: seq<Row>, rules: seq<Rule>, prefix: string) {
    forall h :: r == Some(h) <==> exists i, k :: Decides(rows, rules, prefix, i, k) && rules[k].hit == h
  }

  lemma AnswerDecided(rows: seq<Row>, rules: seq<Rule>, prefix: string)
    ensures DecidedBy(LastHit(rows, rules, prefix), rows, rules, prefix)
  {
    forall h ensures LastHit(rows, rules, prefix) == Some(h) <==> exists i, k :: Decides(rows, rules, prefix, i, k) && rules[k].hit == h {
      LastHitMeans(rows, rules, prefix, h);
    }
  }

  // The whole way. It ends with the "too many vendors" exit, or every prefix is answered with the
  // display name of its last classified row, and with that row's own icon when the rules give each
  // display name one icon.
  method Answer(rows: seq<Row>, rules: seq<Rule>, prefix: string) returns (built: bool, r: Option<Hit>)
    requires WellFormedRows(rows) && OneLineRules(rules)
    ensures built <==> |Displays(Matched(rows, rules).Values)| < 1296
    ensures built ==> Answers(r, rows, rules, prefix)
    ensures built && OneIcon(rules) ==> r == LastHit(rows, rules, prefix)
    ensures built && OneIcon(rules) ==> DecidedBy(r, rows, rules, prefix)
  {
    AnswerDecided(rows, rules, prefix);
    var t := Build(rows, rules);
    if t.None? {
      return false, None;
    }
    TableOneLine(t.value, rows, rules);
    var indexText, vendorsText := IndexText(t.value.index), VendorsText(t.value.vendors, t.value.icons);
    r := LookupLoaded(indexText, vendorsText, prefix, t.value, Matched(rows, rules));
    NamesAnswers(r, rows, rules, prefix);
    OneIconKept(rows, rules, prefix);
    built := true;
  }

  // ---------------------------------------------------------------- one display name, two icons

  function AcmeRules(): seq<Rule> {
    [Rule("l", Pair.Hit("Acme", "lamp")), Rule("m", Pair.Hit("Acme", "mobile"))]
  }

  function AcmeRows(): seq<Row> {
    [Row("00000a", "L"), Row("00000b", "M")]
  }

  lemma OneLetter(c: char, d: char)
    ensures Occurs([c], [d]) <==> c == d
  {
    if c == d {
      OccursIn([c], [d], 0);
    }
    if Occurs([c], [d]) {
      var i := Occurrence([c], [d]);
      assert [d][i..i + 1] == [d];
    }
  }

  lemma AcmeClassified()
    ensures Classify("L", AcmeRules()) == Some(Pair.Hit("Acme", "lamp"))
    ensures Classify("M", AcmeRules()) == Some(Pair.Hit("Acme", "mobile"))
  {
    assert Lower("L") == "l" && Lower("M") == "m";
    OneLetter('l', 'l');
    OneLetter('l', 'm');
    OneLetter('m', 'm');
    var second := AcmeRules()[1..];
    assert FirstRule("m", AcmeRules()) == FirstRule("m", second);
  }

  lemma AcmeHits()
    ensures LastHit(AcmeRows(), AcmeRules(), "00000a") == Some(Pair.Hit("Acme", "lamp"))
    ensures LastHit(AcmeRows(), AcmeRules(), "00000b") == Some(Pair.Hit("Acme", "mobile"))
  {
    AcmeClassified();
    assert "00000a"[5] != "00000b"[5];
    assert AcmeRows()[..1] == [Row("00000a", "L")];
    assert LastHit(AcmeRows()[..1], AcmeRules(), "00000a") == Some(Pair.Hit("Acme", "lamp"));
  }

  lemma AcmeIconLost()
    ensures !KeepsIcon(AcmeRows(), AcmeRules(), "00000b")
  {
    AcmeHits();
    LastHitIsMatched(AcmeRows(), AcmeRules(), "00000a");
    var matched := Matched(AcmeRows(), AcmeRules());
    assert matched["00000a"] == Pair.Hit("Acme", "lamp");
    SmallerIcon("Acme", "lamp", "mobile", matched.Values);
  }

  lemma SmallerIcon(display: string, small: string, large: string, hits: set<Hit>)
    requires small != "" && large != "" && small[0] < large[0] && Pair.Hit(display, small) in hits
    ensures !LeastIcon(large, display, hits)
  {
    assert Less(small, large);
  }

  lemma AcmeWellFormed()
    ensures WellFormedRows(AcmeRows()) && OneLineRules(AcmeRules())
  {
    forall row | row in AcmeRows() ensures IsPrefix(row.prefix) {
      assert row == Row("00000a", "L") || row == Row("00000b", "M");
    }
    forall rule | rule in AcmeRules() ensures OneLine(rule.hit.display) && OneLine(rule.hit.icon) {
      assert rule == AcmeRules()[0] || rule == AcmeRules()[1];
    }
  }

  lemma AcmeMatched(h: Hit)
    requires h in Matched(AcmeRows(), AcmeRules()).Values
    ensures h == Pair.Hit("Acme", "lamp") || h == Pair.Hit("Acme", "mobile")
  {
    AcmeHits();
    var row :| row in AcmeRows() && LastHit(AcmeRows(), AcmeRules(), row.prefix) == Some(h);
    assert row == Row("00000a", "L") || row == Row("00000b", "M");
  }

  lemma AcmeVendors()
    ensures |Displays(Matched(AcmeRows(), AcmeRules()).Values)| < 1296
  {
    var names := Displays(Matched(AcmeRows(), AcmeRules()).Values);
    forall d | d in names ensures d in {"Acme"} {
      var h :| h in Matched(AcmeRows(), AcmeRules()).Values && h.display == d;
      AcmeMatched(h);
    }
    SubsetSize(names, {"Acme"});
  }

  // Rules that give one display name two icons lose one: the table is built, and the second row is
  // answered with the icon of the first. No rule of the shipped list does so.
  method SecondIconIsLost() returns (built: bool, r: Option<Hit>)
    ensures WellFormedRows(AcmeRows()) && OneLineRules(AcmeRules())
    ensures LastHit(AcmeRows(), AcmeRules(), "00000b") == Some(Pair.Hit("Acme", "mobile"))
    ensures built && r == Some(Pair.Hit("Acme", "lamp"))
  {
    AcmeWellFormed();
    AcmeVendors();
    AcmeHits();
    built, r := Answer(AcmeRows(), AcmeRules(), "00000b");
    AcmeAnswered(r);
  }

  lemma AcmeAnswered(r: Option<Hit>)
    requires Answers(r, AcmeRows(), AcmeRules(), "00000b")
    ensures r == Some(Pair.Hit("Acme", "lamp"))
  {
    AcmeHits();
    AcmeIconLost();
    AcmeMatched(r.value);
  }
}
