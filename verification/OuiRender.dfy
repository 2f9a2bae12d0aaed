// The Lua source the OUI table is written to: escaped strings in two table constructors, read back
// by the rules for strings and fields in sections 2.1 and 2.5.7 of the Lua 5.1 Reference Manual.
module OuiRender {
  import opened Wrappers
  import opened SeqLaws
  import opened OuiTable

  const CHUNK: nat := 240
  const QUOTE := '"'
  const BACKSLASH := '\\'

  // ---------------------------------------------------------------- one string

  // str.replace(c, backslash + c)
  function Escaped(c: char, s: string): string {
    if s == "" then "" else (if s[0] == c then [BACKSLASH, c] else [s[0]]) + Escaped(c, s[1..])
  }

  function LuaString(value: string): string {
    [QUOTE] + (Escaped(QUOTE, Escaped(BACKSLASH, value)) + [QUOTE])
  }

  // The literal whose opening quote has been read, and what follows it. A raw line break is an
  // unfinished string; escapes other than the two generated ones are not read here.
  function ReadBody(s: string): (r: Option<(string, string)>)
    ensures r.Some? ==> |r.value.1| < |s|
  {
    if s == "" || s[0] == '\n' || s[0] == '\r' then None
    else if s[0] == QUOTE then Some(("", s[1..]))
    else if s[0] == BACKSLASH then
      if |s| >= 2 && (s[1] == BACKSLASH || s[1] == QUOTE) then Prefixed(s[1], ReadBody(s[2..])) else None
    else Prefixed(s[0], ReadBody(s[1..]))
  }

  function Prefixed(c: char, rest: Option<(string, string)>): Option<(string, string)> {
    match rest
    case None => None
    case Some((t, after)) => Some(([c] + t, after))
  }

  function ReadLua(s: string): (r: Option<(string, string)>)
    ensures r.Some? ==> |r.value.1| < |s|
  {
    if s != "" && s[0] == QUOTE then ReadBody(s[1..]) else None
  }

  // The two replacements, one character at a time.
  lemma EscapedCons(c: char, rest: string)
    ensures
      var tail := Escaped(QUOTE, Escaped(BACKSLASH, rest));
      Escaped(QUOTE, Escaped(BACKSLASH, [c] + rest))
      == (if c == BACKSLASH || c == QUOTE then [BACKSLASH, c] + tail else [c] + tail)
  {
    var inner := Escaped(BACKSLASH, rest);
    assert ([c] + rest)[1..] == rest;
    if c == BACKSLASH {
      assert Escaped(BACKSLASH, [c] + rest) == [BACKSLASH, BACKSLASH] + inner;
      assert ([BACKSLASH, BACKSLASH] + inner)[1..] == [BACKSLASH] + inner;
      assert ([BACKSLASH] + inner)[1..] == inner;
    } else {
      assert Escaped(BACKSLASH, [c] + rest) == [c] + inner;
      assert ([c] + inner)[1..] == inner;
    }
  }

  predicate OneLine(s: string) {
    '\n' !in s && '\r' !in s
  }

  function EscapedChar(c: char): string {
    if c == BACKSLASH || c == QUOTE then [BACKSLASH, c] else [c]
  }

  lemma ReadChar(c: char, tail: string)
    ensures ReadBody(EscapedChar(c) + tail) == if c == '\n' || c == '\r' then None else Prefixed(c, ReadBody(tail))
  {
    if c == BACKSLASH || c == QUOTE {
      assert (EscapedChar(c) + tail)[2..] == tail;
    } else {
      assert (EscapedChar(c) + tail)[1..] == tail;
    }
  }

  lemma EscapedFirst(c: char, rest: string, close: string)
    ensures
      var tail := Escaped(QUOTE, Escaped(BACKSLASH, rest));
      Escaped(QUOTE, Escaped(BACKSLASH, [c] + rest)) + close == EscapedChar(c) + (tail + close)
  {
    var tail := Escaped(QUOTE, Escaped(BACKSLASH, rest));
    EscapedCons(c, rest);
    Assoc(EscapedChar(c), tail, close);
  }

  lemma {:induction false} ReadEscaped(value: string, rest: string)
    ensures ReadBody(Escaped(QUOTE, Escaped(BACKSLASH, value)) + ([QUOTE] + rest))
         == if OneLine(value) then Some((value, rest)) else None
    decreases |value|
  {
    var close := [QUOTE] + rest;
    if value == "" {
      assert Escaped(QUOTE, Escaped(BACKSLASH, value)) + close == close && close[1..] == rest;
    } else {
      var c, later := value[0], value[1..];
      var tail := Escaped(QUOTE, Escaped(BACKSLASH, later));
      ReadEscaped(later, rest);
      assert value == [c] + later;
      EscapedFirst(c, later, close);
      ReadChar(c, tail + close);
      assert OneLine(value) <==> c != '\n' && c != '\r' && OneLine(later);
    }
  }

  // The text of a string literal: double quotes around it, a backslash before each of its double
  // quotes and backslashes.
  lemma LuaStringText(c: char, rest: string)
    ensures LuaString("") == "\"\""
    ensures LuaString([c] + rest) == "\"" + ((if c == '\"' || c == '\\' then ['\\', c] else [c]) + LuaString(rest)[1..])
  {
    EscapedCons(c, rest);
    assert LuaString(rest)[1..] == Escaped(QUOTE, Escaped(BACKSLASH, rest)) + [QUOTE];
    Assoc(EscapedChar(c), Escaped(QUOTE, Escaped(BACKSLASH, rest)), [QUOTE]);
  }


  // A rendered value reads back as itself, whatever follows, exactly when it has no line break.
  lemma LuaStringRoundTrip(value: string, rest: string)
    ensures ReadLua(LuaString(value) + rest) == if OneLine(value) then Some((value, rest)) else None
  {
    var escaped := Escaped(QUOTE, Escaped(BACKSLASH, value));
    ReadEscaped(value, rest);
    assert (LuaString(value) + rest)[1..] == escaped + ([QUOTE] + rest);
  }

  // ---------------------------------------------------------------- a list of strings

  predicate IsBlank(c: char) {
    c == ' ' || c == '\n' || c == '\t' || c == '\r'
  }

  function SkipBlanks(s: string): (r: string)
    ensures |r| <= |s|
  {
    if s != "" && IsBlank(s[0]) then SkipBlanks(s[1..]) else s
  }

  // The fields of a table constructor up to its closing brace, and what follows it.
  function ReadFields(s: string): (r: Option<(seq<string>, string)>)
    ensures r.Some? ==> |r.value.1| < |s|
    decreases |s|
  {
    var text := SkipBlanks(s);
    if text == "" then None
    else if text[0] == '}' then Some(([], text[1..]))
    else
      match ReadLua(text)
      case None => None
      case Some((value, after)) =>
        var rest := SkipBlanks(after);
        if rest == "" then None
        else if rest[0] == '}' then Some(([value], rest[1..]))
        else if rest[0] == ',' then
          match ReadFields(rest[1..])
          case None => None
          case Some((values, end)) => Some(([value] + values, end))
        else None
  }

  function Fields(values: seq<string>): string {
    if values == [] then ""
    else LuaString(values[0]) + ("," + ((if |values| == 1 then "" else " ") + Fields(values[1..])))
  }

  // One line for each group of strings, joined by newlines, and the closing brace.
  function Lines(groups: seq<seq<string>>): string {
    if groups == [] then "\n  }"
    else "  " + (Fields(groups[0]) + ((if |groups| == 1 then "" else "\n") + Lines(groups[1..])))
  }

  function Flat(groups: seq<seq<string>>): seq<string> {
    if groups == [] then [] else groups[0] + Flat(groups[1..])
  }

  lemma BlankSkipped(c: char, text: string)
    requires IsBlank(c)
    ensures ReadFields([c] + text) == ReadFields(text)
  {
    assert ([c] + text)[1..] == text;
  }

  lemma FieldReads(value: string, more: string, values: seq<string>, end: string)
    requires OneLine(value) && ReadFields(more) == Some((values, end))
    ensures ReadFields(LuaString(value) + ("," + more)) == Some(([value] + values, end))
  {
    var text, rest := LuaString(value) + ("," + more), "," + more;
    LuaStringRoundTrip(value, rest);
    assert text[0] == QUOTE && SkipBlanks(text) == text;
    assert SkipBlanks(rest) == rest && rest[1..] == more;
  }

  lemma Regroup(first: string, comma: string, gap: string, later: string, more: string)
    ensures first + (comma + (gap + later)) + more == first + (comma + (gap + (later + more)))
  {
    assert first + (comma + (gap + later)) + more == first + ((comma + (gap + later)) + more);
    assert (comma + (gap + later)) + more == comma + (gap + (later + more));
  }

  lemma GapSkipped(gap: string, text: string)
    requires gap == "" || gap == " "
    ensures ReadFields(gap + text) == ReadFields(text)
  {
    if gap == "" {
      assert gap + text == text;
    } else {
      BlankSkipped(' ', text);
    }
  }

  lemma NextFields(value: string, later: seq<string>, more: string) returns (rest: string)
    ensures Fields([value] + later) + more == LuaString(value) + ("," + rest)
    ensures ReadFields(rest) == ReadFields(Fields(later) + more)
  {
    var gap := if later == [] then "" else " ";
    assert ([value] + later)[1..] == later;
    Regroup(LuaString(value), ",", gap, Fields(later), more);
    GapSkipped(gap, Fields(later) + more);
    rest := gap + (Fields(later) + more);
  }

  lemma {:induction false} FieldsRead(group: seq<string>, more: string, values: seq<string>, end: string)
    requires (forall v | v in group :: OneLine(v)) && ReadFields(more) == Some((values, end))
    ensures ReadFields(Fields(group) + more) == Some((group + values, end))
    decreases |group|
  {
    if group == [] {
      assert Fields(group) + more == more && group + values == values;
    } else {
      var value, later := group[0], group[1..];
      assert value in group && forall v | v in later :: v in group;
      FieldsRead(later, more, values, end);
      var rest := NextFields(value, later, more);
      FieldReads(value, rest, later + values, end);
      ConsAppend(value, later, values);
      assert [value] + later == group;
    }
  }

  lemma TwoBlanks(text: string)
    ensures ReadFields("  " + text) == ReadFields(text)
  {
    BlankSkipped(' ', text);
    BlankSkipped(' ', " " + text);
    assert "  " + text == [' '] + (" " + text) && " " + text == [' '] + text;
  }

  lemma ClosingReads(rest: string)
    ensures ReadFields("\n  }" + rest) == Some(([], rest))
  {
    var brace := "}" + rest;
    TwoBlanks(brace);
    BlankSkipped('\n', "  " + brace);
    assert "\n  }" + rest == ['\n'] + ("  " + brace);
    assert SkipBlanks(brace) == brace && brace[1..] == rest;
  }


  // The rendered lines read back as their strings, in order.
  lemma {:induction false} LinesRead(groups: seq<seq<string>>, rest: string)
    requires forall g | g in groups :: forall v | v in g :: OneLine(v)
    ensures ReadFields(Lines(groups) + rest) == Some((Flat(groups), rest))
    decreases |groups|
  {
    if groups == [] {
      ClosingReads(rest);
    } else {
      var group, later := groups[0], groups[1..];
      assert group in groups && forall g | g in later :: g in groups;
      LinesRead(later, rest);
      var gap := if |groups| == 1 then "" else "\n";
      Regroup("  ", Fields(group), gap, Lines(later), rest);
      NewlineSkipped(gap, Lines(later) + rest);
      FieldsRead(group, gap + (Lines(later) + rest), Flat(later), rest);
      TwoBlanks(Fields(group) + (gap + (Lines(later) + rest)));
    }
  }

  lemma NewlineSkipped(gap: string, text: string)
    requires gap == "" || gap == "\n"
    ensures ReadFields(gap + text) == ReadFields(text)
  {
    if gap == "" {
      assert gap + text == text;
    } else {
      BlankSkipped('\n', text);
    }
  }

  // ---------------------------------------------------------------- the index

  function Chunks(s: string): (pieces: seq<string>)
    ensures forall p | p in pieces :: 0 < |p| <= CHUNK && forall c | c in p :: c in s
    decreases |s|
  {
    if |s| == 0 then []
    else if |s| <= CHUNK then [s]
    else [s[..CHUNK]] + Chunks(s[CHUNK..])
  }

  function Singles(values: seq<string>): seq<seq<string>> {
    seq(|values|, i requires 0 <= i < |values| => [values[i]])
  }

  // index = table.concat({ ... })
  function IndexText(index: string): string {
    "\n" + Lines(Singles(Chunks(index)))
  }

  function Concat(pieces: seq<string>): string {
    if pieces == [] then "" else pieces[0] + Concat(pieces[1..])
  }

  // The value of the index field: its pieces put together.
  function LoadIndex(text: string): Option<string> {
    match ReadFields(text)
    case Some((pieces, "")) => Some(Concat(pieces))
    case _ => None
  }

  lemma {:induction false} ChunksConcat(s: string)
    ensures Concat(Chunks(s)) == s
    decreases |s|
  {
    if 0 < |s| <= CHUNK {
      assert Concat([s]) == s + Concat([]) && s + "" == s;
    } else if |s| > CHUNK {
      ChunksConcat(s[CHUNK..]);
      assert ([s[..CHUNK]] + Chunks(s[CHUNK..]))[1..] == Chunks(s[CHUNK..]);
      assert s == s[..CHUNK] + s[CHUNK..];
    }
  }

  // The pieces are of 240 characters, the last one excepted.
  lemma {:induction false} ChunkAt(s: string, i: nat)
    requires i < |Chunks(s)|
    ensures 240 * i < |s| && Chunks(s)[i] == s[240 * i..if 240 * i + 240 <= |s| then 240 * i + 240 else |s|]
    decreases |s|
  {
    if |s| > CHUNK {
      assert Chunks(s)[1..] == Chunks(s[CHUNK..]);
      if i > 0 {
        ChunkAt(s[CHUNK..], i - 1);
        assert Chunks(s)[i] == Chunks(s[CHUNK..])[i - 1];
      }
    }
  }

  lemma {:induction false} FlatSingles(values: seq<string>)
    ensures Flat(Singles(values)) == values
    decreases |values|
  {
    if values != [] {
      FlatSingles(values[1..]);
      assert Singles(values)[1..] == Singles(values[1..]);
      assert Singles(values)[0] == [values[0]];
      assert values == [values[0]] + values[1..];
    }
  }

  // Loading the rendered index gives it back, character for character.
  lemma IndexRoundTrip(index: string)
    requires OneLine(index)
    ensures LoadIndex(IndexText(index)) == Some(index)
  {
    var groups := Singles(Chunks(index));
    forall g | g in groups ensures forall v | v in g :: OneLine(v) {
      var i :| 0 <= i < |groups| && groups[i] == g;
      assert Chunks(index)[i] in Chunks(index);
    }
    LinesRead(groups, "");
    assert Lines(groups) + "" == Lines(groups);
    BlankSkipped('\n', Lines(groups));
    assert "\n" + Lines(groups) == ['\n'] + Lines(groups);
    FlatSingles(Chunks(index));
    ChunksConcat(index);
  }

  // ---------------------------------------------------------------- the vendors

  function Pairs(vendors: seq<string>, icons: seq<string>): seq<seq<string>>
    requires |vendors| == |icons|
  {
    seq(|vendors|, i requires 0 <= i < |vendors| => [vendors[i], icons[i]])
  }

  // vendors = { ... }
  function VendorsText(vendors: seq<string>, icons: seq<string>): string
    requires |vendors| == |icons|
  {
    "\n" + Lines(Pairs(vendors, icons))
  }

  function LoadVendors(text: string): Option<seq<string>> {
    match ReadFields(text)
    case Some((values, "")) => Some(values)
    case _ => None
  }

  // vendor_at: two list entries for each slot, counted from 1.
  function VendorAt(flat: seq<string>, slot: nat): Option<Hit> {
    if 1 <= slot && 2 * slot <= |flat| then Some(Pair.Hit(flat[2 * slot - 2], flat[2 * slot - 1])) else None
  }

  lemma {:induction false} FlatPairs(vendors: seq<string>, icons: seq<string>, slot: nat)
    requires |vendors| == |icons|
    ensures |Flat(Pairs(vendors, icons))| == 2 * |vendors|
    ensures 1 <= slot <= |vendors| ==>
      VendorAt(Flat(Pairs(vendors, icons)), slot) == Some(Pair.Hit(vendors[slot - 1], icons[slot - 1]))
    decreases |vendors|
  {
    if vendors != [] {
      var later := Flat(Pairs(vendors[1..], icons[1..]));
      FlatPairs(vendors[1..], icons[1..], if slot > 1 then slot - 1 else 0);
      assert Pairs(vendors, icons)[1..] == Pairs(vendors[1..], icons[1..]);
      assert Pairs(vendors, icons)[0] == [vendors[0], icons[0]];
      var flat := [vendors[0], icons[0]] + later;
      assert Flat(Pairs(vendors, icons)) == flat;
      if 1 < slot <= |vendors| {
        assert flat[2 * slot - 2] == later[2 * slot - 4] && flat[2 * slot - 1] == later[2 * slot - 3];
      }
    }
  }

  // Loading the rendered vendors gives every slot its display name and icon.
  lemma VendorsRoundTrip(vendors: seq<string>, icons: seq<string>)
    requires |vendors| == |icons| && (forall v | v in vendors :: OneLine(v)) && (forall i | i in icons :: OneLine(i))
    ensures LoadVendors(VendorsText(vendors, icons)) == Some(Flat(Pairs(vendors, icons)))
  {
    var groups := Pairs(vendors, icons);
    forall g | g in groups ensures forall v | v in g :: OneLine(v) {
      var i :| 0 <= i < |groups| && groups[i] == g;
      assert vendors[i] in vendors && icons[i] in icons;
    }
    LinesRead(groups, "");
    assert Lines(groups) + "" == Lines(groups);
    BlankSkipped('\n', Lines(groups));
    assert "\n" + Lines(groups) == ['\n'] + Lines(groups);
  }
}
