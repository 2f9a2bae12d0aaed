// JSON text without insignificant white space: a printer that does not escape, as the target file
// is written, and a reader after sections 4, 5 and 7 of RFC 8259.
module JsonText {
  import opened Wrappers
  import opened SeqLaws
  import opened JsonTree

  const QUOTE := '"'
  const BACKSLASH := '\\'

  // ---------------------------------------------------------------- the printer

  function Print(j: Json): string
    requires Plain(j)
  {
    match j
    case Str(s) => Quoted(s)
    case Arr(items) => "[" + PrintItems(items)
    case Obj(fields) => "{" + PrintFields(fields)
  }

  function Quoted(s: string): string {
    "\"" + (s + "\"")
  }

  // A key with its colon and value, before the rest of the object.
  function Member(key: string, value: string, rest: string): string {
    Quoted(key) + (":" + (value + rest))
  }

  // The elements and the closing bracket.
  function PrintItems(items: seq<Json>): string
    requires PlainItems(items)
  {
    if items == [] then "]"
    else Print(items[0]) + if |items| == 1 then "]" else "," + PrintItems(items[1..])
  }

  function PrintFields(fields: seq<Entry>): string
    requires PlainFields(fields)
  {
    if fields == [] then "}"
    else
      Member(fields[0].key, Print(fields[0].value), if |fields| == 1 then "}" else "," + PrintFields(fields[1..]))
  }

  // Section 7: the characters a string may hold unescaped.
  predicate PlainText(s: string) {
    forall c | c in s :: c != QUOTE && c != BACKSLASH && c as int >= 0x20
  }

  predicate Plain(j: Json) {
    match j
    case Str(s) => PlainText(s)
    case Arr(items) => PlainItems(items)
    case Obj(fields) => PlainFields(fields)
    case _ => false
  }

  predicate PlainItems(items: seq<Json>) {
    items == [] || (Plain(items[0]) && PlainItems(items[1..]))
  }

  predicate PlainFields(fields: seq<Entry>) {
    fields == [] || (PlainText(fields[0].key) && Plain(fields[0].value) && PlainFields(fields[1..]))
  }

  // ---------------------------------------------------------------- the reader

  function Unescaped(c: char): Option<char> {
    match c
    case '"' => Some('"')
    case '\\' => Some('\\')
    case '/' => Some('/')
    case 'b' => Some(8 as char)
    case 'f' => Some(12 as char)
    case 'n' => Some('\n')
    case 'r' => Some('\r')
    case 't' => Some('\t')
    case _ => None
  }

  // The string whose opening quote has been read; escapes of the form backslash u are not read.
  function ReadString(text: string, sofar: string): (r: Option<(string, string)>)
    ensures r.Some? ==> |r.value.1| < |text|
    decreases |text|
  {
    if text == "" || text[0] as int < 0x20 then None
    else if text[0] == QUOTE then Some((sofar, text[1..]))
    else if text[0] == BACKSLASH then
      if |text| == 1 || Unescaped(text[1]).None? then None
      else ReadString(text[2..], sofar + [Unescaped(text[1]).value])
    else ReadString(text[1..], sofar + [text[0]])
  }

  function Read(text: string): (r: Option<(Json, string)>)
    ensures r.Some? ==> |r.value.1| < |text|
    decreases |text|, 0
  {
    if text == "" then None
    else if text[0] == QUOTE then
      match ReadString(text[1..], "")
      case None => None
      case Some((s, rest)) => Some((Str(s), rest))
    else if text[0] == '[' then
      match ReadItems(text[1..], true)
      case None => None
      case Some((items, rest)) => Some((Arr(items), rest))
    else if text[0] == '{' then
      match ReadFields(text[1..], true)
      case None => None
      case Some((fields, rest)) => Some((Obj(fields), rest))
    else None
  }

  // The elements up to the closing bracket; it may come at once only right after the opening one.
  function ReadItems(text: string, atStart: bool): (r: Option<(seq<Json>, string)>)
    ensures r.Some? ==> |r.value.1| < |text|
    decreases |text|, 1
  {
    if atStart && text != "" && text[0] == ']' then Some(([], text[1..]))
    else
      match Read(text)
      case None => None
      case Some((j, rest)) =>
        if rest == "" then None
        else if rest[0] == ']' then Some(([j], rest[1..]))
        else if rest[0] == ',' then
          match ReadItems(rest[1..], false)
          case None => None
          case Some((items, rest')) => Some(([j] + items, rest'))
        else None
  }

  function ReadFields(text: string, atStart: bool): (r: Option<(seq<Entry>, string)>)
    ensures r.Some? ==> |r.value.1| < |text|
    decreases |text|, 1
  {
    if atStart && text != "" && text[0] == '}' then Some(([], text[1..]))
    else if text == "" || text[0] != QUOTE then None
    else
      match ReadString(text[1..], "")
      case None => None
      case Some((key, colon)) =>
        if colon == "" || colon[0] != ':' then None
        else
          match Read(colon[1..])
          case None => None
          case Some((j, rest)) =>
            if rest == "" then None
            else if rest[0] == '}' then Some(([Entry(key, j)], rest[1..]))
            else if rest[0] == ',' then
              match ReadFields(rest[1..], false)
              case None => None
              case Some((fields, rest')) => Some(([Entry(key, j)] + fields, rest'))
            else None
  }

  // ---------------------------------------------------------------- round trip

  lemma {:induction false} StringReads(s: string, rest: string, sofar: string)
    requires PlainText(s)
    ensures ReadString(s + "\"" + rest, sofar) == Some((sofar + s, rest))
    decreases |s|
  {
    var text := s + "\"" + rest;
    if s == "" {
      assert text == "\"" + rest && text[1..] == rest && sofar + s == sofar;
    } else {
      assert s[0] in s && forall c | c in s[1..] :: c in s;
      StringReads(s[1..], rest, sofar + [s[0]]);
      assert text[1..] == s[1..] + "\"" + rest;
      assert sofar + s == sofar + [s[0]] + s[1..];
    }
  }

  lemma QuotedReads(s: string, rest: string)
    requires PlainText(s)
    ensures ReadString((Quoted(s) + rest)[1..], "") == Some((s, rest)) && Quoted(s)[0] == QUOTE
  {
    StringReads(s, rest, "");
    assert (Quoted(s) + rest)[1..] == s + "\"" + rest && "" + s == s;
  }

  // Every value with plain strings reads back, whatever follows it.
  lemma {:induction false} PrintReads(j: Json, rest: string)
    requires Plain(j)
    ensures Read(Print(j) + rest) == Some((j, rest))
    decreases j, 0
  {
    var text := Print(j) + rest;
    match j
    case Str(s) =>
      QuotedReads(s, rest);
    case Arr(items) =>
      ItemsRead(items, rest, true);
      assert text[1..] == PrintItems(items) + rest;
    case Obj(fields) =>
      FieldsRead(fields, rest, true);
      assert text[1..] == PrintFields(fields) + rest;
  }

  lemma PrintStarts(j: Json)
    requires Plain(j)
    ensures Print(j) != "" && Print(j)[0] != ']'
  {
  }

  lemma LastItemReads(text: string, atStart: bool, j: Json, after: string)
    requires text != "" && text[0] != ']' && Read(text) == Some((j, after)) && after != "" && after[0] == ']'
    ensures ReadItems(text, atStart) == Some(([j], after[1..]))
  {
  }

  lemma NextItemReads(text: string, atStart: bool, j: Json, after: string, items: seq<Json>, rest: string)
    requires text != "" && text[0] != ']' && Read(text) == Some((j, after)) && after != "" && after[0] == ','
    requires ReadItems(after[1..], false) == Some((items, rest))
    ensures ReadItems(text, atStart) == Some(([j] + items, rest))
  {
  }

  lemma {:induction false} ItemsRead(items: seq<Json>, rest: string, atStart: bool)
    requires PlainItems(items) && (items == [] ==> atStart)
    ensures ReadItems(PrintItems(items) + rest, atStart) == Some((items, rest))
    decreases items, 1
  {
    var text := PrintItems(items) + rest;
    if items == [] {
      assert text[1..] == rest;
    } else {
      var first := Print(items[0]);
      PrintStarts(items[0]);
      if |items| == 1 {
        var after := "]" + rest;
        Assoc(first, "]", rest);
        assert after[1..] == rest;
        PrintReads(items[0], after);
        LastItemReads(text, atStart, items[0], after);
        assert items == [items[0]];
      } else {
        var later := PrintItems(items[1..]);
        var after := "," + later + rest;
        Assoc(first, "," + later, rest);
        assert after[1..] == later + rest;
        PrintReads(items[0], after);
        ItemsRead(items[1..], rest, false);
        NextItemReads(text, atStart, items[0], after, items[1..], rest);
        assert items == [items[0]] + items[1..];
      }
    }
  }

  // A key, its colon and its value, before the rest of the object.
  predicate FieldStarts(text: string, key: string, j: Json, after: string) {
    && text != "" && text[0] == QUOTE
    && var r := ReadString(text[1..], "");
       r.Some? && r.value.0 == key && r.value.1 != "" && r.value.1[0] == ':' && Read(r.value.1[1..]) == Some((j, after))
  }

  lemma LastFieldReads(text: string, atStart: bool, key: string, j: Json, after: string)
    requires FieldStarts(text, key, j, after) && after != "" && after[0] == '}'
    ensures ReadFields(text, atStart) == Some(([Entry(key, j)], after[1..]))
  {
  }

  lemma NextFieldReads(text: string, atStart: bool, key: string, j: Json, after: string, fields: seq<Entry>, rest: string)
    requires FieldStarts(text, key, j, after) && after != "" && after[0] == ','
    requires ReadFields(after[1..], false) == Some((fields, rest))
    ensures ReadFields(text, atStart) == Some(([Entry(key, j)] + fields, rest))
  {
  }

  lemma MemberText(key: string, value: string, tail: string, rest: string)
    ensures Member(key, value, tail) + rest == Member(key, value, tail + rest)
    ensures Member(key, value, tail) == Quoted(key) + (":" + (value + tail))
  {
    assert (":" + (value + tail)) + rest == ":" + (value + (tail + rest));
    assert Quoted(key) + (":" + (value + tail)) + rest == Quoted(key) + ((":" + (value + tail)) + rest);
  }

  lemma {:induction false} FieldReads(key: string, j: Json, after: string)
    requires PlainText(key) && Plain(j)
    ensures FieldStarts(Member(key, Print(j), after), key, j, after)
    decreases j, 1
  {
    var colon := ":" + (Print(j) + after);
    QuotedReads(key, colon);
    assert colon[1..] == Print(j) + after;
    PrintReads(j, after);
  }

  lemma {:induction false} FieldsRead(fields: seq<Entry>, rest: string, atStart: bool)
    requires PlainFields(fields) && (fields == [] ==> atStart)
    ensures ReadFields(PrintFields(fields) + rest, atStart) == Some((fields, rest))
    decreases fields, 2
  {
    var text := PrintFields(fields) + rest;
    if fields == [] {
      assert text[1..] == rest;
    } else {
      var key, value := fields[0].key, fields[0].value;
      assert Entry(key, value) == fields[0];
      if |fields| == 1 {
        var after := "}" + rest;
        assert after[1..] == rest;
        MemberText(key, Print(value), "}", rest);
        FieldReads(key, value, after);
        LastFieldReads(text, atStart, key, value, after);
        assert fields == [fields[0]];
      } else {
        var after := "," + (PrintFields(fields[1..]) + rest);
        assert after[1..] == PrintFields(fields[1..]) + rest;
        MemberText(key, Print(value), "," + PrintFields(fields[1..]), rest);
        assert "," + PrintFields(fields[1..]) + rest == after;
        FieldReads(key, value, after);
        FieldsRead(fields[1..], rest, false);
        NextFieldReads(text, atStart, key, value, after, fields[1..], rest);
        assert fields == [fields[0]] + fields[1..];
      }
    }
  }
}
