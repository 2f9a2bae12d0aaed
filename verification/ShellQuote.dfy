// Shell words: Python's shlex.quote, and the tokenizer of POSIX.1-2017, Shell Command Language,
// sections 2.2 (quoting) and 2.3 (token recognition), for one simple command without expansions.
module ShellQuote {
  import opened Wrappers
  import opened Profiles

  const APOSTROPHE := '\''
  const DOUBLE := '"'
  const BACKSLASH := '\\'

  // ---------------------------------------------------------------- shlex.quote

  predicate IsSafeChar(c: char) {
    IsWordChar(c) || c == '@' || c == '%' || c == '+' || c == '=' || c == ':' || c == ',' || c == '.' || c == '/' || c == '-'
  }

  predicate IsSafe(s: string) {
    forall c | c in s :: IsSafeChar(c)
  }

  // Every apostrophe becomes: close the quotes, an apostrophe in double quotes, open them again.
  function Escaped(s: string): string {
    if s == "" then ""
    else (if s[0] == APOSTROPHE then "'\"'\"'" else [s[0]]) + Escaped(s[1..])
  }

  function Quote(s: string): string {
    if s == "" then "''" else if IsSafe(s) then s else "'" + Escaped(s) + "'"
  }

  // ---------------------------------------------------------------- token recognition

  datatype Quoting = Bare | InSingle | InDouble

  predicate IsBlank(c: char) {
    c == ' ' || c == '\t'
  }

  // Unquoted, these end the word or start an operator, an expansion, a pattern or a comment.
  predicate IsSpecial(c: char) {
    || c == '\n' || c == '|' || c == '&' || c == ';' || c == '<' || c == '>' || c == '(' || c == ')'
    || c == '$' || c == '`' || c == '*' || c == '?' || c == '[' || c == '#' || c == '~'
  }

  // What a backslash escapes inside double quotes, apart from a newline.
  predicate IsEscapable(c: char) {
    c == '$' || c == '`' || c == DOUBLE || c == BACKSLASH
  }

  // The words from text on, given the word so far if one has started. None: an unterminated quote,
  // or something that is not a plain word.
  function Lex(text: string, quoting: Quoting, started: bool, word: string): Option<seq<string>>
    decreases |text|
  {
    if text == "" then
      if quoting != Bare then None else Some(if started then [word] else [])
    else
      var c := text[0];
      match quoting
      case InSingle =>
        if c == APOSTROPHE then Lex(text[1..], Bare, true, word) else Lex(text[1..], InSingle, true, word + [c])
      case InDouble =>
        if c == DOUBLE then Lex(text[1..], Bare, true, word)
        else if c == '$' || c == '`' then None
        else if c == BACKSLASH && |text| > 1 && IsEscapable(text[1]) then Lex(text[2..], InDouble, true, word + [text[1]])
        else if c == BACKSLASH && |text| > 1 && text[1] == '\n' then Lex(text[2..], InDouble, true, word)
        else Lex(text[1..], InDouble, true, word + [c])
      case Bare =>
        if IsBlank(c) then
          if started then
            match Lex(text[1..], Bare, false, "")
            case None => None
            case Some(words) => Some([word] + words)
          else Lex(text[1..], Bare, false, "")
        else if c == APOSTROPHE then Lex(text[1..], InSingle, true, word)
        else if c == DOUBLE then Lex(text[1..], InDouble, true, word)
        else if c == BACKSLASH then
          if |text| == 1 then None
          else if text[1] == '\n' then Lex(text[2..], Bare, started, word)
          else Lex(text[2..], Bare, true, word + [text[1]])
        else if IsSpecial(c) then None
        else Lex(text[1..], Bare, true, word + [c])
  }

  function Words(text: string): Option<seq<string>> {
    Lex(text, Bare, false, "")
  }

  // ---------------------------------------------------------------- what a quoted string reads as

  lemma SafeCharReads(text: string, started: bool, word: string)
    requires text != "" && IsSafeChar(text[0])
    ensures Lex(text, Bare, started, word) == Lex(text[1..], Bare, true, word + [text[0]])
  {
  }

  lemma {:induction false} SafeReads(s: string, rest: string, started: bool, word: string)
    requires s != "" && IsSafe(s)
    ensures Lex(s + rest, Bare, started, word) == Lex(rest, Bare, true, word + s)
    decreases |s|
  {
    var text := s + rest;
    assert s[0] in s && text[0] == s[0] && text[1..] == s[1..] + rest;
    SafeCharReads(text, started, word);
    assert word + s == (word + [s[0]]) + s[1..];
    if |s| == 1 {
      assert text[1..] == rest && word + s == word + [s[0]];
    } else {
      assert forall c | c in s[1..] :: c in s;
      SafeReads(s[1..], rest, true, word + [s[0]]);
    }
  }

  // Inside the quotes, an escaped apostrophe comes back as one apostrophe.
  lemma ApostropheReads(rest: string, word: string)
    ensures Lex("'\"'\"'" + rest, InSingle, true, word) == Lex(rest, InSingle, true, word + "'")
  {
    var t0 := "'\"'\"'" + rest;
    var t1, t2, t3, t4 := "\"'\"'" + rest, "'\"'" + rest, "\"'" + rest, "'" + rest;
    assert t0[1..] == t1 && t1[1..] == t2 && t2[1..] == t3 && t3[1..] == t4 && t4[1..] == rest;
    assert Lex(t0, InSingle, true, word) == Lex(t1, Bare, true, word);
    assert Lex(t1, Bare, true, word) == Lex(t2, InDouble, true, word);
    assert Lex(t2, InDouble, true, word) == Lex(t3, InDouble, true, word + "'");
    assert Lex(t3, InDouble, true, word + "'") == Lex(t4, Bare, true, word + "'");
  }

  lemma PlainCharReads(c: char, tail: string, word: string)
    requires c != APOSTROPHE
    ensures Lex([c] + tail, InSingle, true, word) == Lex(tail, InSingle, true, word + [c])
  {
    assert ([c] + tail)[1..] == tail;
  }

  lemma {:induction false} EscapedReads(s: string, rest: string, word: string)
    ensures Lex(Escaped(s) + "'" + rest, InSingle, true, word) == Lex(rest, Bare, true, word + s)
    decreases |s|
  {
    if s == "" {
      assert Escaped(s) + "'" + rest == "'" + rest && ("'" + rest)[1..] == rest && word + s == word;
    } else {
      var tail := Escaped(s[1..]) + "'" + rest;
      EscapedReads(s[1..], rest, word + [s[0]]);
      assert word + s == (word + [s[0]]) + s[1..];
      if s[0] == APOSTROPHE {
        assert Escaped(s) + "'" + rest == "'\"'\"'" + tail;
        ApostropheReads(tail, word);
      } else {
        assert Escaped(s) + "'" + rest == [s[0]] + tail;
        PlainCharReads(s[0], tail, word);
      }
    }
  }

  // Wherever a quoted string stands in a word, it adds exactly the string to the word.
  lemma QuoteReads(s: string, rest: string, started: bool, word: string)
    ensures Lex(Quote(s) + rest, Bare, started, word) == Lex(rest, Bare, true, word + s)
  {
    if s != "" && IsSafe(s) {
      SafeReads(s, rest, started, word);
    } else {
      var tail := Escaped(s) + "'" + rest;
      assert Quote(s) + rest == "'" + tail && ("'" + tail)[1..] == tail;
      EscapedReads(s, rest, word);
    }
  }

  // ---------------------------------------------------------------- command lines

  // A word of a command: fixed text, or a fixed prefix before a quoted value.
  datatype Word = Fixed(text: string) | Value(prefix: string, value: string) {
    predicate Valid() {
      if Fixed? then text != "" && IsSafe(text) else IsSafe(prefix)
    }

    function Text(): string {
      if Fixed? then text else prefix + Quote(value)
    }

    function Meaning(): string {
      if Fixed? then text else prefix + value
    }
  }

  function Line(words: seq<Word>): string {
    if words == [] then ""
    else if |words| == 1 then words[0].Text()
    else words[0].Text() + " " + Line(words[1..])
  }

  function Meanings(words: seq<Word>): seq<string> {
    if words == [] then [] else [words[0].Meaning()] + Meanings(words[1..])
  }

  lemma WordReads(w: Word, rest: string)
    requires w.Valid()
    ensures Lex(w.Text() + rest, Bare, false, "") == Lex(rest, Bare, true, w.Meaning())
  {
    if w.Fixed? {
      SafeReads(w.text, rest, false, "");
      assert "" + w.text == w.text;
    } else {
      var tail := Quote(w.value) + rest;
      assert w.Text() + rest == w.prefix + tail;
      if w.prefix == "" {
        assert w.prefix + tail == tail;
        QuoteReads(w.value, rest, false, "");
      } else {
        SafeReads(w.prefix, tail, false, "");
        assert "" + w.prefix == w.prefix;
        QuoteReads(w.value, rest, true, w.prefix);
      }
      assert "" + w.value == w.value;
    }
  }

  lemma LastWordReads(w: Word)
    requires w.Valid()
    ensures Words(w.Text()) == Some([w.Meaning()])
  {
    WordReads(w, "");
    assert w.Text() + "" == w.Text();
    assert Lex("", Bare, true, w.Meaning()) == Some([w.Meaning()]);
  }

  lemma BlankReads(text: string, word: string, words: seq<string>)
    requires Words(text) == Some(words)
    ensures Lex(" " + text, Bare, true, word) == Some([word] + words)
  {
    assert (" " + text)[1..] == text;
  }

  lemma NextWordReads(w: Word, text: string, words: seq<string>)
    requires w.Valid() && Words(text) == Some(words)
    ensures Words(w.Text() + " " + text) == Some([w.Meaning()] + words)
  {
    var rest := " " + text;
    WordReads(w, rest);
    assert w.Text() + rest == w.Text() + " " + text;
    BlankReads(text, w.Meaning(), words);
  }

  lemma FixedReads(text: string, line: string, words: seq<string>)
    requires text != "" && IsSafe(text) && Words(line) == Some(words)
    ensures Words(text + " " + line) == Some([text] + words)
  {
    NextWordReads(Fixed(text), line, words);
  }

  lemma QuotedReads(value: string)
    ensures Words(Quote(value)) == Some([value])
  {
    LastWordReads(Value("", value));
    assert "" + Quote(value) == Quote(value) && "" + value == value;
  }

  lemma QuotedNextReads(prefix: string, value: string, line: string, words: seq<string>)
    requires IsSafe(prefix) && Words(line) == Some(words)
    ensures Words(prefix + Quote(value) + " " + line) == Some([prefix + value] + words)
  {
    NextWordReads(Value(prefix, value), line, words);
  }

  // A line of safe words and quoted values reads back as one word for each, whatever the values.
  lemma {:induction false} LineReads(words: seq<Word>)
    requires forall w | w in words :: w.Valid()
    ensures Words(Line(words)) == Some(Meanings(words))
    decreases |words|
  {
    if words != [] {
      if |words| == 1 {
        LastWordReads(words[0]);
        assert Meanings(words[1..]) == [] && [words[0].Meaning()] + [] == [words[0].Meaning()];
      } else {
        assert forall v | v in words[1..] :: v in words;
        LineReads(words[1..]);
        NextWordReads(words[0], Line(words[1..]), Meanings(words[1..]));
      }
    }
  }
}
