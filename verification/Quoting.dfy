/**
 Quoting for command lines, with the readers it is meant for: the POSIX shell's reading of
 a word, and the way a batch shim's line is cut at blanks outside quotes that toggle.
 */
module Quoting {
  import opened Whitespace
  import opened Wrappers

  // ---------------------------------------------------------------- the POSIX shell

  function ReplaceQuotes(s: string): string {
    if s == "" then "" else (if s[0] == '\'' then "'\\''" else [s[0]]) + ReplaceQuotes(s[1..])
  }

  /** `shellQuote` */
  function ShellQuote(value: string): string {
    "'" + ReplaceQuotes(value) + "'"
  }

  /** Characters that end a word or mean something of their own when they stand unquoted. */
  predicate ShellSpecial(c: char) {
    c in "|&;<>()$`\"*?[#~=%!{}" || Delimits(c)
  }

  predicate Delimits(c: char) {
    c == ' ' || c == '\t' || c == '\n'
  }

  datatype Word = Word(text: string, rest: string)

  /**
   One word by section 2.2 of the POSIX.1-2017 Shell Command Language, as far as quotes go:
   a backslash keeps the next character, single quotes keep everything up to the next one.
   A special character outside quotes is refused, an unclosed quote too.
   */
  function ReadWord(s: string, quoted: bool): Option<Word>
    decreases |s|
  {
    if s == "" then (if quoted then None else Some(Word("", "")))
    else if quoted then
      if s[0] == '\'' then ReadWord(s[1..], false) else Prepend(s[0], ReadWord(s[1..], true))
    else if s[0] == '\'' then ReadWord(s[1..], true)
    else if s[0] == '\\' then
      if |s| == 1 then None
      else if s[1] == '\n' then ReadWord(s[2..], false)
      else Prepend(s[1], ReadWord(s[2..], false))
    else if Delimits(s[0]) then Some(Word("", s))
    else if ShellSpecial(s[0]) then None
    else Prepend(s[0], ReadWord(s[1..], false))
  }

  function Prepend(c: char, w: Option<Word>): Option<Word> {
    if w.None? then None else Some(w.value.(text := [c] + w.value.text))
  }

  /** Close, escaped quote, open: one quote character. */
  lemma EscapedQuoteIsRead(tail: string)
    ensures ReadWord("'\\''" + tail, true) == Prepend('\'', ReadWord(tail, true))
  {
    var a, b, c := "'\\''" + tail, "\\''" + tail, "'" + tail;
    assert a[1..] == b && b[2..] == c && c[1..] == tail;
    assert ReadWord(c, false) == ReadWord(tail, true);
    assert ReadWord(b, false) == Prepend('\'', ReadWord(c, false));
  }

  /** Inside the quotes: the escaped value is read back up to the closing quote. */
  lemma {:induction false} QuotedIsRead(value: string, rest: string)
    requires rest == "" || Delimits(rest[0])
    ensures ReadWord(ReplaceQuotes(value) + "'" + rest, true) == Some(Word(value, rest))
    decreases |value|
  {
    if value == "" {
      assert ReplaceQuotes(value) + "'" + rest == "'" + rest && ("'" + rest)[1..] == rest;
    } else {
      QuotedIsRead(value[1..], rest);
      var tail := ReplaceQuotes(value[1..]) + "'" + rest;
      var s := ReplaceQuotes(value) + "'" + rest;
      assert value == [value[0]] + value[1..];
      if value[0] == '\'' {
        EscapedQuoteIsRead(tail);
        assert s == "'\\''" + tail;
      } else {
        OrdinaryIsRead(value[0], tail);
        assert s == [value[0]] + tail;
      }
    }
  }

  lemma OrdinaryIsRead(c: char, tail: string)
    requires c != '\''
    ensures ReadWord([c] + tail, true) == Prepend(c, ReadWord(tail, true))
  {
    assert ([c] + tail)[1..] == tail;
  }

  /** A quoted value is one word, and the word is the value, whatever the value is. */
  lemma ShellReadsBack(value: string, rest: string)
    requires rest == "" || Delimits(rest[0])
    ensures ReadWord(ShellQuote(value) + rest, false) == Some(Word(value, rest))
  {
    var s := ShellQuote(value) + rest;
    assert s[1..] == ReplaceQuotes(value) + "'" + rest;
    QuotedIsRead(value, rest);
  }

  // ---------------------------------------------------------------- cmd

  predicate Unquotable(c: char) {
    c == '"' || c == '\r' || c == '\n'
  }

  predicate Meta(c: char) {
    c == '&' || c == '|' || c == '<' || c == '>' || c == '^' || c == '(' || c == ')'
  }

  predicate Carries(token: string) {
    forall i | 0 <= i < |token| :: !Unquotable(token[i])
  }

  predicate Plain(token: string) {
    token != "" && forall i | 0 <= i < |token| :: !Blank(token[i]) && !Meta(token[i])
  }

  /** `quoteCmdToken`; the error names the token no batch file can carry. */
  function QuoteCmdToken(token: string): Result<string, string> {
    if !Carries(token) then Err(token)
    else Ok(if Plain(token) then token else "\"" + token + "\"")
  }

  function QuoteAll(tokens: seq<string>): Result<string, string> {
    if tokens == [] then Ok("")
    else
      var first := QuoteCmdToken(tokens[0]);
      var rest := QuoteAll(tokens[1..]);
      if first.Err? then first
      else if rest.Err? then rest
      else Ok(if |tokens| == 1 then first.value else first.value + " " + rest.value)
  }

  /** `buildCmdCommandLine` */
  function BuildCmdCommandLine(command: string, args: seq<string>): Result<string, string> {
    var line := QuoteAll([command] + args);
    if line.Err? then line else Ok("\"" + line.value + "\"")
  }

  /** `cmd.exe /s` takes off exactly one outer pair. */
  function StripOuter(line: string): string
    requires |line| >= 2
  {
    line[1..|line| - 1]
  }

  /** The line cut at blanks outside quotes; `current` is the token begun, if one is. */
  function CutLine(s: string, quoted: bool, current: Option<string>): seq<string>
    decreases |s|
  {
    if s == "" then (if current.Some? then [current.value] else [])
    else if s[0] == '"' then CutLine(s[1..], !quoted, Some(OrNothing(current)))
    else if !quoted && Blank(s[0]) then (if current.Some? then [current.value] else []) + CutLine(s[1..], quoted, None)
    else CutLine(s[1..], quoted, Some(OrNothing(current) + [s[0]]))
  }

  function OrNothing(current: Option<string>): string {
    if current.Some? then current.value else ""
  }

  /** No metacharacter stands where the quoting state is off. */
  predicate MetaOnlyQuoted(s: string, quoted: bool) {
    s == "" || if s[0] == '"' then MetaOnlyQuoted(s[1..], !quoted) else (quoted || !Meta(s[0])) && MetaOnlyQuoted(s[1..], quoted)
  }

  /** Characters that neither toggle nor separate are taken up one by one. */
  lemma {:induction false} TextIsTaken(text: string, rest: string, quoted: bool, current: string)
    requires forall i | 0 <= i < |text| :: text[i] != '"' && (quoted || (!Blank(text[i]) && !Meta(text[i])))
    ensures CutLine(text + rest, quoted, Some(current)) == CutLine(rest, quoted, Some(current + text))
    ensures MetaOnlyQuoted(text + rest, quoted) == MetaOnlyQuoted(rest, quoted)
    decreases |text|
  {
    if text == "" {
      assert text + rest == rest && current + text == current;
    } else {
      assert (text + rest)[1..] == text[1..] + rest;
      assert current + [text[0]] + text[1..] == current + text;
      TextIsTaken(text[1..], rest, quoted, current + [text[0]]);
    }
  }

  lemma PlainIsTaken(token: string, rest: string)
    requires Carries(token) && Plain(token)
    ensures CutLine(token + rest, false, None) == CutLine(rest, false, Some(token))
    ensures MetaOnlyQuoted(token + rest, false) == MetaOnlyQuoted(rest, false)
  {
    var s, tail := token + rest, token[1..] + rest;
    assert s[1..] == tail;
    TextIsTaken(token[1..], rest, false, [token[0]]);
    assert [token[0]] + token[1..] == token && "" + [token[0]] == [token[0]];
  }

  lemma QuotedIsTaken(token: string, rest: string)
    requires Carries(token)
    ensures CutLine("\"" + token + "\"" + rest, false, None) == CutLine(rest, false, Some(token))
    ensures MetaOnlyQuoted("\"" + token + "\"" + rest, false) == MetaOnlyQuoted(rest, false)
  {
    var closing := "\"" + rest;
    var s, inner := "\"" + token + "\"" + rest, token + closing;
    assert s[1..] == inner && closing[1..] == rest;
    TextIsTaken(token, closing, true, "");
    assert "" + token == token;
  }

  /** One quoted token in front of the rest of the line is one token read. */
  lemma TokenIsTaken(token: string, rest: string)
    requires Carries(token)
    ensures CutLine(QuoteCmdToken(token).value + rest, false, None) == CutLine(rest, false, Some(token))
    ensures MetaOnlyQuoted(QuoteCmdToken(token).value + rest, false) == MetaOnlyQuoted(rest, false)
  {
    if Plain(token) {
      PlainIsTaken(token, rest);
    } else {
      QuotedIsTaken(token, rest);
    }
  }

  lemma {:induction false} LineIsCut(tokens: seq<string>)
    requires tokens != [] && forall k | 0 <= k < |tokens| :: Carries(tokens[k])
    ensures QuoteAll(tokens).Ok?
    ensures CutLine(QuoteAll(tokens).value, false, None) == tokens
    ensures MetaOnlyQuoted(QuoteAll(tokens).value, false)
  {
    if |tokens| == 1 {
      TokenIsTaken(tokens[0], "");
      assert QuoteCmdToken(tokens[0]).value + "" == QuoteCmdToken(tokens[0]).value;
    } else {
      LineIsCut(tokens[1..]);
      var rest := " " + QuoteAll(tokens[1..]).value;
      assert rest[1..] == QuoteAll(tokens[1..]).value;
      TokenIsTaken(tokens[0], rest);
      assert QuoteAll(tokens).value == QuoteCmdToken(tokens[0]).value + rest;
    }
  }

  lemma {:induction false} RefusedWhenUnquotable(tokens: seq<string>, k: nat)
    requires k < |tokens| && !Carries(tokens[k]) && forall j | 0 <= j < k :: Carries(tokens[j])
    ensures QuoteAll(tokens) == Err(tokens[k])
  {
    if k > 0 {
      RefusedWhenUnquotable(tokens[1..], k - 1);
    }
  }

  /** A built line, stripped and cut, is the command and every argument, with no metacharacter outside quotes. */
  lemma CmdReadsBack(command: string, args: seq<string>)
    requires Carries(command) && forall k | 0 <= k < |args| :: Carries(args[k])
    ensures BuildCmdCommandLine(command, args).Ok?
    ensures var line := BuildCmdCommandLine(command, args).value;
      && |line| >= 2 && line[0] == '"' && line[|line| - 1] == '"'
      && CutLine(StripOuter(line), false, None) == [command] + args
      && MetaOnlyQuoted(StripOuter(line), false)
  {
    LineIsCut([command] + args);
    var inner := QuoteAll([command] + args).value;
    assert StripOuter("\"" + inner + "\"") == inner;
  }

  /** A line is refused exactly when a quote or a line break is in the command or an argument. */
  lemma CmdRefusedIff(command: string, args: seq<string>)
    ensures BuildCmdCommandLine(command, args).Err? <==> !Carries(command) || exists k :: 0 <= k < |args| && !Carries(args[k])
  {
    var tokens := [command] + args;
    if BuildCmdCommandLine(command, args).Err? {
      if Carries(command) && forall k | 0 <= k < |args| :: Carries(args[k]) {
        LineIsCut(tokens);
      }
    }
    if !Carries(command) {
      RefusedWhenUnquotable(tokens, 0);
    } else if k: nat :| k < |args| && !Carries(args[k]) {
      assert tokens[k + 1] == args[k];
      FirstUnquotable(tokens, k + 1);
    }
  }

  lemma {:induction false} FirstUnquotable(tokens: seq<string>, k: nat)
    requires k < |tokens| && !Carries(tokens[k])
    ensures QuoteAll(tokens).Err?
  {
    if k > 0 {
      FirstUnquotable(tokens[1..], k - 1);
    }
  }
}
