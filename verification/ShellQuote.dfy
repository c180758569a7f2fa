/** Arguments quoted for a POSIX shell, and what such a shell makes of them. */
module ShellQuote {
  import opened Wrappers

  // ----- quoting -----

  predicate Safe(c: char) {
    'a' <= c <= 'z' || 'A' <= c <= 'Z' || '0' <= c <= '9' || c in "-_./=:@%+,"
  }

  /** Each single quote closed, quoted by double quotes and opened again. */
  function Requoted(argument: string): string {
    if argument == "" then ""
    else (if argument[0] == '\'' then "'\"'\"'" else [argument[0]]) + Requoted(argument[1..])
  }

  function Quote(argument: string): string {
    if argument != "" && forall c :: c in argument ==> Safe(c) then argument else "'" + Requoted(argument) + "'"
  }

  /** The quoted arguments with a space between each two. */
  function QuoteAll(args: seq<string>): string {
    if args == [] then ""
    else if |args| == 1 then Quote(args[0])
    else Quote(args[0]) + " " + QuoteAll(args[1..])
  }

  // ----- token recognition, by sections 2.2.2, 2.2.3 and 2.3 of the POSIX Shell Command Language -----

  /** Between words, in a word outside quotes, or within single or double quotes in a word. */
  datatype Mode = Between | Plain(word: string) | Single(word: string) | Double(word: string)

  predicate Blank(c: char) {
    c == ' ' || c == '\t'
  }

  /**
    A character that stands for itself outside quotes. Operators, expansions, patterns, comments and newlines do not; `=`
    and `%` do where this is used, after the command word.
  */
  predicate Literal(c: char) {
    c !in "|&;<>()$`\\\"' \t\n*?[#~"
  }

  /** A character that stands for itself within double quotes. */
  predicate LiteralInDouble(c: char) {
    c !in "$`\\\""
  }

  function Word(word: string, rest: Option<seq<string>>): Option<seq<string>> {
    if rest.Some? then Some([word] + rest.value) else None
  }

  /** The words of the rest of a command line; none if it holds anything but words, or a quote is left open. */
  function Tokens(mode: Mode, s: string): Option<seq<string>>
    decreases |s|
  {
    if s == "" then
      match mode
      case Between => Some([])
      case Plain(word) => Some([word])
      case _ => None
    else
      var c, rest := s[0], s[1..];
      match mode
      case Between =>
        if Blank(c) then Tokens(Between, rest)
        else if c == '\'' then Tokens(Single(""), rest)
        else if c == '"' then Tokens(Double(""), rest)
        else if Literal(c) then Tokens(Plain([c]), rest)
        else None
      case Plain(word) =>
        if Blank(c) then Word(word, Tokens(Between, rest))
        else if c == '\'' then Tokens(Single(word), rest)
        else if c == '"' then Tokens(Double(word), rest)
        else if Literal(c) then Tokens(Plain(word + [c]), rest)
        else None
      case Single(word) =>
        if c == '\'' then Tokens(Plain(word), rest) else Tokens(Single(word + [c]), rest)
      case Double(word) =>
        if c == '"' then Tokens(Plain(word), rest)
        else if LiteralInDouble(c) then Tokens(Double(word + [c]), rest)
        else None
  }

  // ----- one argument -----

  lemma SafeIsLiteral(c: char)
    requires Safe(c)
    ensures Literal(c) && !Blank(c)
  {
  }

  lemma {:induction false} PlainRun(word: string, s: string, rest: string)
    requires forall c :: c in s ==> Safe(c)
    ensures Tokens(Plain(word), s + rest) == Tokens(Plain(word + s), rest)
    decreases |s|
  {
    if s == "" {
      assert s + rest == rest && word + s == word;
    } else {
      SafeIsLiteral(s[0]);
      assert (s + rest)[0] == s[0] && (s + rest)[1..] == s[1..] + rest;
      PlainRun(word + [s[0]], s[1..], rest);
      assert word + [s[0]] + s[1..] == word + s;
      assert Tokens(Plain(word), s + rest) == Tokens(Plain(word + [s[0]]), s[1..] + rest);
    }
  }

  /** From within single quotes, a requoted single quote is a single quote in the word. */
  lemma QuoteThrough(word: string, rest: string)
    ensures Tokens(Single(word), "'\"'\"'" + rest) == Tokens(Single(word + "'"), rest)
  {
    var s := "'\"'\"'" + rest;
    assert s[1..] == "\"'\"'" + rest && s[1..][1..] == "'\"'" + rest;
    assert s[1..][1..][1..] == "\"'" + rest && s[1..][1..][1..][1..] == "'" + rest && s[1..][1..][1..][1..][1..] == rest;
    assert Tokens(Single(word), s) == Tokens(Plain(word), s[1..]);
    assert Tokens(Plain(word), s[1..]) == Tokens(Double(word), s[1..][1..]);
    assert Tokens(Double(word), s[1..][1..]) == Tokens(Double(word + "'"), s[1..][1..][1..]);
    assert Tokens(Double(word + "'"), s[1..][1..][1..]) == Tokens(Plain(word + "'"), s[1..][1..][1..][1..]);
  }

  lemma {:induction false} SingleRun(word: string, s: string, rest: string)
    ensures Tokens(Single(word), Requoted(s) + "'" + rest) == Tokens(Plain(word + s), rest)
    decreases |s|
  {
    if s == "" {
      assert Requoted(s) + "'" + rest == "'" + rest && ("'" + rest)[1..] == rest && word + s == word;
    } else {
      var after := Requoted(s[1..]) + "'" + rest;
      SingleRun(word + [s[0]], s[1..], rest);
      assert word + [s[0]] + s[1..] == word + s;
      if s[0] == '\'' {
        assert Requoted(s) + "'" + rest == "'\"'\"'" + after;
        QuoteThrough(word, after);
      } else {
        assert Requoted(s) + "'" + rest == [s[0]] + after;
        assert ([s[0]] + after)[1..] == after;
      }
    }
  }

  /** A quoted argument is that argument, as one word. */
  lemma QuotedIsOneWord(argument: string, rest: string)
    ensures Tokens(Between, Quote(argument) + rest) == Tokens(Plain(argument), rest)
  {
    if argument != "" && forall c :: c in argument ==> Safe(c) {
      SafeIsLiteral(argument[0]);
      assert (argument + rest)[1..] == argument[1..] + rest;
      PlainRun([argument[0]], argument[1..], rest);
      assert [argument[0]] + argument[1..] == argument;
      assert Tokens(Between, argument + rest) == Tokens(Plain([argument[0]]), argument[1..] + rest);
    } else {
      var s := "'" + Requoted(argument) + "'" + rest;
      assert s[1..] == Requoted(argument) + "'" + rest;
      SingleRun("", argument, rest);
      assert "" + argument == argument;
    }
  }

  // ----- all of them -----

  /** A shell reads the quoted arguments, after the command word, back as exactly those arguments. */
  lemma {:induction false} QuotedRoundTrip(args: seq<string>)
    ensures Tokens(Between, QuoteAll(args)) == Some(args)
    decreases |args|
  {
    if args != [] {
      var rest := if |args| == 1 then "" else " " + QuoteAll(args[1..]);
      QuotedIsOneWord(args[0], rest);
      assert args == [args[0]] + args[1..];
      if |args| > 1 {
        QuotedRoundTrip(args[1..]);
        BlankEnds(args[0], QuoteAll(args[1..]));
        assert QuoteAll(args) == Quote(args[0]) + rest by { QuoteFirst(args); }
        hide Tokens, QuoteAll, Quote;
        assert Tokens(Between, QuoteAll(args)) == Some(args);
      } else {
        assert Quote(args[0]) + "" == Quote(args[0]) && args == [args[0]];
        hide Quote;
        assert QuoteAll(args) == Quote(args[0]);
        assert Tokens(Between, QuoteAll(args)) == Some(args);
      }
    }
    hide *;
  }

  lemma QuoteFirst(args: seq<string>)
    requires |args| > 1
    ensures QuoteAll(args) == Quote(args[0]) + (" " + QuoteAll(args[1..]))
  {
    hide Quote;
  }

  /** A blank ends the word under way. */
  lemma BlankEnds(word: string, rest: string)
    ensures Tokens(Plain(word), " " + rest) == Word(word, Tokens(Between, rest))
  {
    assert (" " + rest)[1..] == rest;
  }

  // ----- through a second shell -----

  const REMOTE_FPK := "\"$FPK_HOST_DIR/bin/fpk\""

  /** What runs on the host: the prologue that finds the installation, then the command. */
  function Script(prologue: string, args: seq<string>): string {
    prologue + "\n" + REMOTE_FPK + " " + QuoteAll(args)
  }

  /** The one argument ssh sends, for the login shell to read. */
  function Sent(script: string): string {
    "sh -c " + Quote(script)
  }

  /**
    The login shell hands `sh` the script unchanged, whatever is in it, and what follows the command word in the script is
    read back as exactly the arguments.
  */
  lemma NestedRoundTrip(prologue: string, args: seq<string>)
    ensures var script := Script(prologue, args);
            && Tokens(Between, Sent(script)) == Some(["sh", "-c", script])
            && prologue + "\n" + REMOTE_FPK <= script
            && Tokens(Between, script[|prologue + "\n" + REMOTE_FPK|..]) == Some(args)
  {
    var script := Script(prologue, args);
    var head := prologue + "\n" + REMOTE_FPK;
    assert script[|head|..] == " " + QuoteAll(args) && script[..|head|] == head;
    assert (" " + QuoteAll(args))[1..] == QuoteAll(args);
    QuotedRoundTrip(args);
    assert Tokens(Between, script[|head|..]) == Some(args);
    QuotedRoundTrip(["sh", "-c", script]);
    hide Tokens, Script;
    SentIsQuoted(script);
  }

  lemma SentIsQuoted(script: string)
    ensures Sent(script) == QuoteAll(["sh", "-c", script])
  {
    assert Quote("sh") == "sh" && Quote("-c") == "-c";
    var args := ["sh", "-c", script];
    assert args[1..] == ["-c", script] && args[1..][1..] == [script];
    assert QuoteAll([script]) == Quote(script);
    assert QuoteAll(["-c", script]) == "-c" + " " + Quote(script);
    hide Quote;
    assert "sh" + " " + ("-c" + " " + Quote(script)) == "sh -c " + Quote(script);
  }
}
