/**
 * Quoting an argument for a remote shell, against the quoting rules of sections 2.2.1 (escape character)
 * and 2.2.2 (single-quotes) and the token rules of section 2.3 of the POSIX.1-2017 Shell Command Language.
 */
module ShellQuote {

  /** Every single quote leaves the quotes, stands escaped, and reopens them. */
  function Escaped(value: string): string {
    if value == "" then ""
    else (if value[0] == '\'' then "'\\''" else [value[0]]) + Escaped(value[1..])
  }

  function ShQuote(value: string): string { "'" + (Escaped(value) + "'") }

  /** A character of a word, and whether quoting has taken all special meaning from it. */
  datatype Letter = Letter(symbol: char, quoted: bool)

  /**
   * A word, whether it exists although it may be empty, and the input behind it; or input whose reading
   * these rules do not settle: an expansion, a double quote, an open quote, a trailing backslash, a NUL.
   */
  datatype Reading = Word(letters: seq<Letter>, isWord: bool, rest: string) | Unsettled

  predicate Delimits(c: char) {
    c in {' ', '\t', '\n', '|', '&', ';', '<', '>', '(', ')'}
  }

  predicate Expands(c: char) { c in {'$', '`', '"', '\0'} }

  function Behind(front: seq<Letter>, reading: Reading): Reading {
    match reading
    case Word(letters, _, rest) => Word(front + letters, true, rest)
    case Unsettled => Unsettled
  }

  /** Reads one word from the front of the input. */
  function ReadWord(input: string): Reading
    decreases |input|, 1
  {
    if input == "" || Delimits(input[0]) then Word([], false, input)
    else if input[0] == '\'' then ReadQuoted(input[1..])
    else if input[0] == '\\' then
      if |input| == 1 || input[1] == '\0' then Unsettled
      else if input[1] == '\n' then ReadWord(input[2..])
      else Behind([Letter(input[1], true)], ReadWord(input[2..]))
    else if Expands(input[0]) then Unsettled
    else Behind([Letter(input[0], false)], ReadWord(input[1..]))
  }

  /** Reads on inside single quotes, where every character up to the closing quote stands for itself. */
  function ReadQuoted(input: string): Reading
    decreases |input|, 0
  {
    if input == "" || input[0] == '\0' then Unsettled
    else if input[0] == '\'' then Behind([], ReadWord(input[1..]))
    else Behind([Letter(input[0], true)], ReadQuoted(input[1..]))
  }

  /** The value as letters that have all lost their special meaning. */
  function Literal(value: string): seq<Letter> {
    if value == "" then [] else [Letter(value[0], true)] + Literal(value[1..])
  }

  predicate Delimited(rest: string) { rest == "" || Delimits(rest[0]) }

  lemma {:induction false} EscapedReads(value: string, rest: string)
    requires Delimited(rest)
    ensures ReadQuoted(Escaped(value) + ("'" + rest))
      == if '\0' in value then Unsettled else Word(Literal(value), true, rest)
  {
    var input := Escaped(value) + ("'" + rest);
    if value == "" {
      assert input == "'" + rest && input[1..] == rest;
    } else {
      var tail := Escaped(value[1..]) + ("'" + rest);
      EscapedReads(value[1..], rest);
      assert value == [value[0]] + value[1..];
      if value[0] == '\'' {
        assert input == "'\\''" + tail;
        QuoteReads(input, tail);
      } else {
        assert input == [value[0]] + tail && input[1..] == tail;
      }
    }
  }

  lemma {:induction false} BehindNothing(front: seq<Letter>, reading: Reading)
    ensures Behind([], Behind(front, reading)) == Behind(front, reading)
  {
    if reading.Word? { assert [] + (front + reading.letters) == front + reading.letters; }
  }

  /** The escaped quote reads as one quoted quote, inside the same quotes. */
  lemma {:induction false} QuoteReads(input: string, tail: string)
    requires input == "'\\''" + tail
    ensures ReadQuoted(input) == Behind([Letter('\'', true)], ReadQuoted(tail))
  {
    var outside, after := input[1..], input[3..];
    assert outside[0] == '\\' && outside[1] == '\'' && outside[2..] == after;
    assert after[0] == '\'' && after[1..] == tail;
    assert ReadWord(after) == ReadQuoted(tail);
    assert ReadWord(outside) == Behind([Letter('\'', true)], ReadWord(after));
    BehindNothing([Letter('\'', true)], ReadQuoted(tail));
  }

  /**
   * A quoted value reads back as exactly one word, itself, with every character literal, and nothing of
   * what follows is consumed; a NUL, which no argument can carry, is the only exception.
   */
  lemma {:induction false} QuotedReadsBack(value: string, rest: string)
    requires Delimited(rest)
    ensures ReadWord(ShQuote(value) + rest) == Word(Literal(value), true, rest) <==> '\0' !in value
  {
    var input := ShQuote(value) + rest;
    assert input == "'" + (Escaped(value) + ("'" + rest));
    assert input[1..] == Escaped(value) + ("'" + rest);
    EscapedReads(value, rest);
  }

  lemma {:induction false} LiteralInjective(a: string, b: string)
    requires Literal(a) == Literal(b)
    ensures a == b
  {
    if a != "" && b != "" {
      assert Literal(a)[0] == Literal(b)[0] && Literal(a)[1..] == Literal(a[1..]) && Literal(b)[1..] == Literal(b[1..]);
      LiteralInjective(a[1..], b[1..]);
      assert a == [a[0]] + a[1..] && b == [b[0]] + b[1..];
    }
  }

  /** So the value comes back uniquely: two values without a NUL are read alike exactly when they are the same. */
  lemma {:induction false} ReadAlikeExactlyWhenEqual(a: string, b: string, rest: string)
    requires Delimited(rest) && '\0' !in a && '\0' !in b
    ensures ReadWord(ShQuote(a) + rest) == ReadWord(ShQuote(b) + rest) <==> a == b
  {
    QuotedReadsBack(a, rest);
    QuotedReadsBack(b, rest);
    if Literal(a) == Literal(b) { LiteralInjective(a, b); }
  }

  // ---------------------------------------------------------------- whole commands

  /** The quoted arguments of a command, separated by single blanks. */
  function CommandLine(args: seq<string>): string {
    if args == [] then ""
    else if |args| == 1 then ShQuote(args[0])
    else ShQuote(args[0]) + (" " + CommandLine(args[1..]))
  }

  datatype Words = Words(words: seq<seq<Letter>>) | NoWords

  function Skipped(input: string): (rest: string)
    ensures |rest| <= |input|
  {
    if input != "" && input[0] in {' ', '\t'} then Skipped(input[1..]) else input
  }

  lemma {:induction false} ReadingShrinks(input: string)
    ensures ReadWord(input).Word? ==> |ReadWord(input).rest| <= |input|
    ensures ReadQuoted(input).Word? ==> |ReadQuoted(input).rest| < |input|
    ensures ReadWord(input).Word? && ReadWord(input).isWord ==> |ReadWord(input).rest| < |input|
    decreases |input|
  {
    if input != "" {
      ReadingShrinks(input[1..]);
      if |input| > 1 { ReadingShrinks(input[2..]); }
    }
  }

  /** The words of a simple command up to the end of the input. */
  function ReadWords(input: string): Words
    decreases |input|
  {
    var start := Skipped(input);
    if start == "" then Words([])
    else
      var reading := ReadWord(start);
      ReadingShrinks(start);
      if reading.Unsettled? || !reading.isWord then NoWords
      else
        var more := ReadWords(reading.rest);
        if more.NoWords? then NoWords else Words([reading.letters] + more.words)
  }

  function Literals(args: seq<string>): seq<seq<Letter>> {
    if args == [] then [] else [Literal(args[0])] + Literals(args[1..])
  }

  /** A command whose arguments are all quoted is read as exactly those arguments. */
  lemma {:induction false} ArgumentsReadBack(args: seq<string>)
    requires forall i :: 0 <= i < |args| ==> '\0' !in args[i]
    ensures ReadWords(CommandLine(args)) == Words(Literals(args))
  {
    if args != [] {
      var line := CommandLine(args);
      var rest := if |args| == 1 then "" else " " + CommandLine(args[1..]);
      assert line == ShQuote(args[0]) + rest;
      assert line[0] == '\'';
      QuotedReadsBack(args[0], rest);
      ArgumentsReadBack(args[1..]);
      if |args| > 1 {
        assert rest[1..] == CommandLine(args[1..]);
        SkippedBlank(rest);
      }
    }
  }

  lemma {:induction false} SkippedBlank(rest: string)
    requires rest != "" && rest[0] == ' '
    ensures ReadWords(rest) == ReadWords(rest[1..])
  {
    assert Skipped(rest) == Skipped(rest[1..]);
  }
}
