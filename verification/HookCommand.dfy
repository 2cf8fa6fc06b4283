/** The command line Claude Code's hooks run, and the part of the shell that reads it: sections
    2.2.1 (escape character), 2.2.2 (single-quotes) and 2.3 (token recognition) of the POSIX.1-2017
    Shell Command Language. A character that would start anything else is not read at all. */
module HookCommand {
  import opened Text

  const QUOTE := "'"
  const CLOSE_ESCAPE_OPEN := "'\\''"

  function ShellQuote(value: string): string {
    QUOTE + ReplaceAll(value, QUOTE, CLOSE_ESCAPE_OPEN) + QUOTE
  }

  function Command(self: string): string {
    ShellQuote(self) + " hook claude"
  }

  // The shell

  datatype Mode = Between | InWord | InQuotes

  datatype Lexed =
    | Words(words: seq<string>)
    | Unterminated       // a quote without its end, or an escape of nothing
    | Special(c: char)   // an unquoted operator, expansion, pattern or newline

  predicate IsSpecial(c: char) {
    || c == '\n' || c == '|' || c == '&' || c == ';' || c == '<' || c == '>' || c == '(' || c == ')'
    || c == '$' || c == '`' || c == '"' || c == '*' || c == '?' || c == '[' || c == '#' || c == '~'
    || c == '=' || c == '%' || c == '!' || c == '{' || c == '}'
  }

  function Lex(s: string): Lexed { LexFrom(s, Between, "", []) }

  function LexFrom(s: string, mode: Mode, word: string, words: seq<string>): Lexed
    decreases |s|
  {
    if s == "" then
      match mode
      case Between => Words(words)
      case InWord => Words(words + [word])
      case InQuotes => Unterminated
    else if mode == InQuotes then
      if s[0] == '\'' then LexFrom(s[1..], InWord, word, words)
      else LexFrom(s[1..], InQuotes, word + [s[0]], words)
    else if s[0] == ' ' || s[0] == '\t' then
      LexFrom(s[1..], Between, "", if mode == InWord then words + [word] else words)
    else if s[0] == '\'' then
      LexFrom(s[1..], InQuotes, word, words)
    else if s[0] == '\\' then
      if |s| == 1 then Unterminated
      else if s[1] == '\n' then LexFrom(s[2..], mode, word, words)
      else LexFrom(s[2..], InWord, word + [s[1]], words)
    else if IsSpecial(s[0]) then Special(s[0])
    else LexFrom(s[1..], InWord, word + [s[0]], words)
  }

  // The round trip

  lemma OneOccurs(t: string, p: string, j: int)
    requires |p| == 1
    ensures OccursAt(t, p, j) <==> 0 <= j < |t| && t[j] == p[0]
  {
    if 0 <= j < |t| { assert t[j + 0] == t[j]; }
  }

  /** Replacing a single character goes character by character. */
  lemma ReplaceCharacter(c: char, rest: string, p: string, mark: string)
    requires |p| == 1
    ensures ReplaceAll([c] + rest, p, mark) == (if c == p[0] then mark else [c]) + ReplaceAll(rest, p, mark)
  {
    var t := [c] + rest;
    assert t[1..] == rest;
    if c == p[0] {
      OneOccurs(t, p, 0);
      assert IndexFrom(t, p, 0) == 0;
      assert t[..0] == "";
    } else {
      ReplaceOther(c, rest, p, mark);
    }
  }

  lemma ReplaceOther(c: char, rest: string, p: string, mark: string)
    requires |p| == 1 && c != p[0]
    ensures ReplaceAll([c] + rest, p, mark) == [c] + ReplaceAll(rest, p, mark)
  {
    IndexShift(c, rest, p);
    var k := IndexFrom(rest, p, 0);
    if k != -1 {
      ReplaceAt([c] + rest, p, mark, k + 1);
      ReplaceAt(rest, p, mark, k);
      Shifted(c, rest, k, mark, ReplaceAll(rest[k + 1..], p, mark));
    }
  }

  lemma ReplaceAt(t: string, p: string, mark: string, k: nat)
    requires |p| == 1 && IndexFrom(t, p, 0) == k
    ensures k < |t| && ReplaceAll(t, p, mark) == t[..k] + mark + ReplaceAll(t[k + 1..], p, mark)
  {}

  lemma Shifted(c: char, rest: string, k: nat, mark: string, r: string)
    requires k < |rest|
    ensures ([c] + rest)[k + 2..] == rest[k + 1..]
    ensures ([c] + rest)[..k + 1] + mark + r == [c] + (rest[..k] + mark + r)
  {
    assert ([c] + rest)[..k + 1] == [c] + rest[..k];
  }

  lemma IndexShift(c: char, rest: string, p: string)
    requires |p| == 1 && c != p[0]
    ensures IndexFrom([c] + rest, p, 0) == if IndexFrom(rest, p, 0) == -1 then -1 else IndexFrom(rest, p, 0) + 1
  {
    var t := [c] + rest;
    var i, k := IndexFrom(t, p, 0), IndexFrom(rest, p, 0);
    if i != -1 {
      OneOccurs(t, p, i);
      OneOccurs(rest, p, i - 1);
      assert OccursAt(rest, p, i - 1);
    }
    if k != -1 {
      OneOccurs(rest, p, k);
      OneOccurs(t, p, k + 1);
      assert OccursAt(t, p, k + 1);
    }
  }

  lemma ReadEscapedQuote(s: string, word: string, words: seq<string>)
    ensures LexFrom(CLOSE_ESCAPE_OPEN + s, InQuotes, word, words) == LexFrom(s, InQuotes, word + "'", words)
  {
    var all := CLOSE_ESCAPE_OPEN + s;
    assert all[1..] == "\\''" + s;
    assert LexFrom(all, InQuotes, word, words) == LexFrom(all[1..], InWord, word, words);
    assert all[1..][2..] == "'" + s;
    assert LexFrom(all[1..], InWord, word, words) == LexFrom("'" + s, InWord, word + "'", words);
    assert ("'" + s)[1..] == s;
  }

  lemma ReadQuoted(c: char, s: string, word: string, words: seq<string>)
    ensures c != '\'' ==> LexFrom([c] + s, InQuotes, word, words) == LexFrom(s, InQuotes, word + [c], words)
    ensures c == '\'' ==> LexFrom([c] + s, InQuotes, word, words) == LexFrom(s, InWord, word, words)
  {
    assert ([c] + s)[1..] == s;
  }

  /** What a character becomes between quotes. */
  function Escaped(c: char): string { if c == '\'' then CLOSE_ESCAPE_OPEN else [c] }

  lemma ReadCharacter(c: char, s: string, word: string, words: seq<string>)
    ensures LexFrom(Escaped(c) + s, InQuotes, word, words) == LexFrom(s, InQuotes, word + [c], words)
  {
    if c == '\'' { ReadEscapedQuote(s, word, words); } else { ReadQuoted(c, s, word, words); }
  }

  lemma Regroup(a: string, b: string, c: string, d: string)
    ensures a + b + c + d == a + (b + c + d)
  {}

  /** Inside quotes, an escaped value followed by the closing quote reads back as the value. */
  lemma {:induction false} QuotedValue(value: string, rest: string, word: string, words: seq<string>)
    ensures LexFrom(ReplaceAll(value, QUOTE, CLOSE_ESCAPE_OPEN) + QUOTE + rest, InQuotes, word, words)
            == LexFrom(rest, InWord, word + value, words)
    decreases |value|
  {
    if value == "" {
      EmptyReplaced();
      assert "" + QUOTE + rest == ['\''] + rest;
      ReadQuoted('\'', rest, word, words);
      assert word + value == word;
    } else {
      var c, tail := value[0], value[1..];
      assert value == [c] + tail;
      ReplaceCharacter(c, tail, QUOTE, CLOSE_ESCAPE_OPEN);
      QuotedValue(tail, rest, word + [c], words);
      assert word + [c] + tail == word + value;
      Regroup(Escaped(c), ReplaceAll(tail, QUOTE, CLOSE_ESCAPE_OPEN), QUOTE, rest);
      ReadCharacter(c, ReplaceAll(tail, QUOTE, CLOSE_ESCAPE_OPEN) + QUOTE + rest, word, words);
    }
  }

  lemma EmptyReplaced()
    ensures ReplaceAll("", QUOTE, CLOSE_ESCAPE_OPEN) == ""
  {
    assert !OccursAt("", QUOTE, 0);
  }

  predicate IsPlain(c: char) {
    !IsSpecial(c) && c != ' ' && c != '\t' && c != '\'' && c != '\\'
  }

  predicate PlainWord(w: string) {
    forall k :: 0 <= k < |w| ==> IsPlain(w[k])
  }

  lemma {:induction false} PlainRead(w: string, rest: string, word: string, words: seq<string>)
    requires PlainWord(w)
    ensures LexFrom(w + rest, InWord, word, words) == LexFrom(rest, InWord, word + w, words)
    decreases |w|
  {
    if w == "" {
      assert w + rest == rest && word + w == word;
    } else {
      assert (w + rest)[1..] == w[1..] + rest;
      PlainRead(w[1..], rest, word + [w[0]], words);
      assert word + [w[0]] + w[1..] == word + w;
    }
  }

  /** A blank ends the word before it and a plain word follows. */
  lemma NextWord(w: string, rest: string, word: string, words: seq<string>)
    requires w != "" && PlainWord(w)
    ensures LexFrom(" " + w + rest, InWord, word, words) == LexFrom(rest, InWord, w, words + [word])
  {
    var s := w + rest;
    assert " " + w + rest == " " + s && (" " + s)[1..] == s;
    assert s[1..] == w[1..] + rest && s[0] == w[0];
    PlainRead(w[1..], rest, "" + [w[0]], words + [word]);
    assert "" + [w[0]] + w[1..] == w;
  }

  /** A quoted value at the start of a word is read whole, and what follows is read after it. */
  lemma QuotedWord(value: string, rest: string)
    ensures LexFrom(ShellQuote(value) + rest, Between, "", []) == LexFrom(rest, InWord, value, [])
  {
    var escaped := ReplaceAll(value, QUOTE, CLOSE_ESCAPE_OPEN);
    assert (ShellQuote(value) + rest)[1..] == escaped + QUOTE + rest;
    QuotedValue(value, rest, "", []);
    assert "" + value == value;
  }

  lemma TwoMoreWords(first: string, a: string, b: string)
    requires a != "" && b != "" && PlainWord(a) && PlainWord(b)
    ensures LexFrom(" " + a + (" " + b), InWord, first, []) == Words([first, a, b])
  {
    NextWord(a, " " + b, first, []);
    assert [] + [first] == [first];
    assert " " + b == " " + b + "";
    NextWord(b, "", a, [first]);
    assert [first] + [a] + [b] == [first, a, b];
  }

  /** For every path, whatever its characters: three words, the first the path itself. */
  lemma HookCommandRoundTrip(self: string)
    ensures Lex(Command(self)) == Words([self, "hook", "claude"])
  {
    var a, b := "hook", "claude";
    TwoMoreWords(self, a, b);
    assert " hook claude" == " " + a + (" " + b);
    QuotedWord(self, " " + a + (" " + b));
    assert Command(self) == ShellQuote(self) + (" " + a + (" " + b));
  }
}
