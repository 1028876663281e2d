/**
 Printing words for a POSIX shell and reading them back.

 `Lex` follows sections 2.2 (Quoting) and 2.3 (Token Recognition) of the Shell
 Command Language volume for one simple command; text whose meaning depends on
 expansion or operators is outside it and lexes to None.
 */
module ShellWords {
  import opened Wrappers

  /** Which characters count as control or format characters. */
  type Controls = char -> bool

  function Clean(s: string, ctl: Controls): (r: string)
    ensures |r| == |s|
    ensures forall i | 0 <= i < |s| :: r[i] == if ctl(s[i]) then ' ' else s[i]
  {
    if s == "" then "" else [if ctl(s[0]) then ' ' else s[0]] + Clean(s[1..], ctl)
  }

  predicate IsClean(s: string, ctl: Controls) { forall i | 0 <= i < |s| :: !ctl(s[i]) }

  lemma CleanIsItself(s: string, ctl: Controls)
    requires IsClean(s, ctl)
    ensures Clean(s, ctl) == s
  {
  }

  predicate IsSafe(c: char) {
    'a' <= c <= 'z' || 'A' <= c <= 'Z' || '0' <= c <= '9' ||
    c in {'-', '_', '.', ':', '/', '=', ',', '%', '+'}
  }

  predicate AllSafe(s: string) { forall i | 0 <= i < |s| :: IsSafe(s[i]) }

  /** strings.ReplaceAll(s, "'", `'\''`). */
  function EscapeQuotes(s: string): string {
    if s == "" then "" else (if s[0] == '\'' then "'\\''" else [s[0]]) + EscapeQuotes(s[1..])
  }

  function QuoteIfNeeded(s: string, ctl: Controls): (r: string)
    ensures r != ""
  {
    var s := Clean(s, ctl);
    if s == "" then "''"
    else if AllSafe(s) then s
    else "'" + EscapeQuotes(s) + "'"
  }

  /** Plain words stay as they are; nothing else does, and what is quoted starts with
      a quote. */
  lemma BareExactly(s: string, ctl: Controls)
    requires IsClean(s, ctl)
    ensures QuoteIfNeeded(s, ctl) == s <==> s != "" && AllSafe(s)
    ensures !(s != "" && AllSafe(s)) ==> QuoteIfNeeded(s, ctl)[0] == '\''
  {
    CleanIsItself(s, ctl);
    if s != "" && !AllSafe(s) {
      EscapesDoNotShrink(s);
    }
  }

  lemma {:induction false} EscapesDoNotShrink(s: string)
    ensures |EscapeQuotes(s)| >= |s|
  {
    if s != "" { EscapesDoNotShrink(s[1..]); }
  }

  function Join(words: seq<string>): string {
    if words == [] then ""
    else if |words| == 1 then words[0]
    else words[0] + " " + Join(words[1..])
  }

  // ----- The shell

  datatype Mode = Between | Word | Quoted

  /** Characters that outside quotes are operators or start an expansion,
      a comment or another quoting form. */
  predicate IsSpecial(c: char) {
    c in {'\n', '|', '&', ';', '<', '>', '(', ')', '$', '`', '"', '*', '?', '[', ']', '#', '~', '!', '{', '}'}
  }

  function Prepend(word: string, words: Option<seq<string>>): Option<seq<string>> {
    if words.None? then None else Some([word] + words.value)
  }

  /** The words of `s`, where `word` is the part of the current word read so far. */
  function Lex(s: string, mode: Mode, word: string): Option<seq<string>>
    decreases |s|
  {
    if s == "" then
      match mode case Between => Some([]) case Word => Some([word]) case Quoted => None
    else if mode == Quoted then
      if s[0] == '\'' then Lex(s[1..], Word, word) else Lex(s[1..], Quoted, word + [s[0]])
    else if s[0] == ' ' || s[0] == '\t' then
      if mode == Between then Lex(s[1..], Between, "") else Prepend(word, Lex(s[1..], Between, ""))
    else if s[0] == '\'' then Lex(s[1..], Quoted, word)
    else if s[0] == '\\' then
      if |s| == 1 then None
      else if s[1] == '\n' then Lex(s[2..], mode, word)
      else Lex(s[2..], Word, word + [s[1]])
    else if IsSpecial(s[0]) then None
    else Lex(s[1..], Word, word + [s[0]])
  }

  function Tokenize(s: string): Option<seq<string>> { Lex(s, Between, "") }

  // ----- The round trip

  lemma {:induction false} LexSafe(s: string, rest: string, word: string)
    requires AllSafe(s)
    ensures Lex(s + rest, Word, word) == Lex(rest, Word, word + s)
  {
    if s == "" {
      assert s + rest == rest && word + s == word;
    } else {
      assert (s + rest)[1..] == s[1..] + rest;
      assert word + [s[0]] + s[1..] == word + s;
      LexSafe(s[1..], rest, word + [s[0]]);
    }
  }

  lemma LexReopened(later: string, word: string)
    ensures Lex("'\\''" + later, Quoted, word) == Lex(later, Quoted, word + ['\''])
  {
    var all := "'\\''" + later;
    var reopen := "'" + later;
    assert all[1..] == "\\'" + reopen && all[1..][2..] == reopen && reopen[1..] == later;
    assert Lex(all, Quoted, word) == Lex(all[1..], Word, word);
    assert Lex(all[1..], Word, word) == Lex(reopen, Word, word + ['\'']);
  }

  lemma {:induction false} LexEscaped(s: string, rest: string, word: string)
    ensures Lex(EscapeQuotes(s) + "'" + rest, Quoted, word) == Lex(rest, Word, word + s)
  {
    var tail := "'" + rest;
    if s == "" {
      assert EscapeQuotes(s) + "'" + rest == tail && tail[1..] == rest && word + s == word;
    } else {
      var later := EscapeQuotes(s[1..]) + "'" + rest;
      LexEscaped(s[1..], rest, word + [s[0]]);
      assert word + [s[0]] + s[1..] == word + s;
      if s[0] == '\'' {
        assert EscapeQuotes(s) + "'" + rest == "'\\''" + later;
        LexReopened(later, word);
      } else {
        assert EscapeQuotes(s) + "'" + rest == [s[0]] + later && ([s[0]] + later)[1..] == later;
      }
    }
  }

  /** A word as it is written: verbatim, or through quoteIfNeeded. */
  datatype Part = Raw(text: string) | Value(text: string)

  predicate Printable(p: Part) { p.Raw? ==> p.text != "" && AllSafe(p.text) }

  function Written(p: Part, ctl: Controls): string {
    if p.Raw? then p.text else QuoteIfNeeded(p.text, ctl)
  }

  function Meaning(p: Part, ctl: Controls): string {
    if p.Raw? then p.text else Clean(p.text, ctl)
  }

  lemma {:induction false} LexSafeWord(s: string, rest: string)
    requires s != "" && AllSafe(s)
    ensures Lex(s + rest, Between, "") == Lex(rest, Word, s)
  {
    var first := s[..1];
    var all := s + rest;
    assert all[0] == s[0] && IsSafe(s[0]) && all[1..] == s[1..] + rest && "" + [s[0]] == first;
    LexSafe(s[1..], rest, first);
    assert first + s[1..] == s;
  }

  lemma {:induction false} LexQuotedWord(s: string, rest: string)
    ensures Lex("'" + EscapeQuotes(s) + "'" + rest, Between, "") == Lex(rest, Word, s)
  {
    var all := "'" + EscapeQuotes(s) + "'" + rest;
    assert all[1..] == EscapeQuotes(s) + "'" + rest;
    LexEscaped(s, rest, "");
    assert "" + s == s;
  }

  /** One written word lexes to its meaning, whatever follows. */
  lemma {:induction false} LexPart(p: Part, ctl: Controls, rest: string)
    requires Printable(p)
    ensures Lex(Written(p, ctl) + rest, Between, "") == Lex(rest, Word, Meaning(p, ctl))
  {
    var s := Meaning(p, ctl);
    if s != "" && AllSafe(s) {
      LexSafeWord(s, rest);
    } else {
      LexQuotedWord(s, rest);
      assert s == "" ==> Written(p, ctl) == "'" + EscapeQuotes(s) + "'";
    }
  }

  function WrittenAll(parts: seq<Part>, ctl: Controls): (r: seq<string>)
    ensures |r| == |parts|
  {
    if parts == [] then [] else [Written(parts[0], ctl)] + WrittenAll(parts[1..], ctl)
  }

  function Meanings(parts: seq<Part>, ctl: Controls): (r: seq<string>)
    ensures |r| == |parts|
  {
    if parts == [] then [] else [Meaning(parts[0], ctl)] + Meanings(parts[1..], ctl)
  }

  lemma {:induction false} MeaningsConcat(a: seq<Part>, b: seq<Part>, ctl: Controls)
    ensures Meanings(a + b, ctl) == Meanings(a, ctl) + Meanings(b, ctl)
  {
    if a == [] {
      assert a + b == b;
    } else {
      assert (a + b)[1..] == a[1..] + b;
      MeaningsConcat(a[1..], b, ctl);
    }
  }

  /** Whatever words are printed, space-joined, the shell reads back exactly
      those words with control characters turned into spaces: empty strings,
      quotes and shell metacharacters included. */
  lemma {:induction false} ShellRoundTrip(parts: seq<Part>, ctl: Controls)
    requires forall i | 0 <= i < |parts| :: Printable(parts[i])
    ensures Tokenize(Join(WrittenAll(parts, ctl))) == Some(Meanings(parts, ctl))
  {
    if parts != [] {
      var head, tail := Written(parts[0], ctl), WrittenAll(parts[1..], ctl);
      if |parts| == 1 {
        LexPart(parts[0], ctl, "");
        assert head + "" == head;
        assert Meanings(parts, ctl) == [Meaning(parts[0], ctl)];
      } else {
        ShellRoundTrip(parts[1..], ctl);
        var rest := " " + Join(tail);
        assert Join(WrittenAll(parts, ctl)) == head + rest;
        LexPart(parts[0], ctl, rest);
        assert rest[1..] == Join(tail);
      }
    }
  }
}
