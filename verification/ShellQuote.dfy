/**
  Quoting for a remote shell, checked against how a POSIX shell splits a line into words: the escape
  character and single quotes of sections 2.2.1 and 2.2.2 of the Shell Command Language, with blanks
  and `|` as the only separators. Every other character that means something to the shell when it
  stands unquoted makes the line one that this lexer does not read.
 */
module ShellQuote {
  import opened Basics

  /** Every `'` becomes `'\''`. */
  function ReplaceQuotes(s: string): string {
    if s == "" then ""
    else if s[0] == '\'' then "'\\''" + ReplaceQuotes(s[1..])
    else [s[0]] + ReplaceQuotes(s[1..])
  }

  function Quote(s: string): string {
    "'" + ReplaceQuotes(s) + "'"
  }

  const SUDO := " | sudo -S -p '' -- bash -c "

  /** The line sent to the remote host; without a password the command goes as it is. */
  function SudoLine(cmd: string, sudoPass: string): string {
    if sudoPass == "" then cmd
    else "echo " + Quote(sudoPass) + SUDO + Quote(cmd)
  }

  // ---- The shell's side ----

  datatype Token = Word(text: string) | Pipe

  datatype Mode = Plain | Escaped | Quoted

  predicate IsBlank(c: char) {
    c == ' ' || c == '\t'
  }

  /** Characters the lexer does not read outside quotes. */
  predicate IsSpecial(c: char) {
    || c == '\n' || c == '&' || c == ';' || c == '<' || c == '>' || c == '(' || c == ')' || c == '$' || c == '`'
    || c == '"' || c == '*' || c == '?' || c == '[' || c == ']' || c == '#' || c == '~' || c == '=' || c == '%'
    || c == '!' || c == '{' || c == '}'
  }

  predicate IsOrdinary(c: char) {
    !IsBlank(c) && !IsSpecial(c) && c != '|' && c != '\'' && c != '\\'
  }

  function Flush(tokens: seq<Token>, word: Option<string>): seq<Token> {
    if word.Some? then tokens + [Word(word.value)] else tokens
  }

  function Text(word: Option<string>): string {
    if word.Some? then word.value else ""
  }

  /** Reads the rest `s` of a line after `tokens` and the beginning `word` of the next one. */
  function Lex(s: string, tokens: seq<Token>, word: Option<string>, mode: Mode): Option<seq<Token>>
    decreases s
  {
    if s == "" then if mode.Plain? then Some(Flush(tokens, word)) else None
    else
      var c, rest := s[0], s[1..];
      match mode
      case Quoted =>
        if c == '\'' then Lex(rest, tokens, word, Plain)
        else Lex(rest, tokens, Some(Text(word) + [c]), Quoted)
      case Escaped =>
        if c == '\n' then Lex(rest, tokens, word, Plain)
        else Lex(rest, tokens, Some(Text(word) + [c]), Plain)
      case Plain =>
        if c == '\'' then Lex(rest, tokens, Some(Text(word)), Quoted)
        else if c == '\\' then Lex(rest, tokens, word, Escaped)
        else if IsBlank(c) then Lex(rest, Flush(tokens, word), None, Plain)
        else if c == '|' then Lex(rest, Flush(tokens, word) + [Pipe], None, Plain)
        else if IsSpecial(c) then None
        else Lex(rest, tokens, Some(Text(word) + [c]), Plain)
  }

  function Tokenize(line: string): Option<seq<Token>> {
    Lex(line, [], None, Plain)
  }

  // ---- The round trip ----

  lemma LexInside(c: char, tail: string, tokens: seq<Token>, acc: string)
    requires c != '\''
    ensures Lex([c] + tail, tokens, Some(acc), Quoted) == Lex(tail, tokens, Some(acc + [c]), Quoted)
  {
    assert ([c] + tail)[1..] == tail;
  }

  /** Leaving the quotes for one escaped quote and entering them again adds that quote. */
  lemma LexEscapedQuote(tail: string, tokens: seq<Token>, acc: string)
    ensures Lex("'\\''" + tail, tokens, Some(acc), Quoted) == Lex(tail, tokens, Some(acc + "'"), Quoted)
  {
    var line := "'\\''" + tail;
    assert line[1..] == "\\''" + tail;
    assert ("\\''" + tail)[1..] == "''" + tail;
    assert ("''" + tail)[1..] == "'" + tail;
    assert ("'" + tail)[1..] == tail;
    assert Lex(line, tokens, Some(acc), Quoted) == Lex("\\''" + tail, tokens, Some(acc), Plain);
    assert Lex("\\''" + tail, tokens, Some(acc), Plain) == Lex("''" + tail, tokens, Some(acc), Escaped);
    assert Lex("''" + tail, tokens, Some(acc), Escaped) == Lex("'" + tail, tokens, Some(acc + "'"), Plain);
  }

  /** Inside the opening quote, the replaced text and the closing quote read back as the text. */
  lemma {:induction false} LexReplaced(s: string, rest: string, tokens: seq<Token>, acc: string)
    ensures Lex(ReplaceQuotes(s) + "'" + rest, tokens, Some(acc), Quoted) == Lex(rest, tokens, Some(acc + s), Plain)
    decreases s
  {
    if s == "" {
      assert ReplaceQuotes(s) + "'" + rest == "'" + rest;
      assert ("'" + rest)[1..] == rest;
      assert acc + s == acc;
    } else {
      var tail := ReplaceQuotes(s[1..]) + "'" + rest;
      LexReplaced(s[1..], rest, tokens, acc + [s[0]]);
      assert acc + [s[0]] + s[1..] == acc + s;
      if s[0] == '\'' {
        assert ReplaceQuotes(s) + "'" + rest == "'\\''" + tail;
        LexEscapedQuote(tail, tokens, acc);
      } else {
        assert ReplaceQuotes(s) + "'" + rest == [s[0]] + tail;
        LexInside(s[0], tail, tokens, acc);
      }
    }
  }

  /** Anywhere in a line where a word may begin or go on, a quoted string adds exactly its text. */
  lemma LexQuote(s: string, rest: string, tokens: seq<Token>, word: Option<string>)
    ensures Lex(Quote(s) + rest, tokens, word, Plain) == Lex(rest, tokens, Some(Text(word) + s), Plain)
  {
    var line := Quote(s) + rest;
    assert line == "'" + (ReplaceQuotes(s) + "'" + rest);
    assert line[1..] == ReplaceQuotes(s) + "'" + rest;
    LexReplaced(s, rest, tokens, Text(word));
  }

  /** The shell reads a quoted string as one word, the string itself, whatever it contains. */
  lemma QuoteRoundTrip(s: string)
    ensures Tokenize(Quote(s)) == Some([Word(s)])
  {
    LexQuote(s, "", [], None);
    assert Quote(s) + "" == Quote(s);
    assert "" + s == s;
    assert Lex("", [], Some(s), Plain) == Some(Flush([], Some(s)));
    assert [] + [Word(s)] == [Word(s)];
  }

  /** So no two strings are quoted alike. */
  lemma QuoteInjective(a: string, b: string)
    ensures Quote(a) == Quote(b) ==> a == b
  {
    QuoteRoundTrip(a);
    QuoteRoundTrip(b);
  }

  lemma {:induction false} LexOrdinary(w: string, rest: string, tokens: seq<Token>, acc: string)
    requires forall i :: 0 <= i < |w| ==> IsOrdinary(w[i])
    ensures Lex(w + rest, tokens, Some(acc), Plain) == Lex(rest, tokens, Some(acc + w), Plain)
    decreases w
  {
    if w == "" {
      assert w + rest == rest && acc + w == acc;
    } else {
      assert (w + rest)[1..] == w[1..] + rest;
      LexOrdinary(w[1..], rest, tokens, acc + [w[0]]);
      assert acc + [w[0]] + w[1..] == acc + w;
    }
  }

  /** An unquoted word of ordinary characters, and the blank that ends it. */
  lemma LexWord(w: string, rest: string, tokens: seq<Token>)
    requires w != "" && forall i :: 0 <= i < |w| ==> IsOrdinary(w[i])
    ensures Lex(w + " " + rest, tokens, None, Plain) == Lex(rest, tokens + [Word(w)], None, Plain)
  {
    var tail := " " + rest;
    assert w + " " + rest == w + tail;
    assert (w + tail)[1..] == w[1..] + tail;
    LexOrdinary(w[1..], tail, tokens, [w[0]]);
    assert "" + [w[0]] == [w[0]] && [w[0]] + w[1..] == w;
    assert tail[1..] == rest;
  }

  /** The same for a word at the head of a fixed part `k` of a line. */
  lemma LexFixed(w: string, k: string, more: string, tail: string, tokens: seq<Token>)
    requires w != "" && forall i :: 0 <= i < |w| ==> IsOrdinary(w[i])
    requires k == w + " " + more
    ensures Lex(k + tail, tokens, None, Plain) == Lex(more + tail, tokens + [Word(w)], None, Plain)
  {
    assert k + tail == w + " " + (more + tail);
    LexWord(w, more + tail, tokens);
  }

  /** Three words that make up a fixed part `k0`. */
  lemma LexThree(u: string, v: string, w: string, k0: string, k1: string, k2: string, tail: string, tokens: seq<Token>)
    requires u != "" && forall i :: 0 <= i < |u| ==> IsOrdinary(u[i])
    requires v != "" && forall i :: 0 <= i < |v| ==> IsOrdinary(v[i])
    requires w != "" && forall i :: 0 <= i < |w| ==> IsOrdinary(w[i])
    requires k0 == u + " " + k1 && k1 == v + " " + k2 && k2 == w + " "
    ensures Lex(k0 + tail, tokens, None, Plain) == Lex(tail, tokens + [Word(u), Word(v), Word(w)], None, Plain)
  {
    LexFixed(u, k0, k1, tail, tokens);
    LexFixed(v, k1, k2, tail, tokens + [Word(u)]);
    LexFixed(w, k2, "", tail, tokens + [Word(u)] + [Word(v)]);
    assert "" + tail == tail;
    assert tokens + [Word(u)] + [Word(v)] + [Word(w)] == tokens + [Word(u), Word(v), Word(w)];
  }

  lemma LexEmptyWord(more: string, tail: string, tokens: seq<Token>)
    ensures Lex("'' " + more + tail, tokens, None, Plain) == Lex(more + tail, tokens + [Word("")], None, Plain)
  {
    var rest := more + tail;
    var line := "'' " + more + tail;
    assert line == "'' " + rest;
    assert line[1..] == "' " + rest;
    assert ("' " + rest)[1..] == " " + rest;
    assert (" " + rest)[1..] == rest;
    assert Lex(line, tokens, None, Plain) == Lex("' " + rest, tokens, Some(""), Quoted);
    assert Lex("' " + rest, tokens, Some(""), Quoted) == Lex(" " + rest, tokens, Some(""), Plain);
  }

  lemma LexPipe(more: string, tail: string, tokens: seq<Token>, word: string)
    ensures Lex(" | " + more + tail, tokens, Some(word), Plain) ==
      Lex(more + tail, tokens + [Word(word)] + [Pipe], None, Plain)
  {
    var rest := more + tail;
    var line := " | " + more + tail;
    assert line == " | " + rest;
    assert line[1..] == "| " + rest;
    assert ("| " + rest)[1..] == " " + rest;
    assert (" " + rest)[1..] == rest;
    assert Lex(line, tokens, Some(word), Plain) == Lex("| " + rest, tokens + [Word(word)], None, Plain);
    assert Lex("| " + rest, tokens + [Word(word)], None, Plain) ==
      Lex(" " + rest, tokens + [Word(word)] + [Pipe], None, Plain);
  }

  /** The fixed part between password and command, first half. */
  lemma LexPipeSudo(tail: string, tokens: seq<Token>, word: string)
    ensures Lex(" | sudo -S -p " + tail, tokens, Some(word), Plain) ==
            Lex(tail, tokens + [Word(word), Pipe, Word("sudo"), Word("-S"), Word("-p")], None, Plain)
  {
    var k0, k1, k2 := "sudo -S -p ", "-S -p ", "-p ";
    assert " | sudo -S -p " == " | " + k0;
    LexPipe(k0, tail, tokens, word);
    var t0 := tokens + [Word(word)] + [Pipe];
    LexThree("sudo", "-S", "-p", k0, k1, k2, tail, t0);
    assert t0 + [Word("sudo"), Word("-S"), Word("-p")] ==
      tokens + [Word(word), Pipe, Word("sudo"), Word("-S"), Word("-p")];
  }

  /** Second half: the empty prompt, and the shell that runs the command. */
  lemma LexBash(tail: string, tokens: seq<Token>)
    ensures Lex("'' -- bash -c " + tail, tokens, None, Plain) ==
            Lex(tail, tokens + [Word(""), Word("--"), Word("bash"), Word("-c")], None, Plain)
  {
    var k0, k1, k2 := "-- bash -c ", "bash -c ", "-c ";
    assert "'' -- bash -c " == "'' " + k0;
    LexEmptyWord(k0, tail, tokens);
    var t0 := tokens + [Word("")];
    LexThree("--", "bash", "-c", k0, k1, k2, tail, t0);
    assert t0 + [Word("--"), Word("bash"), Word("-c")] == tokens + [Word(""), Word("--"), Word("bash"), Word("-c")];
  }

  lemma LexEcho(tail: string)
    ensures Lex("echo " + tail, [], None, Plain) == Lex(tail, [Word("echo")], None, Plain)
  {
    LexFixed("echo", "echo ", "", tail, []);
    assert "" + tail == tail;
    assert [] + [Word("echo")] == [Word("echo")];
  }

  function SudoTokens(sudoPass: string): seq<Token> {
    [Word("echo")] + [Word(sudoPass), Pipe, Word("sudo"), Word("-S"), Word("-p")] +
      [Word(""), Word("--"), Word("bash"), Word("-c")]
  }

  lemma Identity(s: string)
    ensures "" + s == s
  {
  }

  lemma Associate(a: string, b: string, c: string, d: string, e: string)
    ensures a + b + (c + d) + e == a + (b + (c + (d + e)))
  {
  }

  lemma LinePieces(cmd: string, sudoPass: string)
    requires sudoPass != ""
    ensures SudoLine(cmd, sudoPass) == "echo " + (Quote(sudoPass) +
      (" | sudo -S -p " + ("'' -- bash -c " + Quote(cmd))))
  {
    assert SUDO == " | sudo -S -p " + "'' -- bash -c ";
    Associate("echo ", Quote(sudoPass), " | sudo -S -p ", "'' -- bash -c ", Quote(cmd));
  }

  /** The line reads as two commands joined by a pipe, with the password one word of the first and the
      command one word of the second; no character of either is read as syntax. */
  lemma SudoLineTokens(cmd: string, sudoPass: string)
    requires sudoPass != ""
    ensures Tokenize(SudoLine(cmd, sudoPass)) == Some(SudoTokens(sudoPass) + [Word(cmd)])
  {
    var last := Quote(cmd);
    var right := "'' -- bash -c " + last;
    var middle := " | sudo -S -p " + right;
    LinePieces(cmd, sudoPass);
    LexEcho(Quote(sudoPass) + middle);
    LexQuote(sudoPass, middle, [Word("echo")], None);
    Identity(sudoPass);
    LexPipeSudo(right, [Word("echo")], sudoPass);
    var t := [Word("echo")] + [Word(sudoPass), Pipe, Word("sudo"), Word("-S"), Word("-p")];
    LexBash(last, t);
    LexQuote(cmd, "", SudoTokens(sudoPass), None);
    Identity(cmd);
    assert last + "" == last;
    assert Lex("", SudoTokens(sudoPass), Some(cmd), Plain) == Some(SudoTokens(sudoPass) + [Word(cmd)]);
  }
}
