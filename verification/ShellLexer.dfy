/** The ShellForge lexer (src/lexer.c). */
module ShellLexer {
  import opened Wrappers

  datatype Token = Word(value: string) | Pipe | RedirectIn | RedirectOut | RedirectAppend | Ampersand | End | Error

  /** isspace in the C locale */
  predicate IsSpace(c: char) { c == ' ' || c == '\t' || c == '\n' || c == '\r' || c == 11 as char || c == 12 as char }

  /** The characters that end a bare word. */
  predicate IsBreak(c: char) { IsSpace(c) || c == '|' || c == '&' || c == '<' || c == '>' || c == '"' || c == '\'' }

  /** Index of the first character at or after i that satisfies the test; |s| when there is none. */
  function SpanSpace(s: string, i: nat): (r: nat)
    requires i <= |s|
    ensures i <= r <= |s| && (r < |s| ==> !IsSpace(s[r])) && forall j :: i <= j < r ==> IsSpace(s[j])
    decreases |s| - i
  {
    if i < |s| && IsSpace(s[i]) then SpanSpace(s, i + 1) else i
  }

  function SpanQuote(s: string, i: nat, quote: char): (r: nat)
    requires i <= |s|
    ensures i <= r <= |s| && (r < |s| ==> s[r] == quote) && forall j :: i <= j < r ==> s[j] != quote
    decreases |s| - i
  {
    if i < |s| && s[i] != quote then SpanQuote(s, i + 1, quote) else i
  }

  function SpanWord(s: string, i: nat): (r: nat)
    requires i <= |s|
    ensures i <= r <= |s| && (r < |s| ==> IsBreak(s[r])) && forall j :: i <= j < r ==> !IsBreak(s[j])
    decreases |s| - i
  {
    if i < |s| && !IsBreak(s[i]) then SpanWord(s, i + 1) else i
  }

  function QuotedAt(s: string, p: nat): (r: (Token, nat))
    requires p < |s|
    ensures p < r.1 <= |s| && r.0.Word?
  {
    var q := SpanQuote(s, p + 1, s[p]);
    (Word(s[p + 1..q]), if q < |s| then q + 1 else q)
  }

  function BareAt(s: string, p: nat): (r: (Token, nat))
    requires p < |s|
    ensures p <= r.1 <= |s| && r.0.Word? && (!IsBreak(s[p]) ==> p < r.1)
  {
    var q := SpanWord(s, p);
    (Word(s[p..q]), q)
  }

  /** lexer_next_token: the token at pos and the position after it. */
  function Next(s: string, pos: nat): (r: (Token, nat))
    requires pos <= |s|
    ensures pos <= r.1 <= |s| && (r.0 != End ==> pos < r.1)
  {
    var p := SpanSpace(s, pos);
    if p == |s| then (End, p)
    else if s[p] == '|' then (Pipe, p + 1)
    else if s[p] == '&' then (Ampersand, p + 1)
    else if s[p] == '<' then (RedirectIn, p + 1)
    else if s[p] == '>' then (if p + 1 < |s| && s[p + 1] == '>' then (RedirectAppend, p + 2) else (RedirectOut, p + 1))
    else if s[p] == '"' || s[p] == '\'' then QuotedAt(s, p)
    else BareAt(s, p)
  }

  /** All tokens from pos, END included. */
  function Tokens(s: string, pos: nat): (ts: seq<Token>)
    requires pos <= |s|
    ensures |ts| > 0 && ts[|ts| - 1] == End && forall i :: 0 <= i < |ts| - 1 ==> ts[i] != End
    ensures Error !in ts
    decreases |s| - pos
  {
    var (t, q) := Next(s, pos);
    if t == End then [End] else [t] + Tokens(s, q)
  }

  /** The lexer object: input is a C string, so it holds no NUL. */
  class Lexer {
    const input: string
    const length: nat
    var pos: nat

    ghost predicate Valid()
      reads this
    {
      length == |input| && pos <= length && CString(input)
    }

    constructor (s: string)
      requires CString(s)
      ensures Valid() && input == s && pos == 0
    {
      input, length, pos := s, |s|, 0;
    }

    method Peek() returns (c: char)
      requires Valid()
      ensures c == if pos < |input| then input[pos] else '\0'
    {
      return if pos >= length then '\0' else input[pos];
    }

    method Advance()
      requires Valid()
      modifies this`pos
      ensures Valid() && pos == if old(pos) < |input| then old(pos) + 1 else old(pos)
    {
      var c := Peek();
      if c != '\0' { pos := pos + 1; }
    }

    method SkipWhitespace()
      requires Valid()
      modifies this`pos
      ensures Valid() && pos == SpanSpace(input, old(pos))
    {
      while pos < length && IsSpace(input[pos])
        invariant Valid() && SpanSpace(input, pos) == SpanSpace(input, old(pos))
        decreases length - pos
      {
        pos := pos + 1;
      }
    }

    method NextToken() returns (t: Token)
      requires Valid()
      modifies this`pos
      ensures Valid() && (t, pos) == Next(input, old(pos))
    {
      SkipWhitespace();
      var c := Peek();
      if c == '\0' { return End; }
      if c == '|' { Advance(); return Pipe; }
      if c == '&' { Advance(); return Ampersand; }
      if c == '<' { Advance(); return RedirectIn; }
      if c == '>' {
        Advance();
        var d := Peek();
        if d == '>' { Advance(); return RedirectAppend; }
        return RedirectOut;
      }
      if c == '"' || c == '\'' { t := Quoted(c); } else { t := Bare(); }
    }

    method Quoted(quote: char) returns (t: Token)
      requires Valid() && pos < length && input[pos] == quote
      modifies this`pos
      ensures Valid() && var q := SpanQuote(input, old(pos) + 1, quote);
              t == Word(input[old(pos) + 1..q]) && pos == if q < |input| then q + 1 else q
    {
      Advance();
      var start := pos;
      while pos < length && input[pos] != quote
        invariant Valid() && start <= pos && SpanQuote(input, pos, quote) == SpanQuote(input, start, quote)
        decreases length - pos
      {
        pos := pos + 1;
      }
      t := Word(input[start..pos]);
      var c := Peek();
      if c == quote { Advance(); }
    }

    method Bare() returns (t: Token)
      requires Valid()
      modifies this`pos
      ensures Valid() && pos == SpanWord(input, old(pos)) && t == Word(input[old(pos)..pos])
    {
      var start := pos;
      while pos < length && !IsBreak(input[pos])
        invariant Valid() && start <= pos && SpanWord(input, pos) == SpanWord(input, start)
        decreases length - pos
      {
        pos := pos + 1;
      }
      t := Word(input[start..pos]);
    }

    /** The loop of the main program: every token up to and including END. */
    method AllTokens() returns (ts: seq<Token>)
      requires Valid()
      modifies this`pos
      ensures Valid() && ts == Tokens(input, old(pos))
    {
      hide Next, Tokens;
      ts := [];
      var done := false;
      while !done
        invariant Valid()
        invariant if done then ts == Tokens(input, old(pos)) else ts + Tokens(input, pos) == Tokens(input, old(pos))
        decreases !done, length - pos
      {
        ghost var got := ts;
        TokensStep(input, pos);
        var t := NextToken();
        ts := ts + [t];
        done := t == End;
        assert !done ==> got + ([t] + Tokens(input, pos)) == ts + Tokens(input, pos);
      }
    }
  }

  lemma {:induction false} TokensStep(s: string, pos: nat)
    requires pos <= |s|
    ensures var (t, q) := Next(s, pos); Tokens(s, pos) == if t == End then [End] else [t] + Tokens(s, q)
  {
  }

  // ------------------------------------------- lexing a text piece by piece

  /** The tokens from pos depend only on the rest of the text. */
  lemma {:induction false} TokensOfSuffix(s: string, pos: nat)
    requires pos <= |s|
    ensures Tokens(s, pos) == Tokens(s[pos..], 0)
    decreases |s| - pos
  {
    NextOfSuffix(s, pos);
    var (t, q) := Next(s, pos);
    var (t0, q0) := Next(s[pos..], 0);
    if t != End {
      TokensOfSuffix(s, q);
      TokensOfSuffix(s[pos..], q0);
      assert s[pos..][q0..] == s[q..];
    }
  }

  lemma {:induction false} NextOfSuffix(s: string, pos: nat)
    requires pos <= |s|
    ensures Next(s[pos..], 0) == (Next(s, pos).0, Next(s, pos).1 - pos)
  {
    hide SpanSpace, QuotedAt, BareAt, IsSpace, IsBreak;
    SpanSpaceShift(s, pos, 0);
    var p := SpanSpace(s, pos);
    if p < |s| {
      QuotedShift(s, pos, p);
      BareShift(s, pos, p);
    }
  }

  lemma {:induction false} QuotedShift(s: string, pos: nat, p: nat)
    requires pos <= p < |s|
    ensures QuotedAt(s[pos..], p - pos) == (QuotedAt(s, p).0, QuotedAt(s, p).1 - pos)
  {
    hide SpanQuote;
    SpanQuoteShift(s, pos, p + 1 - pos, s[p]);
    var q := SpanQuote(s, p + 1, s[p]);
    assert s[pos..][p + 1 - pos..q - pos] == s[p + 1..q];
  }

  lemma {:induction false} BareShift(s: string, pos: nat, p: nat)
    requires pos <= p < |s|
    ensures BareAt(s[pos..], p - pos) == (BareAt(s, p).0, BareAt(s, p).1 - pos)
  {
    hide SpanWord;
    SpanWordShift(s, pos, p - pos);
    var q := SpanWord(s, p);
    assert s[pos..][p - pos..q - pos] == s[p..q];
  }

  lemma {:induction false} SpanSpaceShift(s: string, pos: nat, i: nat)
    requires pos + i <= |s|
    ensures SpanSpace(s[pos..], i) == SpanSpace(s, pos + i) - pos
    decreases |s| - i
  {
    if pos + i < |s| && IsSpace(s[pos + i]) { SpanSpaceShift(s, pos, i + 1); }
  }

  lemma {:induction false} SpanQuoteShift(s: string, pos: nat, i: nat, q: char)
    requires pos + i <= |s|
    ensures SpanQuote(s[pos..], i, q) == SpanQuote(s, pos + i, q) - pos
    decreases |s| - i
  {
    if pos + i < |s| && s[pos + i] != q { SpanQuoteShift(s, pos, i + 1, q); }
  }

  lemma {:induction false} SpanWordShift(s: string, pos: nat, i: nat)
    requires pos + i <= |s|
    ensures SpanWord(s[pos..], i) == SpanWord(s, pos + i) - pos
    decreases |s| - i
  {
    if pos + i < |s| && !IsBreak(s[pos + i]) { SpanWordShift(s, pos, i + 1); }
  }

  function Lex(s: string): seq<Token> { Tokens(s, 0) }

  /** A plain word: what can be typed without quotes. */
  predicate PlainWord(w: string) { w != "" && forall i :: 0 <= i < |w| ==> !IsBreak(w[i]) && w[i] != '\0' }

  predicate BreaksOff(rest: string) { rest == "" || IsBreak(rest[0]) }

  /** Blanks before a text do not change its tokens. */
  lemma {:induction false} LexSpace(c: char, rest: string)
    requires IsSpace(c)
    ensures Lex([c] + rest) == Lex(rest)
  {
    var s := [c] + rest;
    assert s[1..] == rest;
    NextOfSuffix(s, 1);
    TokensOfSuffix(s, 1);
    assert SpanSpace(s, 0) == SpanSpace(s, 1);
    assert Next(s, 0) == Next(s, 1);
    assert Tokens(s, 0) == Tokens(s, 1);
  }

  lemma {:induction false} LexPlain(w: string, rest: string)
    requires PlainWord(w) && BreaksOff(rest)
    ensures Lex(w + rest) == [Word(w)] + Lex(rest)
  {
    var s := w + rest;
    assert s[0] == w[0];
    assert SpanSpace(s, 0) == 0;
    SpanWordOver(s, 0, |w|);
    assert s[0..|w|] == w && s[|w|..] == rest;
    TokensOfSuffix(s, |w|);
  }

  lemma {:induction false} SpanWordOver(s: string, i: nat, j: nat)
    requires i <= j <= |s| && (forall k :: i <= k < j ==> !IsBreak(s[k])) && (j < |s| ==> IsBreak(s[j]))
    ensures SpanWord(s, i) == j
    decreases j - i
  {
    if i < j { SpanWordOver(s, i + 1, j); }
  }

  lemma {:induction false} LexOperator(c: char, rest: string)
    requires c == '|' || c == '&'
    ensures Lex([c] + rest) == [if c == '|' then Pipe else Ampersand] + Lex(rest)
  {
    var s := [c] + rest;
    assert s[1..] == rest;
    TokensOfSuffix(s, 1);
    assert SpanSpace(s, 0) == 0;
  }

  // ------------------------------------------- every form of token, by its characters

  /** Blanks before a text do not change its tokens: space, tab, newline, vertical tab, form feed, carriage return. */
  lemma {:induction false} LexBlank(c: char, rest: string)
    requires c == ' ' || c == '\t' || c == '\n' || c == 11 as char || c == 12 as char || c == '\r'
    ensures Lex([c] + rest) == Lex(rest)
  {
    LexSpace(c, rest);
  }

  /** The characters with a meaning of their own, blanks included. */
  predicate Special(c: char) {
    || c == ' ' || c == '\t' || c == '\n' || c == 11 as char || c == 12 as char || c == '\r'
    || c == '|' || c == '&' || c == '<' || c == '>' || c == '"' || c == '\''
  }

  /** A run of other characters is one word. */
  lemma {:induction false} LexBare(w: string, rest: string)
    requires w != "" && CString(w) && (forall i :: 0 <= i < |w| ==> !Special(w[i])) && (rest == "" || Special(rest[0]))
    ensures Lex(w + rest) == [Word(w)] + Lex(rest)
  {
    LexPlain(w, rest);
  }

  /** `|`, `&`, `<`, `>>`, and `>` when no other follows, are tokens of their own. */
  lemma {:induction false} LexSymbols(rest: string)
    ensures Lex("|" + rest) == [Pipe] + Lex(rest)
    ensures Lex("&" + rest) == [Ampersand] + Lex(rest)
    ensures Lex("<" + rest) == [RedirectIn] + Lex(rest)
    ensures Lex(">>" + rest) == [RedirectAppend] + Lex(rest)
    ensures rest == "" || rest[0] != '>' ==> Lex(">" + rest) == [RedirectOut] + Lex(rest)
  {
    hide QuotedAt, BareAt;
    LexSymbol("|", rest, Pipe);
    LexSymbol("&", rest, Ampersand);
    LexSymbol("<", rest, RedirectIn);
    LexSymbol(">>", rest, RedirectAppend);
    if rest == "" || rest[0] != '>' { LexSymbol(">", rest, RedirectOut); }
  }

  lemma {:induction false} LexSymbol(symbol: string, rest: string, t: Token)
    requires 1 <= |symbol| <= 2 && !IsSpace(symbol[0]) && t != End && Next(symbol + rest, 0) == (t, |symbol|)
    ensures Lex(symbol + rest) == [t] + Lex(rest)
  {
    var s := symbol + rest;
    assert s[|symbol|..] == rest;
    TokensOfSuffix(s, |symbol|);
  }

  /** Between two like quotes every other character stands for itself, blanks and symbols included. */
  lemma {:induction false} LexQuoted(q: char, w: string, rest: string)
    requires (q == '"' || q == '\'') && q !in w
    ensures Lex([q] + w + [q] + rest) == [Word(w)] + Lex(rest)
  {
    var s := [q] + w + [q] + rest;
    assert forall k :: 1 <= k < |w| + 1 ==> s[k] == w[k - 1];
    SpanQuoteOver(s, 1, |w| + 1, q);
    assert s[1..|w| + 1] == w;
    assert s[|w| + 2..] == rest;
    assert Next(s, 0) == (Word(w), |w| + 2);
    TokensOfSuffix(s, |w| + 2);
  }

  /** A quote that is not closed takes the rest of the text. */
  lemma {:induction false} LexUnclosed(q: char, w: string)
    requires (q == '"' || q == '\'') && q !in w
    ensures Lex([q] + w) == [Word(w), End]
  {
    var s := [q] + w;
    assert forall k :: 1 <= k < |s| ==> s[k] == w[k - 1];
    SpanQuoteOver(s, 1, |s|, q);
    assert s[1..|s|] == w;
    assert Next(s, 0) == (Word(w), |s|);
    assert Tokens(s, |s|) == [End];
  }

  lemma {:induction false} SpanQuoteOver(s: string, i: nat, j: nat, q: char)
    requires i <= j <= |s| && (forall k :: i <= k < j ==> s[k] != q) && (j < |s| ==> s[j] == q)
    ensures SpanQuote(s, i, q) == j
    decreases j - i
  {
    if i < j { SpanQuoteOver(s, i + 1, j, q); }
  }

  /** The empty text has no token but the end. */
  lemma {:induction false} LexEmpty()
    ensures Lex("") == [End]
  {
  }
}
