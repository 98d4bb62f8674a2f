/** The NanoBoot shell's tokenizer and number routines (NanoBoot/user/sh.c). */
module NanoShell {
  import opened Wrappers

  const MAX_TOKEN_LEN := 64

  datatype Kind = TokEnd | TokWord | TokPipe | TokRedirIn | TokRedirOut | TokRedirAppend | TokAmpersand

  datatype Token = Token(kind: Kind, val: string)

  datatype Fault = TooManyTokens | UnclosedQuote

  datatype Outcome = Tokens(list: seq<Token>) | Failed(fault: Fault)

  predicate Blank(c: char) { c == ' ' || c == '\t' || c == '\r' || c == '\n' }

  predicate Operator(c: char) { c == '|' || c == '<' || c == '>' || c == '&' }

  predicate Quote(c: char) { c == '\'' || c == '"' }

  // ------------------------------------------------------------------ the specification

  function SkipBlanks(s: string): (r: string)
    ensures |r| <= |s| && (r != "" ==> !Blank(r[0]))
  {
    if s != "" && Blank(s[0]) then SkipBlanks(s[1..]) else s
  }

  /** The word at the front of s: its characters, what follows it, and the quote still open at its end. A quote may
   *  open and close anywhere in a word; NUL stands for no open quote. */
  function WordOf(s: string, quote: char): (r: (string, string, char))
    ensures |r.1| <= |s| && (s != "" && (quote != '\0' || (!Blank(s[0]) && !Operator(s[0]))) ==> |r.1| < |s|)
  {
    if s == "" then ("", s, quote)
    else if quote == '\0' && Quote(s[0]) then WordOf(s[1..], s[0])
    else if quote == '\0' && (Blank(s[0]) || Operator(s[0])) then ("", s, quote)
    else if quote == s[0] then WordOf(s[1..], '\0')
    else var r := WordOf(s[1..], quote); ([s[0]] + r.0, r.1, r.2)
  }

  /** The operator at the front of s. */
  function OperatorOf(s: string): (t: Token)
    requires s != "" && Operator(s[0])
    ensures 1 <= |t.val| <= 2 && |t.val| <= |s| && t.kind != TokWord && t.kind != TokEnd
  {
    if s[0] == '|' then Token(TokPipe, "|")
    else if s[0] == '<' then Token(TokRedirIn, "<")
    else if s[0] == '&' then Token(TokAmpersand, "&")
    else if |s| > 1 && s[1] == '>' then Token(TokRedirAppend, ">>")
    else Token(TokRedirOut, ">")
  }

  /** Words longer than a token buffer lose their tail. */
  function Clip(w: string): (r: string)
    ensures |r| < MAX_TOKEN_LEN
  {
    if |w| < MAX_TOKEN_LEN then w else w[..MAX_TOKEN_LEN - 1]
  }

  function Prepend(ts: seq<Token>, o: Outcome): Outcome { match o case Tokens(l) => Tokens(ts + l) case Failed(f) => o }

  /** The tokens of s when n are already stored and the array holds max. */
  function Scan(s: string, n: nat, max: nat): Outcome
    decreases |s|
  {
    var p := SkipBlanks(s);
    if p == "" then Tokens([])
    else if n + 1 >= max then Failed(TooManyTokens)
    else if Operator(p[0]) then Prepend([OperatorOf(p)], Scan(p[|OperatorOf(p).val|..], n + 1, max))
    else
      var (w, rest, quote) := WordOf(p, '\0');
      if quote != '\0' then Failed(UnclosedQuote) else Prepend([Token(TokWord, Clip(w))], Scan(rest, n + 1, max))
  }

  // ------------------------------------------------------------------ quoting and joining words

  function Quoted(w: string): string { "'" + w + "'" }

  function Joined(ws: seq<string>): string {
    if ws == [] then "" else Quoted(ws[0]) + (if |ws| == 1 then "" else " " + Joined(ws[1..]))
  }

  function Words(ws: seq<string>): seq<Token> {
    seq(|ws|, i requires 0 <= i < |ws| => Token(TokWord, Clip(ws[i])))
  }

  predicate Quotable(ws: seq<string>) { forall i :: 0 <= i < |ws| ==> '\'' !in ws[i] && '\0' !in ws[i] }

  /** Inside single quotes every character stands for itself up to the closing quote. */
  lemma {:induction false} InsideQuotes(w: string, rest: string)
    requires '\'' !in w && (rest == "" || Blank(rest[0]))
    ensures WordOf(w + "'" + rest, '\'') == (w, rest, '\0')
    decreases |w|
  {
    var s := w + "'" + rest;
    if w == "" {
      assert s[1..] == rest;
    } else {
      assert s[0] == w[0] && s[1..] == w[1..] + "'" + rest;
      InsideQuotes(w[1..], rest);
      assert w == [w[0]] + w[1..];
    }
  }

  lemma {:induction false} ScanQuoted(w: string, rest: string, n: nat, max: nat)
    requires '\'' !in w && (rest == "" || Blank(rest[0]))
    ensures Scan(Quoted(w) + rest, n, max)
         == if n + 1 >= max then Failed(TooManyTokens) else Prepend([Token(TokWord, Clip(w))], Scan(rest, n + 1, max))
  {
    var s := Quoted(w) + rest;
    assert s[0] == '\'' && s[1..] == w + "'" + rest;
    InsideQuotes(w, rest);
    assert SkipBlanks(s) == s;
    assert WordOf(s, '\0') == (w, rest, '\0');
  }

  lemma {:induction false} ScanBlank(s: string, n: nat, max: nat)
    ensures Scan(" " + s, n, max) == Scan(s, n, max)
  {
    assert (" " + s)[1..] == s;
  }

  /** Quoting and joining any words and tokenizing the line gives back those words, each cut to 63 characters, exactly
   *  when there is room for them and the end marker. */
  lemma {:induction false} JoinedScans(ws: seq<string>, n: nat, max: nat)
    requires Quotable(ws)
    ensures Scan(Joined(ws), n, max)
         == if ws == [] || n + |ws| < max then Tokens(Words(ws)) else Failed(TooManyTokens)
    decreases |ws|
  {
    hide Scan;
    if ws == [] {
      ScanNothing(n, max);
    } else {
      var rest := if |ws| == 1 then "" else " " + Joined(ws[1..]);
      ScanQuoted(ws[0], rest, n, max);
      if |ws| == 1 { ScanNothing(n + 1, max); } else { ScanBlank(Joined(ws[1..]), n + 1, max); }
      JoinedScans(ws[1..], n + 1, max);
      assert Words(ws) == [Token(TokWord, Clip(ws[0]))] + Words(ws[1..]);
    }
  }

  lemma {:induction false} ScanNothing(n: nat, max: nat)
    ensures Scan("", n, max) == Tokens([])
  {
  }

  /** For the shell's own limits: words survive quoting, joining and tokenizing if and only if there are at most 31
   *  of them and each has at most 63 characters. */
  lemma {:induction false} TokenizeRoundTrip(ws: seq<string>)
    requires Quotable(ws)
    ensures Scan(Joined(ws), 0, 32) == Tokens(seq(|ws|, i requires 0 <= i < |ws| => Token(TokWord, ws[i])))
       <==> |ws| <= 31 && forall i :: 0 <= i < |ws| ==> |ws[i]| <= 63
  {
    JoinedScans(ws, 0, 32);
    var exact := seq(|ws|, i requires 0 <= i < |ws| => Token(TokWord, ws[i]));
    if |ws| <= 31 {
      forall i | 0 <= i < |ws| ensures Words(ws)[i] == exact[i] <==> |ws[i]| <= 63 { }
      if forall i :: 0 <= i < |ws| ==> |ws[i]| <= 63 { assert Words(ws) == exact; }
      else { var i :| 0 <= i < |ws| && |ws[i]| > 63; assert Words(ws)[i] != exact[i]; }
    }
  }

  // ------------------------------------------------------------------ the code

  /** Row k of the token array holds text as a C string. */
  ghost predicate Holds(vals: array2<char>, k: nat, text: string)
    requires k < vals.Length0 && vals.Length1 == MAX_TOKEN_LEN
    reads vals
  {
    |text| < MAX_TOKEN_LEN && (forall j :: 0 <= j < |text| ==> vals[k, j] == text[j]) && vals[k, |text|] == '\0'
  }

  ghost predicate Stored(kinds: array<Kind>, vals: array2<char>, ts: seq<Token>)
    requires |ts| <= vals.Length0 == kinds.Length && vals.Length1 == MAX_TOKEN_LEN
    reads kinds, vals
  {
    forall k :: 0 <= k < |ts| ==> kinds[k] == ts[k].kind && Holds(vals, k, ts[k].val)
  }

  method SkipWhitespace(line: string, from: nat) returns (p: nat)
    requires from <= |line|
    ensures from <= p <= |line| && line[p..] == SkipBlanks(line[from..])
  {
    p := from;
    while p < |line| && Blank(line[p])
      invariant from <= p <= |line| && SkipBlanks(line[p..]) == SkipBlanks(line[from..])
      decreases |line| - p
    {
      assert line[p..][1..] == line[p + 1..];
      p := p + 1;
    }
  }

  /** The inner loop: copy the word at p into row k, dropping what does not fit. */
  method ReadWord(line: string, from: nat, vals: array2<char>, k: nat) returns (p: nat, inQuote: char)
    requires from <= |line| && CString(line) && k < vals.Length0 && vals.Length1 == MAX_TOKEN_LEN
    modifies vals
    ensures from <= p <= |line|
    ensures var w := WordOf(line[from..], '\0'); line[p..] == w.1 && inQuote == w.2 && Holds(vals, k, Clip(w.0))
    ensures forall i, j :: 0 <= i < vals.Length0 && 0 <= j < MAX_TOKEN_LEN && i != k ==> vals[i, j] == old(vals[i, j])
  {
    hide WordOf, Blank, Operator, Quote;
    ghost var full := WordOf(line[from..], '\0');
    ghost var seen: string := "";
    var vlen := 0;
    var done := false;
    p, inQuote := from, '\0';
    assert "" + full.0 == full.0;
    while !done && p < |line|
      invariant from <= p <= |line|
      invariant vlen == |Clip(seen)| && forall j :: 0 <= j < vlen ==> vals[k, j] == seen[j]
      invariant var w := WordOf(line[p..], inQuote); full == (seen + w.0, w.1, w.2)
      invariant done ==> WordOf(line[p..], inQuote) == ("", line[p..], inQuote)
      invariant forall i, j :: 0 <= i < vals.Length0 && 0 <= j < MAX_TOKEN_LEN && i != k ==>
           vals[i, j] == old(vals[i, j])
      decreases !done, |line| - p
    {
      WordStep(line, p, inQuote);
      if inQuote == '\0' && Quote(line[p]) {
        inQuote := line[p];
        p := p + 1;
      } else if inQuote == '\0' && (Blank(line[p]) || Operator(line[p])) {
        done := true;
      } else if line[p] == inQuote {
        inQuote := '\0';
        p := p + 1;
      } else {
        if vlen < MAX_TOKEN_LEN - 1 {
          vals[k, vlen] := line[p];
          vlen := vlen + 1;
        }
        Push(seen, line[p], WordOf(line[p + 1..], inQuote).0);
        seen := seen + [line[p]];
        p := p + 1;
      }
    }
    WordStops(line[p..], inQuote);
    assert seen + "" == seen;
    assert full == (seen, line[p..], inQuote);
    vals[k, vlen] := '\0';
  }

  lemma {:induction false} Push(a: string, c: char, b: string)
    ensures (a + [c]) + b == a + ([c] + b)
  {
  }

  lemma {:induction false} WordStops(s: string, quote: char)
    ensures s == "" ==> WordOf(s, quote) == ("", s, quote)
  {
  }

  lemma {:induction false} WordStep(line: string, p: nat, quote: char)
    requires p < |line|
    ensures var (c, s, t) := (line[p], line[p..], line[p + 1..]);
            if quote == '\0' && Quote(c) then WordOf(s, quote) == WordOf(t, c)
            else if quote == '\0' && (Blank(c) || Operator(c)) then WordOf(s, quote) == ("", s, quote)
            else if c == quote then WordOf(s, quote) == WordOf(t, '\0')
            else var r := WordOf(t, quote); WordOf(s, quote) == ([c] + r.0, r.1, r.2)
  {
    assert line[p..][1..] == line[p + 1..];
  }

  /** The operator branches. */
  method ReadOperator(line: string, p: nat, kinds: array<Kind>, vals: array2<char>, k: nat) returns (next: nat)
    requires p < |line| && Operator(line[p]) && k < vals.Length0 == kinds.Length && vals.Length1 == MAX_TOKEN_LEN
    modifies kinds, vals
    ensures var t := OperatorOf(line[p..]); next == p + |t.val| <= |line| && kinds[k] == t.kind && Holds(vals, k, t.val)
    ensures forall i :: 0 <= i < kinds.Length && i != k ==> kinds[i] == old(kinds[i])
    ensures forall i, j :: 0 <= i < vals.Length0 && 0 <= j < MAX_TOKEN_LEN && i != k ==> vals[i, j] == old(vals[i, j])
  {
    vals[k, 0] := line[p];
    if line[p] == '>' && p + 1 < |line| && line[p + 1] == '>' {
      kinds[k] := TokRedirAppend;
      vals[k, 1] := '>';
      vals[k, 2] := '\0';
      return p + 2;
    }
    kinds[k] := if line[p] == '|' then TokPipe else if line[p] == '<' then TokRedirIn
                else if line[p] == '>' then TokRedirOut else TokAmpersand;
    vals[k, 1] := '\0';
    return p + 1;
  }

  /** The non-blank text s starts with token t and goes on as rest, or with a quote that is never closed. */
  ghost predicate Starts(s: string, t: Token, rest: string) {
    && s != ""
    && if Operator(s[0]) then t == OperatorOf(s) && rest == s[|t.val|..]
       else var w := WordOf(s, '\0'); w.2 == '\0' && t == Token(TokWord, Clip(w.0)) && rest == w.1
  }

  ghost predicate Unclosed(s: string) { s != "" && !Operator(s[0]) && WordOf(s, '\0').2 != '\0' }

  /** The body of the loop once blanks are skipped and there is room. */
  method ReadToken(line: string, p: nat, k: nat, kinds: array<Kind>, vals: array2<char>, ghost ts: seq<Token>)
    returns (next: nat, ok: bool, ghost token: Token)
    requires p < |line| && CString(line) && !Blank(line[p])
    requires k == |ts| < kinds.Length == vals.Length0 && vals.Length1 == MAX_TOKEN_LEN && Stored(kinds, vals, ts)
    modifies kinds, vals
    ensures p < next <= |line|
    ensures if ok then Starts(line[p..], token, line[next..]) && Stored(kinds, vals, ts + [token])
         else Unclosed(line[p..])
  {
    hide WordOf, OperatorOf, Clip, Operator;
    if Operator(line[p]) {
      token := OperatorOf(line[p..]);
      next := ReadOperator(line, p, kinds, vals, k);
      assert line[p..][|token.val|..] == line[next..];
      return next, true, token;
    }
    token := Token(TokWord, Clip(WordOf(line[p..], '\0').0));
    kinds[k] := TokWord;
    var inQuote;
    next, inQuote := ReadWord(line, p, vals, k);
    return next, inQuote == '\0', token;
  }

  /** tokenize: every write lands in the token array, and the array then holds exactly the specified tokens. */
  method Tokenize(line: string, kinds: array<Kind>, vals: array2<char>) returns (ntok: int, fault: Fault)
    requires CString(line) && 1 <= kinds.Length == vals.Length0 && vals.Length1 == MAX_TOKEN_LEN
    modifies kinds, vals
    ensures match Scan(line, 0, kinds.Length)
            case Tokens(ts) => ntok == |ts| && |ts| < kinds.Length && Stored(kinds, vals, ts + [Token(TokEnd, "")])
            case Failed(f) => ntok == -1 && fault == f
  {
    hide Scan, Starts, Unclosed, SkipBlanks, Stored, Prepend;
    var p, max, n: nat := 0, kinds.Length, 0;
    ghost var ts: seq<Token> := [];
    assert line[0..] == line;
    PrependNothing(Scan(line, 0, max));
    StoredNothing(kinds, vals);
    while p < |line|
      invariant p <= |line| && n == |ts| < max
      invariant Stored(kinds, vals, ts)
      invariant Scan(line, 0, max) == Prepend(ts, Scan(line[p..], |ts|, max))
      decreases |line| - p
    {
      ghost var s := line[p..];
      p := SkipWhitespace(line, p);
      if p == |line| {
        ScanEnds(s, n, max);
        break;
      }
      SkipStops(s);
      ScanFull(s, n, max);
      PrependEnd(ts);
      if n >= max - 1 { return -1, TooManyTokens; }
      var ok;
      ghost var token;
      p, ok, token := ReadToken(line, p, n, kinds, vals, ts);
      if !ok {
        ScanUnclosed(s, n, max);
        return -1, UnclosedQuote;
      }
      ScanToken(s, token, line[p..], n, max);
      PrependTwice(ts, token, Scan(line[p..], n + 1, max));
      ts := ts + [token];
      n := n + 1;
    }
    ScanEnds(line[p..], n, max);
    PrependEnd(ts);
    StoreEnd(n, kinds, vals, ts);
    return n, TooManyTokens;
  }

  method StoreEnd(n: nat, kinds: array<Kind>, vals: array2<char>, ghost ts: seq<Token>)
    requires n == |ts| < kinds.Length == vals.Length0 && vals.Length1 == MAX_TOKEN_LEN && Stored(kinds, vals, ts)
    modifies kinds, vals
    ensures Stored(kinds, vals, ts + [Token(TokEnd, "")])
  {
    kinds[n] := TokEnd;
    vals[n, 0] := '\0';
  }

  lemma {:induction false} StoredNothing(kinds: array<Kind>, vals: array2<char>)
    requires kinds.Length == vals.Length0 && vals.Length1 == MAX_TOKEN_LEN
    ensures Stored(kinds, vals, [])
  {
  }

  lemma {:induction false} PrependEnd(ts: seq<Token>)
    ensures Prepend(ts, Tokens([])) == Tokens(ts) && forall f :: Prepend(ts, Failed(f)) == Failed(f)
  {
    assert ts + [] == ts;
  }

  lemma {:induction false} PrependNothing(o: Outcome)
    ensures Prepend([], o) == o
  {
    if o.Tokens? { assert [] + o.list == o.list; }
  }

  lemma {:induction false} PrependTwice(ts: seq<Token>, t: Token, o: Outcome)
    ensures Prepend(ts, Prepend([t], o)) == Prepend(ts + [t], o)
  {
    if o.Tokens? { assert ts + ([t] + o.list) == (ts + [t]) + o.list; }
  }

  lemma {:induction false} ScanEnds(s: string, n: nat, max: nat)
    ensures s == "" || SkipBlanks(s) == "" ==> Scan(s, n, max) == Tokens([])
  {
  }

  lemma {:induction false} SkipStops(s: string)
    ensures SkipBlanks(s) != "" ==> !Blank(SkipBlanks(s)[0])
  {
  }

  lemma {:induction false} ScanFull(s: string, n: nat, max: nat)
    ensures SkipBlanks(s) != "" && n + 1 >= max ==> Scan(s, n, max) == Failed(TooManyTokens)
  {
  }

  lemma {:induction false} ScanUnclosed(s: string, n: nat, max: nat)
    requires Unclosed(SkipBlanks(s)) && n + 1 < max
    ensures Scan(s, n, max) == Failed(UnclosedQuote)
  {
  }

  lemma {:induction false} ScanToken(s: string, t: Token, rest: string, n: nat, max: nat)
    requires Starts(SkipBlanks(s), t, rest) && n + 1 < max
    ensures Scan(s, n, max) == Prepend([t], Scan(rest, n + 1, max))
  {
  }

  // ------------------------------------------------------------------ numbers

  const LONG_MAX := 0x7fff_ffff_ffff_ffff
  const ULONG_SIZE: nat := 0x1_0000_0000_0000_0000

  predicate Digit(c: char) { '0' <= c <= '9' }

  function DigitOf(d: nat): (c: char)
    requires d < 10
    ensures Digit(c) && DigitValue(c) == d
  {
    ('0' as int + d) as char
  }

  function DigitValue(c: char): nat
    requires Digit(c)
  {
    c as int - '0' as int
  }

  /** The decimal numeral of x, without leading zeros. */
  function Numeral(x: nat): (s: string)
    ensures s != "" && forall i :: 0 <= i < |s| ==> Digit(s[i])
  {
    if x < 10 then [DigitOf(x)] else Numeral(x / 10) + [DigitOf(x % 10)]
  }

  /** No leading zero, and "0" for zero. */
  lemma {:induction false} NumeralCanonical(x: nat)
    ensures Numeral(0) == "0" && (x > 0 ==> Numeral(x)[0] != '0')
    decreases x
  {
    if x >= 10 { NumeralCanonical(x / 10); }
  }

  /** The number spelled by the leading digits of s, continuing from x. */
  function ValueFrom(s: string, x: nat): nat
    decreases |s|
  {
    if s != "" && Digit(s[0]) then ValueFrom(s[1..], 10 * x + DigitValue(s[0])) else x
  }

  lemma {:induction false} ValueAppend(a: string, b: string, x: nat)
    requires forall i :: 0 <= i < |a| ==> Digit(a[i])
    ensures ValueFrom(a + b, x) == ValueFrom(b, ValueFrom(a, x))
    decreases |a|
  {
    if a == [] {
      assert a + b == b;
    } else {
      assert (a + b)[1..] == a[1..] + b;
      ValueAppend(a[1..], b, 10 * x + DigitValue(a[0]));
    }
  }

  /** Reading a numeral gives its number back, whatever non-digit text follows. */
  lemma {:induction false} NumeralRoundTrip(x: nat, rest: string)
    requires rest == "" || !Digit(rest[0])
    ensures ValueFrom(Numeral(x) + rest, 0) == x
    decreases x
  {
    ValueAppend(Numeral(x), rest, 0);
    var d := [DigitOf(x % 10)];
    assert d[1..] == "";
    if x >= 10 {
      NumeralRoundTrip(x / 10, "");
      assert Numeral(x / 10) + "" == Numeral(x / 10);
      ValueAppend(Numeral(x / 10), d, 0);
    }
  }

  function Pow10(n: nat): nat { if n == 0 then 1 else 10 * Pow10(n - 1) }

  /** The first loop of print_num: the digits of x, last one first, always fit in the buffer. */
  method CollectDigits(number: nat, b: array<char>) returns (i: nat)
    requires 0 < number <= LONG_MAX && b.Length == 32
    modifies b
    ensures i <= 31 && Backwards(b[..i]) == Numeral(number)
  {
    hide Numeral, Leading, Backwards, DigitOf;
    var x := number;
    i := 0;
    LongDigits();
    assert b[..0] == "";
    LeadingEdges(number);
    assert Numeral(x) + "" == Numeral(x);
    while x != 0 && i < 31
      invariant 0 <= x < Pow10(31 - i) && i <= 31
      invariant Numeral(number) == Leading(x) + Backwards(b[..i])
    {
      ghost var done := b[..i];
      b[i] := DigitOf(x % 10);
      i := i + 1;
      assert b[..i] == done + [DigitOf(x % 10)];
      BackwardsLast(done, DigitOf(x % 10));
      LeadingStep(x);
      Push(Leading(x / 10), DigitOf(x % 10), Backwards(done));
      x := x / 10;
    }
    assert "" + Backwards(b[..i]) == Backwards(b[..i]);
  }

  /** The digits still to be collected. */
  function Leading(x: nat): string { if x == 0 then "" else Numeral(x) }

  lemma {:induction false} LeadingEdges(x: nat)
    ensures (x > 0 ==> Leading(x) == Numeral(x)) && Leading(0) == "" && Backwards("") == "" && Numeral(0) == "0"
  {
  }

  lemma {:induction false} LeadingStep(x: nat)
    requires x > 0
    ensures Leading(x) == Leading(x / 10) + [DigitOf(x % 10)]
  {
  }

  lemma {:induction false} LongDigits()
    ensures LONG_MAX < Pow10(31)
  {
    assert Pow10(5) == 100000;
    assert Pow10(10) == 10000000000;
    assert Pow10(15) == 1000000000000000;
    assert Pow10(19) == 10000000000000000000;
    Pow10Grows(19, 31);
  }

  lemma {:induction false} Pow10Grows(m: nat, n: nat)
    requires m <= n
    ensures Pow10(m) <= Pow10(n)
    decreases n
  {
    if m < n { Pow10Grows(m, n - 1); }
  }

  /** print_num: the digits are collected backwards in a 32-byte buffer and written out in reverse. */
  method PrintNum(number: int) returns (out: string)
    requires -LONG_MAX <= number <= LONG_MAX
    ensures out == (if number < 0 then "-" + Numeral(-number) else Numeral(number))
  {
    hide Numeral, Backwards;
    LeadingEdges(0);
    var x := number;
    if x == 0 { return "0"; }
    out := "";
    if x < 0 { out := "-"; x := -x; }
    var b := new char[32](_ => '\0');
    var i := CollectDigits(x, b);
    ghost var all := out + Backwards(b[..i]);
    while i > 0
      invariant i <= 31 && out + Backwards(b[..i]) == all
    {
      i := i - 1;
      assert b[..i + 1] == b[..i] + [b[i]];
      BackwardsLast(b[..i], b[i]);
      out := out + [b[i]];
    }
    assert b[..0] == "" && out + "" == out;
  }

  function Backwards(s: string): string { if s == "" then "" else Backwards(s[1..]) + [s[0]] }

  lemma {:induction false} BackwardsLast(s: string, c: char)
    ensures Backwards(s + [c]) == [c] + Backwards(s)
    decreases |s|
  {
    if s != "" {
      assert (s + [c])[1..] == s[1..] + [c];
      BackwardsLast(s[1..], c);
    }
  }

  /** parse_num: unsigned arithmetic wraps modulo 2^64. */
  method ParseNum(s: string) returns (x: nat)
    ensures x == ValueFrom(s, 0) % ULONG_SIZE
  {
    x := 0;
    var i := 0;
    ghost var exact: nat := 0;
    assert s[0..] == s;
    while i < |s| && Digit(s[i])
      invariant 0 <= i <= |s| && x == exact % ULONG_SIZE && ValueFrom(s[i..], exact) == ValueFrom(s, 0)
      decreases |s| - i
    {
      assert s[i..][1..] == s[i + 1..];
      WrapStep(exact, DigitValue(s[i]));
      x := (x * 10 + DigitValue(s[i])) % ULONG_SIZE;
      exact := 10 * exact + DigitValue(s[i]);
      i := i + 1;
    }
  }

  lemma {:induction false} WrapStep(x: nat, d: nat)
    ensures ((x % ULONG_SIZE) * 10 + d) % ULONG_SIZE == (10 * x + d) % ULONG_SIZE
  {
    var q, r := x / ULONG_SIZE, x % ULONG_SIZE;
    WholeTurns(10 * r + d, 10 * q);
    assert 10 * x + d == (10 * r + d) + (10 * q) * ULONG_SIZE;
  }

  lemma {:induction false} WholeTurns(a: nat, k: nat)
    ensures (a + k * ULONG_SIZE) % ULONG_SIZE == a % ULONG_SIZE
    decreases k
  {
    if k > 0 {
      WholeTurns(a, k - 1);
      assert a + k * ULONG_SIZE == (a + (k - 1) * ULONG_SIZE) + ULONG_SIZE;
    }
  }

  /** What print_num writes for a non-negative long, parse_num reads back. */
  method PrintThenParse(x: nat, rest: string) returns (y: nat)
    requires x <= LONG_MAX && (rest == "" || !Digit(rest[0]))
    ensures y == x
  {
    var text := PrintNum(x);
    NumeralRoundTrip(x, rest);
    y := ParseNum(text + rest);
  }
}
