/** What the NanoBoot shell's tokenizer reads, from the writer's side: words in any mixture of bare and quoted pieces,
 *  and operators. */
module NanoReader {
  import opened Wrappers
  import opened NanoShell

  // ------------------------------------------------------------------ writing

  /** The characters that end a bare piece, besides quotes. */
  predicate Ends(c: char) {
    c == ' ' || c == '\t' || c == '\r' || c == '\n' || c == '|' || c == '<' || c == '>' || c == '&'
  }

  datatype Piece = Plain(s: string) | Single(s: string) | Double(s: string)

  predicate PieceOk(p: Piece) {
    && CString(p.s)
    && match p
       case Plain(s) => s != "" && forall i :: 0 <= i < |s| ==> !Ends(s[i]) && s[i] != '\'' && s[i] != '"'
       case Single(s) => '\'' !in s
       case Double(s) => '"' !in s
  }

  function SpellPiece(p: Piece): string {
    match p case Plain(s) => s case Single(s) => "'" + s + "'" case Double(s) => "\"" + s + "\""
  }

  function SpellWord(ps: seq<Piece>): string { if ps == [] then "" else SpellPiece(ps[0]) + SpellWord(ps[1..]) }

  function WordMeant(ps: seq<Piece>): string { if ps == [] then "" else ps[0].s + WordMeant(ps[1..]) }

  predicate WordWritable(ps: seq<Piece>) { ps != [] && forall i :: 0 <= i < |ps| ==> PieceOk(ps[i]) }

  predicate Apart(rest: string) { rest == "" || Ends(rest[0]) }

  // ------------------------------------------------------------------ words

  lemma {:induction false} InQuotes(s: string, q: char, rest: string)
    requires (q == '\'' || q == '"') && q !in s && CString(s)
    ensures var r := WordOf(rest, '\0'); WordOf(s + [q] + rest, q) == (s + r.0, r.1, r.2)
    decreases |s|
  {
    var t := s + [q] + rest;
    if s == "" {
      assert t[0] == q && t[1..] == rest;
      assert "" + WordOf(rest, '\0').0 == WordOf(rest, '\0').0;
    } else {
      assert t[0] == s[0] && t[1..] == s[1..] + [q] + rest;
      InQuotes(s[1..], q, rest);
      var r := WordOf(rest, '\0');
      assert [s[0]] + (s[1..] + r.0) == s + r.0;
    }
  }

  lemma {:induction false} BarePiece(s: string, rest: string)
    requires CString(s) && forall i :: 0 <= i < |s| ==> !Ends(s[i]) && s[i] != '\'' && s[i] != '"'
    ensures var r := WordOf(rest, '\0'); WordOf(s + rest, '\0') == (s + r.0, r.1, r.2)
    decreases |s|
  {
    var t := s + rest;
    if s == "" {
      assert t == rest && "" + WordOf(rest, '\0').0 == WordOf(rest, '\0').0;
    } else {
      assert t[0] == s[0] && t[1..] == s[1..] + rest;
      BarePiece(s[1..], rest);
      var r := WordOf(rest, '\0');
      assert [s[0]] + (s[1..] + r.0) == s + r.0;
    }
  }

  lemma {:induction false} QuoteOpens(q: char, t: string)
    requires q == '\'' || q == '"'
    ensures WordOf([q] + t, '\0') == WordOf(t, q)
  {
    assert ([q] + t)[1..] == t;
  }

  lemma {:induction false} OnePiece(p: Piece, rest: string)
    requires PieceOk(p)
    ensures var r := WordOf(rest, '\0'); WordOf(SpellPiece(p) + rest, '\0') == (p.s + r.0, r.1, r.2)
    ensures SpellPiece(p) != "" && !Ends(SpellPiece(p)[0])
  {
    hide WordOf;
    match p {
      case Plain(s) => BarePiece(s, rest);
      case Single(s) =>
        InQuotes(s, '\'', rest);
        QuoteOpens('\'', s + ['\''] + rest);
        assert SpellPiece(p) + rest == ['\''] + (s + ['\''] + rest);
      case Double(s) =>
        InQuotes(s, '"', rest);
        QuoteOpens('"', s + ['"'] + rest);
        assert SpellPiece(p) + rest == ['"'] + (s + ['"'] + rest);
    }
  }

  /** A word is the characters of its pieces, quotes left out, up to the first blank or operator outside quotes. */
  lemma {:induction false} WordRead(ps: seq<Piece>, rest: string)
    requires (forall i :: 0 <= i < |ps| ==> PieceOk(ps[i])) && Apart(rest)
    ensures WordOf(SpellWord(ps) + rest, '\0') == (WordMeant(ps), rest, '\0')
    decreases |ps|
  {
    hide PieceOk;
    if ps == [] {
      assert SpellWord(ps) + rest == rest;
      WordEnds(rest);
    } else {
      hide WordOf;
      OnePiece(ps[0], SpellWord(ps[1..]) + rest);
      WordRead(ps[1..], rest);
      assert SpellWord(ps) + rest == SpellPiece(ps[0]) + (SpellWord(ps[1..]) + rest);
    }
  }

  lemma {:induction false} WordEnds(rest: string)
    requires Apart(rest)
    ensures WordOf(rest, '\0') == ("", rest, '\0')
  {
  }

  /** The first 63 characters are kept. */
  function Kept(w: string): string { if |w| <= 63 then w else w[..63] }

  lemma {:induction false} ScanWord(ps: seq<Piece>, rest: string, n: nat, max: nat)
    requires WordWritable(ps) && Apart(rest)
    ensures Scan(SpellWord(ps) + rest, n, max) ==
              if n + 1 >= max then Failed(TooManyTokens)
              else Prepend([Token(TokWord, Kept(WordMeant(ps)))], Scan(rest, n + 1, max))
  {
    hide WordOf, PieceOk, Scan, Clip, Kept, Apart;
    var s := SpellWord(ps) + rest;
    WordFirst(ps, rest);
    NothingSkipped(s);
    WordRead(ps, rest);
    ClipIs(WordMeant(ps));
    if n + 1 >= max { ScanFull(s, n, max); }
    else { ScanToken(s, Token(TokWord, Clip(WordMeant(ps))), rest, n, max); }
  }

  lemma {:induction false} WordFirst(ps: seq<Piece>, rest: string)
    requires ps != [] && PieceOk(ps[0])
    ensures SpellWord(ps) + rest != "" && !Ends((SpellWord(ps) + rest)[0])
  {
    hide WordOf, PieceOk;
    OnePiece(ps[0], SpellWord(ps[1..]) + rest);
    assert SpellWord(ps) + rest == SpellPiece(ps[0]) + (SpellWord(ps[1..]) + rest);
  }

  lemma {:induction false} ClipIs(w: string)
    ensures Clip(w) == Kept(w)
  {
  }

  // ------------------------------------------------------------------ operators, blanks, open quotes

  lemma {:induction false} ScanOperators(rest: string, n: nat, max: nat)
    requires n + 1 < max
    ensures Scan("|" + rest, n, max) == Prepend([Token(TokPipe, "|")], Scan(rest, n + 1, max))
    ensures Scan("<" + rest, n, max) == Prepend([Token(TokRedirIn, "<")], Scan(rest, n + 1, max))
    ensures Scan("&" + rest, n, max) == Prepend([Token(TokAmpersand, "&")], Scan(rest, n + 1, max))
    ensures Scan(">>" + rest, n, max) == Prepend([Token(TokRedirAppend, ">>")], Scan(rest, n + 1, max))
    ensures rest == "" || rest[0] != '>' ==>
              Scan(">" + rest, n, max) == Prepend([Token(TokRedirOut, ">")], Scan(rest, n + 1, max))
  {
    ScanOperator("|", rest, n, max, TokPipe);
    ScanOperator("<", rest, n, max, TokRedirIn);
    ScanOperator("&", rest, n, max, TokAmpersand);
    ScanOperator(">>", rest, n, max, TokRedirAppend);
    if rest == "" || rest[0] != '>' { ScanOperator(">", rest, n, max, TokRedirOut); }
  }

  lemma {:induction false} ScanOperator(symbol: string, rest: string, n: nat, max: nat, kind: Kind)
    requires n + 1 < max && symbol != "" && Operator(symbol[0]) && OperatorOf(symbol + rest) == Token(kind, symbol)
    ensures Scan(symbol + rest, n, max) == Prepend([Token(kind, symbol)], Scan(rest, n + 1, max))
  {
    hide OperatorOf, WordOf;
    var s := symbol + rest;
    assert SkipBlanks(s) == s;
    assert s[|symbol|..] == rest;
  }

  lemma {:induction false} ScanBlanks(c: char, s: string, n: nat, max: nat)
    requires c == ' ' || c == '\t' || c == '\r' || c == '\n'
    ensures Scan([c] + s, n, max) == Scan(s, n, max)
  {
    assert ([c] + s)[1..] == s;
  }

  /** A word whose last quote is not closed makes the line fail. */
  lemma {:induction false} ScanOpen(ps: seq<Piece>, q: char, s: string, n: nat, max: nat)
    requires (forall i :: 0 <= i < |ps| ==> PieceOk(ps[i])) && (q == '\'' || q == '"') && q !in s && CString(s)
    requires n + 1 < max
    ensures Scan(SpellWord(ps) + [q] + s, n, max) == Failed(UnclosedQuote)
  {
    hide PieceOk, WordOf, Scan, OperatorOf, Clip, Ends;
    var line := SpellWord(ps) + [q] + s;
    OpenWord(ps, q, s);
    if ps != [] {
      WordFirst(ps, [q] + s);
      assert line == SpellWord(ps) + ([q] + s);
    } else {
      assert line[0] == q;
      QuotesEndNothing();
    }
    NothingSkipped(line);
    ScanUnclosed(line, n, max);
  }

  lemma {:induction false} QuotesEndNothing()
    ensures !Ends('\'') && !Ends('"')
  {
  }

  lemma {:induction false} NothingSkipped(s: string)
    requires s != "" && !Ends(s[0])
    ensures SkipBlanks(s) == s && !Operator(s[0])
  {
  }

  lemma {:induction false} OpenWord(ps: seq<Piece>, q: char, s: string)
    requires (forall i :: 0 <= i < |ps| ==> PieceOk(ps[i])) && (q == '\'' || q == '"') && q !in s && CString(s)
    ensures WordOf(SpellWord(ps) + [q] + s, '\0').2 == q
    decreases |ps|
  {
    hide PieceOk;
    if ps == [] {
      QuoteOpens(q, s);
      assert SpellWord(ps) + [q] + s == [q] + s;
      StaysOpen(s, q);
    } else {
      hide WordOf;
      OnePiece(ps[0], SpellWord(ps[1..]) + [q] + s);
      OpenWord(ps[1..], q, s);
      assert SpellWord(ps) + [q] + s == SpellPiece(ps[0]) + (SpellWord(ps[1..]) + [q] + s);
    }
  }

  lemma {:induction false} StaysOpen(s: string, q: char)
    requires q !in s && q != '\0'
    ensures WordOf(s, q).2 == q
    decreases |s|
  {
    if s != "" { StaysOpen(s[1..], q); }
  }

  // ------------------------------------------------------------------ whole lines

  datatype Item = Word(ps: seq<Piece>) | Bar | In | Out | Append | And

  function WriteItem(x: Item): string {
    match x
    case Word(ps) => SpellWord(ps)
    case Bar => "|"
    case In => "<"
    case Out => ">"
    case Append => ">>"
    case And => "&"
  }

  function TokenMeant(x: Item): Token {
    match x
    case Word(ps) => Token(TokWord, Kept(WordMeant(ps)))
    case Bar => Token(TokPipe, "|")
    case In => Token(TokRedirIn, "<")
    case Out => Token(TokRedirOut, ">")
    case Append => Token(TokRedirAppend, ">>")
    case And => Token(TokAmpersand, "&")
  }

  function WriteLine(xs: seq<Item>): string { if xs == [] then "" else WriteItem(xs[0]) + " " + WriteLine(xs[1..]) }

  function TokensMeant(xs: seq<Item>): seq<Token> { seq(|xs|, i requires 0 <= i < |xs| => TokenMeant(xs[i])) }

  lemma {:induction false} ScanItem(x: Item, rest: string, n: nat, max: nat)
    requires (x.Word? ==> WordWritable(x.ps)) && rest != "" && rest[0] == ' '
    ensures Scan(WriteItem(x) + rest, n, max) ==
              if n + 1 >= max then Failed(TooManyTokens) else Prepend([TokenMeant(x)], Scan(rest, n + 1, max))
  {
    hide Scan, WordWritable, SpellWord;
    if x.Word? { ScanWord(x.ps, rest, n, max); }
    else if n + 1 < max { ScanOperators(rest, n, max); }
    else { NoRoom(WriteItem(x), rest, n, max); }
  }

  lemma {:induction false} NoRoom(symbol: string, rest: string, n: nat, max: nat)
    requires symbol != "" && Operator(symbol[0]) && n + 1 >= max
    ensures Scan(symbol + rest, n, max) == Failed(TooManyTokens)
  {
    assert SkipBlanks(symbol + rest) == symbol + rest;
  }

  /** Reading what was written: a line of words and operators gives their tokens, each word's first 63 characters, if
   *  there is room for them and the end marker, and the token-limit error otherwise. */
  lemma {:induction false} LineRead(xs: seq<Item>, n: nat, max: nat)
    requires forall i :: 0 <= i < |xs| && xs[i].Word? ==> WordWritable(xs[i].ps)
    ensures Scan(WriteLine(xs), n, max)
         == if xs == [] || n + |xs| < max then Tokens(TokensMeant(xs)) else Failed(TooManyTokens)
    decreases |xs|
  {
    hide Scan, WordWritable, WriteItem, TokenMeant;
    if xs == [] {
      ScanNothing(n, max);
    } else {
      var more := WriteLine(xs[1..]);
      ScanItem(xs[0], [' '] + more, n, max);
      ScanBlanks(' ', more, n + 1, max);
      assert WriteLine(xs) == WriteItem(xs[0]) + ([' '] + more);
      LineRead(xs[1..], n + 1, max);
      assert TokensMeant(xs) == [TokenMeant(xs[0])] + TokensMeant(xs[1..]);
    }
  }
}
