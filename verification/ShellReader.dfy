/** What the lexer and the parser read, from the writer's side: any commands, written down in any order of arguments,
 *  redirections and ampersands, are read as what those do one after the other. */
module ShellReader {
  import opened Wrappers
  import opened ShellLexer
  import opened ShellParser

  datatype Item = Arg(w: string) | From(file: string) | To(file: string) | AppendTo(file: string) | Amp

  // ------------------------------------------------------------------ writing

  predicate Bare(w: string) { w != "" && forall i :: 0 <= i < |w| ==> !Special(w[i]) }

  /** A word can be written unless it holds both quotes. */
  predicate Writable(w: string) { CString(w) && ('"' !in w || '\'' !in w) }

  function Spell(w: string): string {
    if Bare(w) then w else if '"' !in w then "\"" + w + "\"" else "'" + w + "'"
  }

  function WriteItem(x: Item): string {
    match x
    case Arg(w) => " " + Spell(w)
    case From(f) => " <" + Spell(f)
    case To(f) => " > " + Spell(f)
    case AppendTo(f) => " >>" + Spell(f)
    case Amp => " &"
  }

  function WriteItems(xs: seq<Item>): string { if xs == [] then "" else WriteItem(xs[0]) + WriteItems(xs[1..]) }

  function Write(ps: seq<seq<Item>>): string
    requires ps != []
  {
    if |ps| == 1 then WriteItems(ps[0]) else WriteItems(ps[0]) + " |" + Write(ps[1..])
  }

  predicate ItemOk(x: Item) {
    match x
    case Arg(w) => Writable(w)
    case From(f) => Writable(f)
    case To(f) => Writable(f)
    case AppendTo(f) => Writable(f)
    case Amp => true
  }

  predicate AllOk(ps: seq<seq<Item>>) { forall i, j :: 0 <= i < |ps| && 0 <= j < |ps[i]| ==> ItemOk(ps[i][j]) }

  // ------------------------------------------------------------------ what is meant

  /** What one item does to the command read so far. */
  function Apply(c: Command, x: Item): Command {
    match x
    case Arg(w) => c.(argv := c.argv + [w])
    case From(f) => c.(input := Some(f))
    case To(f) => c.(output := Some(f), append := false)
    case AppendTo(f) => c.(output := Some(f), append := true)
    case Amp => c.(background := true)
  }

  function Meant(xs: seq<Item>): Command {
    if xs == [] then Command([], None, None, false, false) else Apply(Meant(xs[..|xs| - 1]), xs[|xs| - 1])
  }

  function MeantAll(ps: seq<seq<Item>>): seq<Command> { seq(|ps|, i requires 0 <= i < |ps| => Meant(ps[i])) }

  /** At most 16 commands of at most 63 arguments, each but the last with at least one. */
  predicate Readable(cmds: seq<Command>) {
    && |cmds| <= 16 && (forall i :: 0 <= i < |cmds| ==> |cmds[i].argv| <= 63)
    && (forall i :: 0 <= i < |cmds| - 1 ==> cmds[i].argv != [])
  }

  // ------------------------------------------------------------------ lexing what was written

  function ItemTokens(x: Item): seq<Token> {
    match x
    case Arg(w) => [Word(w)]
    case From(f) => [RedirectIn, Word(f)]
    case To(f) => [RedirectOut, Word(f)]
    case AppendTo(f) => [RedirectAppend, Word(f)]
    case Amp => [Ampersand]
  }

  function ItemsTokens(xs: seq<Item>): seq<Token> {
    if xs == [] then [] else ItemsTokens(xs[..|xs| - 1]) + ItemTokens(xs[|xs| - 1])
  }

  predicate Apart(rest: string) { rest == "" || rest[0] == ' ' }

  lemma {:induction false} LexSpelled(w: string, rest: string)
    requires Writable(w) && Apart(rest)
    ensures Lex(Spell(w) + rest) == [Word(w)] + Lex(rest)
  {
    hide Lex;
    if Bare(w) { LexBare(w, rest); }
    else if '"' !in w {
      LexQuoted('"', w, rest);
      assert Spell(w) + rest == ['"'] + w + ['"'] + rest;
    } else {
      LexQuoted('\'', w, rest);
      assert Spell(w) + rest == ['\''] + w + ['\''] + rest;
    }
  }

  /** A symbol, and a word right behind it or after a blank. */
  lemma {:induction false} LexTarget(symbol: string, gap: string, t: Token, f: string, rest: string)
    requires Writable(f) && Apart(rest) && (gap == "" || gap == " ")
    requires Lex(symbol + (gap + Spell(f) + rest)) == [t] + Lex(gap + Spell(f) + rest)
    ensures Lex(" " + symbol + gap + Spell(f) + rest) == [t, Word(f)] + Lex(rest)
  {
    hide Lex, Spell, Writable;
    var behind := Spell(f) + rest;
    LexSpelled(f, rest);
    LexBlank(' ', behind);
    assert gap + Spell(f) + rest == if gap == "" then behind else [' '] + behind;
    LexBlank(' ', symbol + (gap + Spell(f) + rest));
    assert " " + symbol + gap + Spell(f) + rest == [' '] + (symbol + (gap + Spell(f) + rest));
    assert [t] + ([Word(f)] + Lex(rest)) == [t, Word(f)] + Lex(rest);
  }

  lemma {:induction false} LexItem(x: Item, rest: string)
    requires ItemOk(x) && Apart(rest)
    ensures Lex(WriteItem(x) + rest) == ItemTokens(x) + Lex(rest)
  {
    hide Lex, Spell, Writable;
    match x {
      case Arg(w) =>
        LexSpelled(w, rest);
        LexBlank(' ', Spell(w) + rest);
        assert WriteItem(x) + rest == [' '] + (Spell(w) + rest);
      case From(f) =>
        LexSymbols("" + Spell(f) + rest);
        LexTarget("<", "", RedirectIn, f, rest);
        assert WriteItem(x) + rest == " " + "<" + "" + Spell(f) + rest;
      case To(f) =>
        LexSymbols(" " + Spell(f) + rest);
        LexTarget(">", " ", RedirectOut, f, rest);
        assert WriteItem(x) + rest == " " + ">" + " " + Spell(f) + rest;
      case AppendTo(f) =>
        LexSymbols("" + Spell(f) + rest);
        LexTarget(">>", "", RedirectAppend, f, rest);
        assert WriteItem(x) + rest == " " + ">>" + "" + Spell(f) + rest;
      case Amp =>
        LexSymbols(rest);
        LexBlank(' ', "&" + rest);
        assert WriteItem(x) + rest == [' '] + ("&" + rest);
    }
  }

  lemma {:induction false} ItemStarts(x: Item)
    ensures WriteItem(x) != "" && WriteItem(x)[0] == ' '
  {
    hide Spell;
  }

  lemma {:induction false} LexItems(xs: seq<Item>, rest: string)
    requires (forall j :: 0 <= j < |xs| ==> ItemOk(xs[j])) && Apart(rest)
    ensures Lex(WriteItems(xs) + rest) == ItemsTokens(xs) + Lex(rest) && Apart(WriteItems(xs) + rest)
    decreases |xs|
  {
    hide Lex, WriteItem, ItemTokens, ItemOk;
    if xs == [] {
      assert WriteItems(xs) + rest == rest;
    } else {
      var more := WriteItems(xs[1..]) + rest;
      LexItems(xs[1..], rest);
      LexItem(xs[0], more);
      ItemStarts(xs[0]);
      assert WriteItems(xs) + rest == WriteItem(xs[0]) + more;
      TokensFirst(xs);
      assert ItemTokens(xs[0]) + ItemsTokens(xs[1..]) + Lex(rest)
          == ItemTokens(xs[0]) + (ItemsTokens(xs[1..]) + Lex(rest));
    }
  }

  lemma {:induction false} TokensFirst(xs: seq<Item>)
    requires xs != []
    ensures ItemsTokens(xs) == ItemTokens(xs[0]) + ItemsTokens(xs[1..])
    decreases |xs|
  {
    hide ItemTokens;
    var n := |xs| - 1;
    if n > 0 {
      TokensFirst(xs[..n]);
      assert xs[..n][1..] == xs[1..][..n - 1];
    }
  }

  /** The parts with a pipe between any two. */
  function Piped(parts: seq<seq<Token>>): seq<Token>
    requires parts != []
  {
    if |parts| == 1 then parts[0] else Piped(parts[..|parts| - 1]) + [Pipe] + parts[|parts| - 1]
  }

  function PartsOf(ps: seq<seq<Item>>): seq<seq<Token>> { seq(|ps|, i requires 0 <= i < |ps| => ItemsTokens(ps[i])) }

  lemma {:induction false} PipedFirst(parts: seq<seq<Token>>)
    requires |parts| > 1
    ensures Piped(parts) == parts[0] + [Pipe] + Piped(parts[1..])
    decreases |parts|
  {
    var n := |parts| - 1;
    if n > 1 {
      PipedFirst(parts[..n]);
      assert parts[..n][1..] == parts[1..][..n - 1];
    }
  }

  lemma {:induction false} LexWritten(ps: seq<seq<Item>>)
    requires ps != [] && AllOk(ps)
    ensures Lex(Write(ps)) == Piped(PartsOf(ps)) + [End] && Apart(Write(ps))
    decreases |ps|
  {
    hide Lex, ItemOk, ItemsTokens, WriteItems;
    LexEmpty();
    if |ps| == 1 {
      LexItems(ps[0], "");
      assert WriteItems(ps[0]) + "" == WriteItems(ps[0]);
    } else {
      var more := Write(ps[1..]);
      assert AllOk(ps[1..]) by {
        forall i, j | 0 <= i < |ps[1..]| && 0 <= j < |ps[1..][i]| ensures ItemOk(ps[1..][i][j]) {
          assert ps[1..][i] == ps[i + 1];
        }
      }
      LexWritten(ps[1..]);
      LexSymbols(more);
      LexBlank(' ', "|" + more);
      assert [' '] + ("|" + more) == " |" + more;
      LexItems(ps[0], " |" + more);
      assert Write(ps) == WriteItems(ps[0]) + (" |" + more);
      PipedFirst(PartsOf(ps));
      assert PartsOf(ps)[1..] == PartsOf(ps[1..]);
    }
  }

  // ------------------------------------------------------------------ parsing it

  predicate EndsPlain(ts: seq<Token>) { ts == [] || !IsRedirect(ts[|ts| - 1]) }

  lemma {:induction false} ItemsPlain(xs: seq<Item>)
    ensures var ts := ItemsTokens(xs); EndsPlain(ts) && Pipe !in ts && Complete(ts) && NoEnd(ts)
    decreases |xs|
  {
    if xs != [] {
      var n := |xs| - 1;
      ItemsPlain(xs[..n]);
      CompleteMore(ItemsTokens(xs[..n]), ItemTokens(xs[n]));
    }
  }

  lemma {:induction false} CompleteMore(a: seq<Token>, b: seq<Token>)
    requires Complete(a) && Complete(b)
    ensures Complete(a + b)
  {
    var ts := a + b;
    forall i | 0 <= i < |ts| && IsRedirect(ts[i]) ensures i + 1 < |ts| && ts[i + 1].Word? {
      if i < |a| { assert a[i] == ts[i] && a[i + 1] == ts[i + 1]; }
      else { assert b[i - |a|] == ts[i] && b[i - |a| + 1] == ts[i + 1]; }
    }
  }

  /** The declarative reading of the tokens of some items is what the items do in turn. */
  lemma {:induction false} ItemsMean(xs: seq<Item>)
    ensures CommandOf(ItemsTokens(xs)) == Meant(xs)
    decreases |xs|
  {
    hide Args, Input, Output, Complete;
    if xs == [] {
      NewPart();
    } else {
      var n := |xs| - 1;
      ItemsMean(xs[..n]);
      ItemsPlain(xs[..n]);
      var pre := ItemsTokens(xs[..n]);
      match xs[n] {
        case Arg(w) => ArgsSnoc(pre, Word(w));
        case Amp =>
          ArgsSnoc(pre, Ampersand);
          assert Args(pre) + [] == Args(pre);
        case From(f) => TargetMeans(pre, RedirectIn, f);
        case To(f) => TargetMeans(pre, RedirectOut, f);
        case AppendTo(f) => TargetMeans(pre, RedirectAppend, f);
      }
    }
  }

  lemma {:induction false} TargetMeans(pre: seq<Token>, r: Token, f: string)
    requires IsRedirect(r)
    ensures var c, c' := CommandOf(pre), CommandOf(pre + [r, Word(f)]);
            c' == if r == RedirectIn then c.(input := Some(f))
                  else c.(output := Some(f), append := r == RedirectAppend)
  {
    hide Args, Input, Output;
    ArgsSnoc(pre, r);
    ArgsSnoc(pre + [r], Word(f));
    assert pre + [r, Word(f)] == (pre + [r]) + [Word(f)];
    assert Args(pre) + [] == Args(pre);
  }

  /** Splitting at pipes undoes joining with them. */
  lemma {:induction false} SplitPiped(parts: seq<seq<Token>>)
    requires parts != [] && forall i :: 0 <= i < |parts| ==> Pipe !in parts[i]
    ensures Split(Piped(parts)) == parts
    decreases |parts|
  {
    hide Split;
    var n := |parts| - 1;
    if n == 0 {
      NoPipe([], parts[0]);
      SplitNone();
      assert [] + parts[0] == parts[0];
    } else {
      SplitPiped(parts[..n]);
      var pre := Piped(parts[..n]);
      SplitSnoc(pre, Pipe);
      NoPipe(pre + [Pipe], parts[n]);
      assert [] + parts[n] == parts[n];
      assert parts == parts[..n] + [parts[n]];
    }
  }

  lemma {:induction false} SplitNone()
    ensures Split([]) == [[]]
  {
  }

  /** Tokens other than pipes extend the last part. */
  lemma {:induction false} NoPipe(pre: seq<Token>, ts: seq<Token>)
    requires Pipe !in ts
    ensures var p := Split(pre); Split(pre + ts) == p[..|p| - 1] + [p[|p| - 1] + ts]
    decreases |ts|
  {
    hide Split;
    var p := Split(pre);
    if ts == [] {
      assert pre + ts == pre && p[|p| - 1] + ts == p[|p| - 1];
    } else {
      var n := |ts| - 1;
      NoPipe(pre, ts[..n]);
      assert pre + ts == (pre + ts[..n]) + [ts[n]];
      SplitSnoc(pre + ts[..n], ts[n]);
      assert p[|p| - 1] + ts[..n] + [ts[n]] == p[|p| - 1] + ts;
    }
  }

  lemma {:induction false} PipedComplete(parts: seq<seq<Token>>)
    requires parts != [] && forall i :: 0 <= i < |parts| ==> Complete(parts[i]) && NoEnd(parts[i])
    ensures Complete(Piped(parts)) && NoEnd(Piped(parts))
    decreases |parts|
  {
    hide Complete;
    var n := |parts| - 1;
    if n > 0 {
      PipedComplete(parts[..n]);
      CompleteSnoc(Piped(parts[..n]), Pipe);
      CompleteMore(Piped(parts[..n]) + [Pipe], parts[n]);
    }
  }

  lemma {:induction false} LimitsAre(parts: seq<seq<Token>>)
    ensures WithinLimits(parts) <==> Readable(Commands(parts))
  {
    hide Args, Input, Output;
    forall i | 0 <= i < |parts| ensures Commands(parts)[i].argv == Args(parts[i]) {}
    if Readable(Commands(parts)) {
      forall i | 0 <= i < |parts| ensures |Args(parts[i])| < MAX_ARGS {
        assert Commands(parts)[i].argv == Args(parts[i]);
      }
      forall i | 0 <= i < |parts| - 1 ensures Args(parts[i]) != [] { assert Commands(parts)[i].argv == Args(parts[i]); }
    }
  }

  /** Reading what was written: every pipeline of items whose words can be written at all is read as what its items do
   *  in turn, the last redirection of a kind winning, if it keeps the limits, and refused if it does not. */
  lemma {:induction false} ReadsBack(ps: seq<seq<Item>>)
    requires ps != [] && AllOk(ps)
    ensures Parse(Lex(Write(ps))) == if Readable(MeantAll(ps)) then Some(MeantAll(ps)) else None
  {
    hide Lex, Write, Split, Complete, Body, CommandOf, ItemsTokens, Piped, WithinLimits, Readable, NoEnd, Meant;
    var parts := PartsOf(ps);
    LexWritten(ps);
    forall i | 0 <= i < |parts|
      ensures Pipe !in parts[i] && Complete(parts[i]) && NoEnd(parts[i]) && CommandOf(parts[i]) == Meant(ps[i])
    {
      ItemsPlain(ps[i]);
      ItemsMean(ps[i]);
    }
    SplitPiped(parts);
    PipedComplete(parts);
    BodyEnds(Piped(parts));
    LimitsAre(parts);
    assert Commands(parts) == MeantAll(ps);
  }

  lemma {:induction false} BodyEnds(ts: seq<Token>)
    requires NoEnd(ts)
    ensures Body(ts + [End]) == ts
  {
    BodyOfPrefix(ts, [End]);
    assert Body([End]) == [];
  }

  /** A redirection without a file name refuses the whole line, wherever it stands. */
  lemma {:induction false} DanglingRefused(ps: seq<seq<Item>>, r: Token, rest: seq<Token>)
    requires ps != [] && (r == RedirectIn || r == RedirectOut || r == RedirectAppend) && (rest == [] || !rest[0].Word?)
    ensures Parse(Piped(PartsOf(ps)) + [r] + rest) == None
  {
    hide Parse, Complete;
    var parts := PartsOf(ps);
    forall i | 0 <= i < |parts| ensures Complete(parts[i]) && NoEnd(parts[i]) { ItemsPlain(ps[i]); }
    PipedComplete(parts);
    var pre := Piped(parts);
    assert pre + [r] + rest == pre + ([r] + rest);
    BadToken(pre + [r] + rest, pre, [r] + rest);
  }
}
