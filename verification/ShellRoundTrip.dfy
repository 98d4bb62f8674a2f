/** Printing a pipeline and reading it back. */
module ShellRoundTrip {
  import opened Wrappers
  import opened ShellLexer
  import opened ShellParser
  import opened ShellPrinter

  /** Plain words, no redirections, background only on the last command, within the limits, and only the last command
   *  may be empty. */
  predicate Printable(cmds: seq<Command>) {
    && 0 < |cmds| <= 16
    && (forall i :: 0 <= i < |cmds| ==> PlainCommand(cmds[i]))
    && (forall i :: 0 <= i < |cmds| - 1 ==> !cmds[i].background && cmds[i].argv != [])
  }

  predicate PlainCommand(c: Command) {
    && |c.argv| <= 63 && c.input == None && c.output == None && !c.append
    && forall j :: 0 <= j < |c.argv| ==> PlainWord(c.argv[j])
  }

  predicate PlainWords(ws: seq<string>) { forall j :: 0 <= j < |ws| ==> PlainWord(ws[j]) }

  // ------------------------------------------------------------- lexing the text

  function Spaced(ws: seq<string>): string { if ws == [] then "" else " " + ws[0] + Spaced(ws[1..]) }

  lemma {:induction false} AddWordsSpaced(text: string, ws: seq<string>)
    requires text != ""
    ensures AddWords(text, ws) == text + Spaced(ws)
    decreases |ws|
  {
    if ws != [] {
      AddWordsSpaced(text + " " + ws[0], ws[1..]);
      assert text + " " + ws[0] + Spaced(ws[1..]) == text + (" " + ws[0] + Spaced(ws[1..]));
    }
  }

  /** The text from command i on, when something precedes it. */
  function Rest(cmds: seq<Command>, i: nat): string
    requires i < |cmds|
    decreases |cmds| - i
  {
    Spaced(cmds[i].argv) +
    if i < |cmds| - 1 then " | " + Rest(cmds, i + 1) else if cmds[i].background then " &" else ""
  }

  lemma {:induction false} AddCommandsRest(text: string, cmds: seq<Command>, i: nat)
    requires text != "" && i < |cmds|
    ensures AddCommands(text, cmds, i) + (if cmds[|cmds| - 1].background then " &" else "") == text + Rest(cmds, i)
    decreases |cmds| - i
  {
    AddWordsSpaced(text, cmds[i].argv);
    var bg := if cmds[|cmds| - 1].background then " &" else "";
    var t1 := text + Spaced(cmds[i].argv);
    if i < |cmds| - 1 {
      AddCommandsRest(t1 + " | ", cmds, i + 1);
      assert t1 + " | " + Rest(cmds, i + 1) == text + (Spaced(cmds[i].argv) + (" | " + Rest(cmds, i + 1)));
    } else {
      assert t1 + "" == t1;
      assert AddCommands(t1, cmds, i + 1) == t1;
      assert t1 + bg == text + (Spaced(cmds[i].argv) + bg);
    }
  }

  /** Spaced words in front of a text: one WORD token each. */
  function Words(ws: seq<string>): seq<Token> { seq(|ws|, j requires 0 <= j < |ws| => Word(ws[j])) }

  lemma {:induction false} LexSpaced(ws: seq<string>, rest: string)
    requires PlainWords(ws) && BreaksOff(rest)
    ensures Lex(Spaced(ws) + rest) == Words(ws) + Lex(rest) && BreaksOff(Spaced(ws) + rest)
    decreases |ws|
  {
    hide Lex, PlainWord, Words;
    if ws == [] {
      assert Spaced(ws) + rest == rest;
      NoWords();
      assert [] + Lex(rest) == Lex(rest);
    } else {
      var more := Spaced(ws[1..]) + rest;
      LexSpaced(ws[1..], rest);
      LexPlain(ws[0], more);
      LexSpace(' ', ws[0] + more);
      assert Spaced(ws) + rest == [' '] + (ws[0] + more);
      WordsCons(ws);
      assert [Word(ws[0])] + Words(ws[1..]) + Lex(rest) == [Word(ws[0])] + (Words(ws[1..]) + Lex(rest));
    }
  }

  lemma {:induction false} NoWords()
    ensures Words([]) == []
  {
  }

  lemma {:induction false} WordsCons(ws: seq<string>)
    requires ws != []
    ensures Words(ws) == [Word(ws[0])] + Words(ws[1..])
  {
  }

  lemma {:induction false} WordsSnoc(ws: seq<string>)
    requires ws != []
    ensures Words(ws) == Words(ws[..|ws| - 1]) + [Word(ws[|ws| - 1])]
  {
  }

  function Closing(bg: bool): seq<Token> { if bg then [Ampersand, End] else [End] }

  function TokensOf(cmds: seq<Command>, i: nat): seq<Token>
    requires i < |cmds|
    decreases |cmds| - i
  {
    Words(cmds[i].argv) +
    if i < |cmds| - 1 then [Pipe] + TokensOf(cmds, i + 1) else Closing(cmds[i].background)
  }

  lemma {:induction false} LexNothing()
    ensures Lex("") == [End]
  {
  }

  lemma {:induction false} LexEnding(bg: bool)
    ensures Lex(if bg then " &" else "") == Closing(bg)
  {
    LexNothing();
    if bg {
      assert " &" == [' '] + (['&'] + "");
      LexOperator('&', "");
      LexSpace(' ', ['&'] + "");
    }
  }

  lemma {:induction false} LexPipe(rest: string)
    ensures Lex(" | " + rest) == [Pipe] + Lex(rest)
  {
    LexSpace(' ', rest);
    LexOperator('|', [' '] + rest);
    LexSpace(' ', ['|'] + ([' '] + rest));
    assert " | " + rest == [' '] + (['|'] + ([' '] + rest));
  }

  lemma {:induction false} LexRest(cmds: seq<Command>, i: nat)
    requires Printable(cmds) && i < |cmds|
    ensures Lex(Rest(cmds, i)) == TokensOf(cmds, i) && BreaksOff(Rest(cmds, i))
    decreases |cmds| - i
  {
    hide Lex, PlainWord, Words, Spaced;
    assert PlainCommand(cmds[i]);
    if i < |cmds| - 1 {
      LexRest(cmds, i + 1);
      LexPipe(Rest(cmds, i + 1));
      LexSpaced(cmds[i].argv, " | " + Rest(cmds, i + 1));
    } else {
      LexEnding(cmds[i].background);
      LexSpaced(cmds[i].argv, if cmds[i].background then " &" else "");
    }
  }

  /** The printed text without its leading blank. */
  lemma {:induction false} TextShape(cmds: seq<Command>)
    requires Printable(cmds) && cmds[0].argv != []
    ensures " " + Text(cmds) == Rest(cmds, 0)
  {
    hide AddCommands, Rest;
    FirstStep(cmds);
    assert PlainCommand(cmds[0]);
    var ws := cmds[0].argv;
    assert PlainWord(ws[0]);
    assert "" + "" + ws[0] == ws[0];
    AddWordsSpaced(ws[0], ws[1..]);
    var t1 := AddWords("", ws);
    assert t1 == ws[0] + Spaced(ws[1..]);
    assert " " + t1 == Spaced(ws);
    var bg := if cmds[|cmds| - 1].background then " &" else "";
    if |cmds| > 1 {
      AddCommandsRest(t1 + " | ", cmds, 1);
      assert " " + (t1 + " | " + Rest(cmds, 1)) == Spaced(ws) + (" | " + Rest(cmds, 1));
    } else {
      assert t1 + "" == t1 && AddCommands(t1, cmds, 1) == t1;
      assert " " + (t1 + bg) == Spaced(ws) + bg;
    }
  }

  lemma {:induction false} FirstStep(cmds: seq<Command>)
    requires cmds != []
    ensures AddCommands("", cmds, 0)
         == AddCommands(AddWords("", cmds[0].argv) + (if 0 < |cmds| - 1 then " | " else ""), cmds, 1)
    ensures |cmds| == 1 ==> forall t: string :: AddCommands(t, cmds, 1) == t
    ensures Rest(cmds, 0) == Spaced(cmds[0].argv) +
                             if 0 < |cmds| - 1 then " | " + Rest(cmds, 1) else if cmds[0].background then " &" else ""
  {
  }

  // ------------------------------------------------------------ parsing it back

  /** The tokens of the first i commands, each with its pipe. */
  function Before(cmds: seq<Command>, i: nat): seq<Token>
    requires i <= |cmds|
  {
    if i == 0 then [] else Before(cmds, i - 1) + Words(cmds[i - 1].argv) + [Pipe]
  }

  lemma {:induction false} TokensSplit(cmds: seq<Command>, i: nat)
    requires i < |cmds|
    ensures TokensOf(cmds, 0) == Before(cmds, i) + TokensOf(cmds, i)
  {
    if i > 0 {
      TokensSplit(cmds, i - 1);
      assert TokensOf(cmds, i - 1) == Words(cmds[i - 1].argv) + ([Pipe] + TokensOf(cmds, i));
    }
  }

  /** The parts with `more` appended to the last one. */
  function Extend(parts: seq<seq<Token>>, more: seq<Token>): seq<seq<Token>>
    requires |parts| > 0
  {
    parts[|parts| - 1 := parts[|parts| - 1] + more]
  }

  lemma {:induction false} ExtendFacts(parts: seq<seq<Token>>, a: seq<Token>, b: seq<Token>)
    requires |parts| > 0
    ensures Extend(parts, []) == parts && Extend(Extend(parts, a), b) == Extend(parts, a + b)
  {
    var last := parts[|parts| - 1];
    assert last + [] == last;
    assert last + a + b == last + (a + b);
  }

  lemma {:induction false} ExtendNew(parts: seq<seq<Token>>, a: seq<Token>)
    ensures Extend(parts + [[]], a) == parts + [a]
  {
    assert [] + a == a;
  }

  lemma {:induction false} SplitPlain(ts: seq<Token>, t: Token)
    requires t != Pipe
    ensures Split(ts + [t]) == Extend(Split(ts), [t])
  {
    hide Split;
    SplitSnoc(ts, t);
  }

  /** Plain tokens extend the last part. */
  lemma {:induction false} SplitWords(pre: seq<Token>, ws: seq<string>)
    ensures Split(pre + Words(ws)) == Extend(Split(pre), Words(ws))
    decreases |ws|
  {
    hide Split, Words, Extend;
    if ws == [] {
      NoWords();
      assert pre + [] == pre;
      ExtendFacts(Split(pre), [], []);
    } else {
      var n := |ws| - 1;
      SplitWords(pre, ws[..n]);
      WordsSnoc(ws);
      assert pre + Words(ws) == (pre + Words(ws[..n])) + [Word(ws[n])];
      SplitPlain(pre + Words(ws[..n]), Word(ws[n]));
      ExtendFacts(Split(pre), Words(ws[..n]), [Word(ws[n])]);
    }
  }

  function Parts(cmds: seq<Command>, i: nat): seq<seq<Token>>
    requires i <= |cmds|
  {
    seq(i, j requires 0 <= j < i => Words(cmds[j].argv))
  }

  lemma {:induction false} SplitBefore(cmds: seq<Command>, i: nat)
    requires i <= |cmds|
    ensures Split(Before(cmds, i)) == Parts(cmds, i) + [[]]
  {
    hide Split, Words, Extend;
    if i == 0 {
      SplitNothing();
    } else {
      SplitBefore(cmds, i - 1);
      var pre := Before(cmds, i - 1);
      SplitWords(pre, cmds[i - 1].argv);
      ExtendNew(Parts(cmds, i - 1), Words(cmds[i - 1].argv));
      SplitSnoc(pre + Words(cmds[i - 1].argv), Pipe);
      assert Parts(cmds, i) == Parts(cmds, i - 1) + [Words(cmds[i - 1].argv)];
    }
  }

  lemma {:induction false} SplitNothing()
    ensures Split([]) == [[]]
  {
  }

  lemma {:induction false} WordsCommand(ws: seq<string>)
    ensures CommandOf(Words(ws)) == Command(ws, None, None, false, false)
  {
    if ws != [] {
      var n := |ws| - 1;
      WordsCommand(ws[..n]);
      assert Words(ws) == Words(ws[..n]) + [Word(ws[n])];
      ArgsSnoc(Words(ws[..n]), Word(ws[n]));
    }
  }

  lemma {:induction false} LastCommand(ws: seq<string>, bg: bool)
    ensures CommandOf(Words(ws) + if bg then [Ampersand] else []) == Command(ws, None, None, false, bg)
  {
    WordsCommand(ws);
    if bg { ArgsSnoc(Words(ws), Ampersand); } else { assert Words(ws) + [] == Words(ws); }
  }

  lemma {:induction false} BeforePlain(cmds: seq<Command>, i: nat)
    requires i <= |cmds|
    ensures forall j :: 0 <= j < |Before(cmds, i)| ==> Before(cmds, i)[j].Word? || Before(cmds, i)[j] == Pipe
  {
    if i > 0 { BeforePlain(cmds, i - 1); }
  }

  lemma {:induction false} ParsesBack(cmds: seq<Command>)
    requires Printable(cmds)
    ensures Parse(TokensOf(cmds, 0)) == Some(cmds)
  {
    hide Split, Args, Body, Words, Before, PlainWord, Input, Output, Complete;
    var k := |cmds| - 1;
    var amp: seq<Token> := if cmds[k].background then [Ampersand] else [];
    var last := Words(cmds[k].argv) + amp;
    var body := Before(cmds, k) + last;
    BodyIs(cmds);
    SplitBody(cmds);
    assert PlainCommand(cmds[k]);
    LastCommand(cmds[k].argv, cmds[k].background);
    var parts := Split(body);
    forall j | 0 <= j < |parts| 
      ensures CommandOf(parts[j]) == cmds[j] && |Args(parts[j])| < MAX_ARGS && (j < k ==> Args(parts[j]) != [])
    {
      assert PlainCommand(cmds[j]);
      WordsCommand(cmds[j].argv);
      assert Args(parts[j]) == CommandOf(parts[j]).argv;
    }
    assert Commands(parts) == cmds;
  }

  lemma {:induction false} BodyIs(cmds: seq<Command>)
    requires Printable(cmds)
    ensures var k := |cmds| - 1;
            var amp: seq<Token> := if cmds[k].background then [Ampersand] else [];
            var body := Before(cmds, k) + (Words(cmds[k].argv) + amp);
            TokensOf(cmds, 0) != [] && Body(TokensOf(cmds, 0)) == body && Complete(body)
  {
    hide Body, Before;
    var k := |cmds| - 1;
    var amp: seq<Token> := if cmds[k].background then [Ampersand] else [];
    var body := Before(cmds, k) + (Words(cmds[k].argv) + amp);
    TokensSplit(cmds, k);
    assert TokensOf(cmds, 0) == body + [End];
    BeforePlain(cmds, k);
    BodyOfPrefix(body, [End]);
    BodyOfEnd();
  }

  lemma {:induction false} BodyOfEnd()
    ensures Body([End]) == []
  {
  }

  lemma {:induction false} SplitBody(cmds: seq<Command>)
    requires Printable(cmds)
    ensures var k := |cmds| - 1;
            var amp: seq<Token> := if cmds[k].background then [Ampersand] else [];
            Split(Before(cmds, k) + (Words(cmds[k].argv) + amp)) == Parts(cmds, k) + [Words(cmds[k].argv) + amp]
  {
    hide Split, Words, Extend, Before, Parts, PlainCommand;
    var k := |cmds| - 1;
    var ws := Words(cmds[k].argv);
    SplitBefore(cmds, k);
    SplitWords(Before(cmds, k), cmds[k].argv);
    if cmds[k].background {
      SplitPlain(Before(cmds, k) + ws, Ampersand);
      assert Before(cmds, k) + (ws + [Ampersand]) == (Before(cmds, k) + ws) + [Ampersand];
      ExtendFacts(Parts(cmds, k) + [[]], ws, [Ampersand]);
      ExtendNew(Parts(cmds, k), ws + [Ampersand]);
    } else {
      assert ws + [] == ws;
      ExtendNew(Parts(cmds, k), ws);
    }
  }

  /** A lone empty command prints as nothing, or as its ampersand. */
  lemma {:induction false} EmptyText(cmds: seq<Command>)
    requires |cmds| == 1 && cmds[0].argv == []
    ensures Text(cmds) == Rest(cmds, 0)
  {
    assert AddCommands("", cmds, 1) == "";
    assert "" + "" == "";
  }

  /** Printer/parser round trip: lexing and parsing the printed text gives back the pipeline. */
  lemma {:induction false} RoundTrip(cmds: seq<Command>)
    requires Printable(cmds)
    ensures Parse(Lex(Text(cmds))) == Some(cmds)
  {
    hide Text, Lex, Parse, TokensOf, Rest;
    if cmds[0].argv == [] {
      EmptyText(cmds);
    } else {
      TextShape(cmds);
      LexSpace(' ', Text(cmds));
      assert [' '] + Text(cmds) == " " + Text(cmds);
    }
    LexRest(cmds, 0);
    ParsesBack(cmds);
  }
}
