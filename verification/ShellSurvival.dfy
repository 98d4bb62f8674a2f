/** Which pipelines survive printing: exactly those of plain words.  The argument counts quote characters: the text has
 *  those of the words, lexing uses up at least one if there is any, so parsing cannot give all words back. */
module ShellSurvival {
  import opened Wrappers
  import opened ShellLexer
  import opened ShellParser
  import opened ShellPrinter
  import opened ShellRoundTrip

  predicate IsQuote(c: char) { c == '"' || c == '\'' }

  function Quotes(s: string): nat { if s == "" then 0 else (if IsQuote(s[0]) then 1 else 0) + Quotes(s[1..]) }

  function WordQuotes(ws: seq<string>): nat {
    if ws == [] then 0 else WordQuotes(ws[..|ws| - 1]) + Quotes(ws[|ws| - 1])
  }

  function CommandQuotes(cmds: seq<Command>): nat {
    if cmds == [] then 0 else CommandQuotes(cmds[..|cmds| - 1]) + WordQuotes(cmds[|cmds| - 1].argv)
  }

  function TokenQuotes(ts: seq<Token>): nat {
    if ts == [] then 0 else TokenQuotes(ts[..|ts| - 1]) + ValueQuotes(ts[|ts| - 1])
  }

  function ValueQuotes(t: Token): nat { if t.Word? then Quotes(t.value) else 0 }

  lemma {:induction false} QuotesAppend(a: string, b: string)
    ensures Quotes(a + b) == Quotes(a) + Quotes(b)
    decreases |a|
  {
    if a == "" { assert a + b == b; }
    else { assert (a + b)[1..] == a[1..] + b; QuotesAppend(a[1..], b); }
  }

  lemma {:induction false} NoQuotes(s: string)
    ensures Quotes(s) == 0 <==> forall i :: 0 <= i < |s| ==> !IsQuote(s[i])
  {
    if s != "" {
      NoQuotes(s[1..]);
      assert forall i :: 1 <= i < |s| ==> s[i] == s[1..][i - 1];
      assert forall i :: 0 <= i < |s[1..]| ==> s[1..][i] == s[i + 1];
    }
  }

  // ------------------------------------------------------------------ the text

  lemma {:induction false} AddWordsQuotes(text: string, ws: seq<string>)
    ensures Quotes(AddWords(text, ws)) == Quotes(text) + WordQuotes(ws)
    decreases |ws|
  {
    if ws != [] {
      var sep := if text != "" then " " else "";
      assert Quotes(" ") == 0;
      QuotesAppend(text, sep);
      QuotesAppend(text + sep, ws[0]);
      AddWordsQuotes(text + sep + ws[0], ws[1..]);
      WordQuotesCons(ws);
    }
  }

  lemma {:induction false} WordQuotesCons(ws: seq<string>)
    requires ws != []
    ensures WordQuotes(ws) == Quotes(ws[0]) + WordQuotes(ws[1..])
    decreases |ws|
  {
    var n := |ws| - 1;
    if n > 0 {
      WordQuotesCons(ws[..n]);
      assert ws[..n][1..] == ws[1..][..n - 1];
    }
  }

  lemma {:induction false} AddCommandsQuotes(text: string, cmds: seq<Command>, i: nat)
    requires i <= |cmds|
    ensures Quotes(AddCommands(text, cmds, i)) + CommandQuotes(cmds[..i]) == Quotes(text) + CommandQuotes(cmds)
    decreases |cmds| - i
  {
    hide AddWords, Quotes;
    if i == |cmds| {
      assert cmds[..i] == cmds;
    } else {
      var t1 := AddWords(text, cmds[i].argv);
      var sep := if i < |cmds| - 1 then " | " else "";
      PipeQuotes();
      AddWordsQuotes(text, cmds[i].argv);
      QuotesAppend(t1, sep);
      AddCommandsQuotes(t1 + sep, cmds, i + 1);
      assert cmds[..i + 1][..i] == cmds[..i];
    }
  }

  lemma {:induction false} PipeQuotes()
    ensures Quotes("") == 0 && Quotes(" | ") == 0 && Quotes(" &") == 0
  {
    NoQuotes(" | ");
    NoQuotes(" &");
  }

  lemma {:induction false} TextQuotes(cmds: seq<Command>)
    requires cmds != []
    ensures Quotes(Text(cmds)) == CommandQuotes(cmds)
  {
    hide AddCommands, Quotes;
    PipeQuotes();
    AddCommandsQuotes("", cmds, 0);
    assert cmds[..0] == [];
    QuotesAppend(AddCommands("", cmds, 0), if cmds[|cmds| - 1].background then " &" else "");
  }

  // ------------------------------------------------------------------ lexing

  lemma {:induction false} TokenQuotesCons(t: Token, ts: seq<Token>)
    ensures TokenQuotes([t] + ts) == ValueQuotes(t) + TokenQuotes(ts)
    decreases |ts|
  {
    var all := [t] + ts;
    var n := |all| - 1;
    if ts == [] {
      assert all[..0] == [];
    } else {
      TokenQuotesCons(t, ts[..n - 1]);
      assert all[..n] == [t] + ts[..n - 1];
    }
  }

  /** The characters of one token hold its value's quotes, and one more if they hold any. */
  predicate UsesUp(t: Token, s: string) {
    ValueQuotes(t) <= Quotes(s) && (Quotes(s) > 0 ==> ValueQuotes(t) < Quotes(s))
  }

  lemma {:induction false} NextUses(s: string, pos: nat)
    requires pos <= |s|
    ensures UsesUp(Next(s, pos).0, s[pos..Next(s, pos).1])
  {
    hide Quotes, SpanSpace;
    var (t, q) := Next(s, pos);
    var p := SpanSpace(s, pos);
    SpaceEnds(s, pos);
    assert s[pos..q] == s[pos..p] + s[p..q];
    NoQuotes(s[pos..p]);
    QuotesAppend(s[pos..p], s[p..q]);
    if p < |s| && IsQuote(s[p]) {
      assert (t, q) == QuotedAt(s, p);
      QuotedUses(s, p);
    } else if p < |s| && t.Word? {
      NoQuotes(s[p..q]);
    } else {
      NoQuotes(s[p..q]);
    }
  }

  lemma {:induction false} SpaceEnds(s: string, pos: nat)
    requires pos <= |s|
    ensures var p := SpanSpace(s, pos);
            && pos <= p <= |s| && (p < |s| ==> !IsSpace(s[p]))
            && forall j :: pos <= j < p ==> IsSpace(s[j])
  {
  }

  lemma {:induction false} QuotedUses(s: string, p: nat)
    requires p < |s| && IsQuote(s[p])
    ensures var (t, q) := QuotedAt(s, p); UsesUp(t, s[p..q])
  {
    hide SpanQuote, Quotes;
    var e := SpanQuote(s, p + 1, s[p]);
    var (t, q) := QuotedAt(s, p);
    assert s[p..q] == [s[p]] + t.value + s[e..q];
    OneQuote(s[p]);
    QuotesAppend([s[p]], t.value);
    QuotesAppend([s[p]] + t.value, s[e..q]);
  }

  lemma {:induction false} OneQuote(c: char)
    requires IsQuote(c)
    ensures Quotes([c]) == 1
  {
    assert [c][1..] == "";
  }

  lemma {:induction false} TokensUse(s: string, pos: nat)
    requires pos <= |s|
    ensures TokenQuotes(Tokens(s, pos)) <= Quotes(s[pos..])
    ensures Quotes(s[pos..]) > 0 ==> TokenQuotes(Tokens(s, pos)) < Quotes(s[pos..])
    decreases |s| - pos
  {
    hide Quotes, Next, Tokens;
    var (t, q) := Next(s, pos);
    TokensStep(s, pos);
    NextUses(s, pos);
    assert s[pos..] == s[pos..q] + s[q..];
    QuotesAppend(s[pos..q], s[q..]);
    if t == End {
      TokenQuotesCons(End, []);
      assert [End] + [] == [End];
      EndIsLast(s, pos);
    } else {
      TokensUse(s, q);
      TokenQuotesCons(t, Tokens(s, q));
    }
  }

  lemma {:induction false} EndIsLast(s: string, pos: nat)
    requires pos <= |s| && Next(s, pos).0 == End
    ensures Next(s, pos).1 == |s| && Quotes(s[pos..]) == 0
  {
    SpaceEnds(s, pos);
    NoQuotes(s[pos..]);
  }

  /** In a text without quotes every word is plain. */
  lemma {:induction false} BareTokens(s: string, pos: nat)
    requires pos <= |s| && CString(s) && forall i :: pos <= i < |s| ==> !IsQuote(s[i])
    ensures forall t :: t in Tokens(s, pos) && t.Word? ==> PlainWord(t.value)
    decreases |s| - pos
  {
    hide Next, Tokens;
    TokensStep(s, pos);
    BareToken(s, pos);
    var (t, q) := Next(s, pos);
    if t != End { BareTokens(s, q); }
  }

  lemma {:induction false} BareToken(s: string, pos: nat)
    requires pos <= |s| && CString(s) && forall i :: pos <= i < |s| ==> !IsQuote(s[i])
    ensures Next(s, pos).0.Word? ==> PlainWord(Next(s, pos).0.value)
  {
    SpaceEnds(s, pos);
  }

  // ------------------------------------------------------------------ parsing

  function PartQuotes(parts: seq<seq<Token>>): nat {
    if parts == [] then 0 else PartQuotes(parts[..|parts| - 1]) + WordQuotes(Args(parts[|parts| - 1]))
  }

  lemma {:induction false} WordQuotesSnoc(ws: seq<string>, w: string)
    ensures WordQuotes(ws + [w]) == WordQuotes(ws) + Quotes(w)
  {
    assert (ws + [w])[..|ws|] == ws;
  }

  lemma {:induction false} PartQuotesSnoc(parts: seq<seq<Token>>, part: seq<Token>)
    ensures PartQuotes(parts + [part]) == PartQuotes(parts) + WordQuotes(Args(part))
  {
    assert (parts + [part])[..|parts|] == parts;
  }

  /** The arguments of all parts hold at most the quotes of the tokens. */
  lemma {:induction false} SplitQuotes(ts: seq<Token>)
    ensures PartQuotes(Split(ts)) <= TokenQuotes(ts)
    decreases |ts|
  {
    hide Args, WordQuotes, Quotes, PartQuotes;
    if ts == [] {
      PartQuotesSnoc([], []);
      assert [] + [[]] == Split(ts);
      NoParts();
    } else {
      var n := |ts| - 1;
      var parts := Split(ts[..n]);
      var k := |parts| - 1;
      SplitQuotes(ts[..n]);
      NoParts();
      assert parts == parts[..k] + [parts[k]];
      PartQuotesSnoc(parts[..k], parts[k]);
      if ts[n] == Pipe {
        PartQuotesSnoc(parts, []);
      } else {
        PartQuotesSnoc(parts[..k], parts[k] + [ts[n]]);
        ArgsSnoc(parts[k], ts[n]);
        if ts[n].Word? { WordQuotesSnoc(Args(parts[k]), ts[n].value); }
        assert Args(parts[k]) + [] == Args(parts[k]);
      }
    }
  }

  lemma {:induction false} NoParts()
    ensures PartQuotes([]) == 0 && Args([]) == [] && WordQuotes([]) == 0
  {
  }

  lemma {:induction false} BodyQuotes(ts: seq<Token>)
    ensures TokenQuotes(Body(ts)) <= TokenQuotes(ts)
    decreases |ts|
  {
    hide TokenQuotes;
    if ts != [] {
      assert ts == [ts[0]] + ts[1..];
      TokenQuotesCons(ts[0], ts[1..]);
      BodyQuotes(ts[1..]);
      if ts[0] != End { TokenQuotesCons(ts[0], Body(ts[1..])); } else { NoTokens(); }
    } else {
      NoTokens();
    }
  }

  lemma {:induction false} NoTokens()
    ensures TokenQuotes([]) == 0
  {
  }

  lemma {:induction false} CommandsQuotes(parts: seq<seq<Token>>)
    ensures CommandQuotes(Commands(parts)) == PartQuotes(parts)
    decreases |parts|
  {
    hide Args, WordQuotes, Input, Output;
    if parts != [] {
      var n := |parts| - 1;
      CommandsQuotes(parts[..n]);
      assert Commands(parts)[..n] == Commands(parts[..n]);
    }
  }

  /** Every argument is the value of some token. */
  lemma {:induction false} ArgsAreTokens(ts: seq<Token>)
    ensures forall w :: w in Args(ts) ==> Word(w) in ts
    decreases |ts|
  {
    if ts != [] { ArgsAreTokens(ts[..|ts| - 1]); }
  }

  lemma {:induction false} PartsAreTokens(ts: seq<Token>)
    ensures forall i, t :: 0 <= i < |Split(ts)| && t in Split(ts)[i] ==> t in ts
    decreases |ts|
  {
    if ts != [] {
      var n := |ts| - 1;
      PartsAreTokens(ts[..n]);
      var before, after := Split(ts[..n]), Split(ts);
      forall i, t | 0 <= i < |after| && t in after[i] ensures t in ts {
        if t != ts[n] {
          assert i < |before| && t in before[i];
          assert t in ts[..n];
        }
      }
    }
  }

  lemma {:induction false} BodyAreTokens(ts: seq<Token>)
    ensures forall t :: t in Body(ts) ==> t in ts
    decreases |ts|
  {
    if ts != [] { BodyAreTokens(ts[1..]); }
  }

  lemma {:induction false} ParsedWords(ts: seq<Token>, cmds: seq<Command>, i: nat, j: nat)
    requires Parse(ts) == Some(cmds) && i < |cmds| && j < |cmds[i].argv|
    ensures Word(cmds[i].argv[j]) in ts
  {
    hide Split, Args, Body, Accepts, Input, Output;
    var part := Split(Body(ts))[i];
    assert cmds[i] == CommandOf(part);
    ArgsAreTokens(part);
    PartsAreTokens(Body(ts));
    BodyAreTokens(ts);
    assert cmds[i].argv[j] in Args(part);
    assert Word(cmds[i].argv[j]) in part;
  }

  // ------------------------------------------------------------------ the result

  /** A pipeline that survives has no quote character in any word, so lexing saw only bare words. */
  lemma {:induction false} SurvivorsArePlain(cmds: seq<Command>)
    requires cmds != [] && CString(Text(cmds)) && Parse(Lex(Text(cmds))) == Some(cmds)
    ensures forall i, j :: 0 <= i < |cmds| && 0 <= j < |cmds[i].argv| ==> PlainWord(cmds[i].argv[j])
  {
    hide Text, Quotes, Split, Body, Tokens, CommandQuotes, TokenQuotes, PartQuotes, Commands, Accepts;
    var s := Text(cmds);
    var ts := Lex(s);
    assert s[0..] == s;
    TextQuotes(cmds);
    TokensUse(s, 0);
    BodyQuotes(ts);
    SplitQuotes(Body(ts));
    CommandsQuotes(Split(Body(ts)));
    assert Quotes(s) == 0;
    NoQuotes(s);
    BareTokens(s, 0);
    forall i, j | 0 <= i < |cmds| && 0 <= j < |cmds[i].argv| ensures PlainWord(cmds[i].argv[j]) {
      ParsedWords(ts, cmds, i, j);
    }
  }

  lemma {:induction false} AddWordsCString(text: string, ws: seq<string>)
    requires CString(text) && forall j :: 0 <= j < |ws| ==> CString(ws[j])
    ensures CString(AddWords(text, ws))
    decreases |ws|
  {
    if ws != [] { AddWordsCString(text + (if text != "" then " " else "") + ws[0], ws[1..]); }
  }

  lemma {:induction false} AddCommandsCString(text: string, cmds: seq<Command>, i: nat)
    requires CString(text) && CStrings(cmds) && i <= |cmds|
    ensures CString(AddCommands(text, cmds, i))
    decreases |cmds| - i
  {
    if i < |cmds| {
      AddWordsCString(text, cmds[i].argv);
      AddCommandsCString(AddWords(text, cmds[i].argv) + (if i < |cmds| - 1 then " | " else ""), cmds, i + 1);
    }
  }

  /** What printing sees of a pipeline: the words and the last background flag. */
  function Stripped(cmds: seq<Command>): seq<Command> {
    seq(|cmds|, i requires 0 <= i < |cmds| =>
      Command(cmds[i].argv, None, None, false, i == |cmds| - 1 && cmds[i].background))
  }

  lemma {:induction false} StrippedText(cmds: seq<Command>)
    requires cmds != []
    ensures Text(Stripped(cmds)) == Text(cmds)
  {
    StrippedCommands("", cmds, 0);
  }

  lemma {:induction false} StrippedCommands(text: string, cmds: seq<Command>, i: nat)
    requires i <= |cmds|
    ensures AddCommands(text, Stripped(cmds), i) == AddCommands(text, cmds, i)
    decreases |cmds| - i
  {
    if i < |cmds| {
      StrippedCommands(AddWords(text, cmds[i].argv) + (if i < |cmds| - 1 then " | " else ""), cmds, i + 1);
    }
  }

  /** Whatever is parsed keeps the limits. */
  lemma {:induction false} ParsedLimits(ts: seq<Token>, cmds: seq<Command>)
    requires Parse(ts) == Some(cmds)
    ensures 0 < |cmds| <= MAX_COMMANDS
    ensures forall i :: 0 <= i < |cmds| ==> |cmds[i].argv| < MAX_ARGS && (i < |cmds| - 1 ==> cmds[i].argv != [])
  {
    hide Split, Args, Body, Input, Output, Complete;
    var parts := Split(Body(ts));
    forall i | 0 <= i < |cmds| ensures |cmds[i].argv| < MAX_ARGS && (i < |cmds| - 1 ==> cmds[i].argv != []) {
      assert cmds[i].argv == Args(parts[i]);
    }
  }

  /** Lexing and parsing the printed text gives the pipeline back if and only if its words are plain, it has no
   *  redirections, only the last command is in the background or empty, and it keeps the parser's limits. */
  lemma {:induction false} SurvivesPrinting(cmds: seq<Command>)
    requires cmds != [] && CStrings(cmds)
    ensures Parse(Lex(Text(cmds))) == Some(cmds) <==> Printable(cmds)
  {
    hide Text, Lex, Parse, PlainWord;
    if Printable(cmds) { RoundTrip(cmds); }
    if Parse(Lex(Text(cmds))) == Some(cmds) {
      TextCString(cmds);
      SurvivorsArePlain(cmds);
      ParsedLimits(Lex(Text(cmds)), cmds);
      var bare := Stripped(cmds);
      StrippedText(cmds);
      assert Printable(bare);
      RoundTrip(bare);
      assert cmds == bare;
    }
  }

  lemma {:induction false} TextCString(cmds: seq<Command>)
    requires cmds != [] && CStrings(cmds)
    ensures CString(Text(cmds))
  {
    AddCommandsCString("", cmds, 0);
  }
}
