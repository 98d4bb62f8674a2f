/** The ShellForge parser (src/parser.c), against a grammar that never mentions the parser's single pass. */
module ShellParser {
  import opened Wrappers
  import opened ShellLexer

  const MAX_COMMANDS := 16
  const MAX_ARGS := 64

  datatype Command = Command(argv: seq<string>, input: Option<string>, output: Option<string>, append: bool,
                             background: bool)

  const EMPTY_COMMAND := Command([], None, None, false, false)

  // ---------------------------------------------------------------- the grammar

  predicate IsRedirect(t: Token) { t == RedirectIn || t == RedirectOut || t == RedirectAppend }

  /** The tokens before the first END. */
  function Body(ts: seq<Token>): seq<Token> {
    if ts == [] || ts[0] == End then [] else [ts[0]] + Body(ts[1..])
  }

  /** The tokens between pipes. */
  function Split(ts: seq<Token>): (r: seq<seq<Token>>)
    ensures |r| > 0
  {
    if ts == [] then [[]] else
    var n := |ts| - 1;
    var parts := Split(ts[..n]);
    if ts[n] == Pipe then parts + [[]]
    else parts[..|parts| - 1] + [parts[|parts| - 1] + [ts[n]]]
  }

  /** A word right after a redirection names its file. */
  predicate IsTarget(ts: seq<Token>, i: nat) { 0 < i < |ts| && ts[i].Word? && IsRedirect(ts[i - 1]) }

  function Args(ts: seq<Token>): seq<string> {
    if ts == [] then [] else
    var n := |ts| - 1;
    Args(ts[..n]) + if ts[n].Word? && !IsTarget(ts, n) then [ts[n].value] else []
  }

  /** The last input redirection. */
  function Input(ts: seq<Token>): Option<string> {
    if ts == [] then None else
    var n := |ts| - 1;
    if IsTarget(ts, n) && ts[n - 1] == RedirectIn then Some(ts[n].value) else Input(ts[..n])
  }

  /** The last output redirection, and whether it appends. */
  function Output(ts: seq<Token>): (Option<string>, bool) {
    if ts == [] then (None, false) else
    var n := |ts| - 1;
    if IsTarget(ts, n) && ts[n - 1] != RedirectIn
    then (Some(ts[n].value), ts[n - 1] == RedirectAppend) else Output(ts[..n])
  }

  function CommandOf(ts: seq<Token>): Command {
    Command(Args(ts), Input(ts), Output(ts).0, Output(ts).1, Ampersand in ts)
  }

  /** Every redirection is followed by its file name, and there is no error token. */
  predicate Complete(ts: seq<Token>) {
    && Error !in ts
    && forall i :: 0 <= i < |ts| && IsRedirect(ts[i]) ==> i + 1 < |ts| && ts[i + 1].Word?
  }

  /** At most 16 commands, 63 arguments each; only the last may be empty. */
  predicate WithinLimits(parts: seq<seq<Token>>) {
    && |parts| <= MAX_COMMANDS
    && (forall i :: 0 <= i < |parts| ==> |Args(parts[i])| < MAX_ARGS)
    && (forall i :: 0 <= i < |parts| - 1 ==> Args(parts[i]) != [])
  }

  predicate Accepts(ts: seq<Token>) { ts != [] && Complete(Body(ts)) && WithinLimits(Split(Body(ts))) }

  function Commands(parts: seq<seq<Token>>): seq<Command> {
    seq(|parts|, i requires 0 <= i < |parts| => CommandOf(parts[i]))
  }

  /** The meaning of a token list. */
  function Parse(ts: seq<Token>): Option<seq<Command>> {
    if Accepts(ts) then Some(Commands(Split(Body(ts)))) else None
  }

  // ------------------------------------------------------------ grammar lemmas

  predicate NoEnd(ts: seq<Token>) { forall i :: 0 <= i < |ts| ==> ts[i] != End }

  lemma {:induction false} BodyOfPrefix(a: seq<Token>, b: seq<Token>)
    requires NoEnd(a)
    ensures Body(a + b) == a + Body(b)
  {
    if a == [] {
      assert a + b == b;
    } else {
      assert (a + b)[1..] == a[1..] + b;
      BodyOfPrefix(a[1..], b);
    }
  }

  lemma {:induction false} SplitSnoc(ts: seq<Token>, t: Token)
    ensures var parts := Split(ts);
            Split(ts + [t]) == if t == Pipe then parts + [[]] else parts[..|parts| - 1] + [parts[|parts| - 1] + [t]]
  {
    assert (ts + [t])[..|ts|] == ts;
  }

  lemma {:induction false} ArgsSnoc(ts: seq<Token>, t: Token)
    ensures Args(ts + [t]) == Args(ts) + if t.Word? && !IsTarget(ts + [t], |ts|) then [t.value] else []
    ensures var target := IsTarget(ts + [t], |ts|);
            && Input(ts + [t]) == (if target && ts[|ts| - 1] == RedirectIn then Some(t.value) else Input(ts))
            && Output(ts + [t]) == if target && ts[|ts| - 1] != RedirectIn
                                   then (Some(t.value), ts[|ts| - 1] == RedirectAppend) else Output(ts)
  {
    assert (ts + [t])[..|ts|] == ts;
  }

  /** The last part is the end of the token list. */
  lemma {:induction false} LastPart(ts: seq<Token>)
    ensures var parts := Split(ts);
            var last := parts[|parts| - 1];
            |last| <= |ts| && last == ts[|ts| - |last|..]
  {
    if ts != [] {
      var n := |ts| - 1;
      LastPart(ts[..n]);
      var last := Split(ts[..n])[|Split(ts[..n])| - 1];
      if ts[n] != Pipe { assert ts[n - |last|..] == ts[..n][n - |last|..] + [ts[n]]; }
    }
  }

  /** Reading on keeps the finished parts and only extends the last one. */
  lemma {:induction false} SplitPrefix(a: seq<Token>, b: seq<Token>)
    ensures var p, q := Split(a), Split(a + b);
            |p| <= |q| && q[..|p| - 1] == p[..|p| - 1] && p[|p| - 1] <= q[|p| - 1]
    decreases |b|
  {
    if b == [] {
      assert a + b == a;
    } else {
      var n := |b| - 1;
      assert a + b == (a + b[..n]) + [b[n]];
      SplitPrefix(a, b[..n]);
      SplitSnoc(a + b[..n], b[n]);
    }
  }

  lemma {:induction false} ArgsPrefix(a: seq<Token>, b: seq<Token>)
    ensures Args(a) <= Args(a + b)
    decreases |b|
  {
    if b == [] {
      assert a + b == a;
    } else {
      var n := |b| - 1;
      assert a + b == (a + b[..n]) + [b[n]];
      ArgsPrefix(a, b[..n]);
      ArgsSnoc(a + b[..n], b[n]);
    }
  }

  /** A token list that starts with `pre` is only accepted if `pre` itself stays within the limits. */
  lemma {:induction false} PrefixWithin(pre: seq<Token>, rest: seq<Token>)
    requires WithinLimits(Split(pre + rest))
    ensures WithinLimits(Split(pre))
  {
    hide Split, Args;
    SplitPrefix(pre, rest);
    var p, q := Split(pre), Split(pre + rest);
    var k := |p| - 1;
    assert forall i :: 0 <= i < k ==> p[i] == p[..k][i] == q[..k][i] == q[i];
    var more := q[k][|p[k]|..];
    assert q[k] == p[k] + more;
    ArgsPrefix(p[k], more);
  }

  // ---------------------------------------------------------- the single pass

  /** What the loop has read so far: complete, within the limits, and filed in the table. */
  ghost predicate Filed(pre: seq<Token>, cmds: seq<Command>, k: nat) {
    && NoEnd(pre) && Complete(pre) && WithinLimits(Split(pre)) && |cmds| == MAX_COMMANDS && k == |Split(pre)| - 1
    && (forall i :: 0 <= i <= k ==> cmds[i] == CommandOf(Split(pre)[i]))
    && (forall i :: k < i < MAX_COMMANDS ==> cmds[i] == EMPTY_COMMAND)
  }

  lemma {:induction false} NothingRead(cmds: seq<Command>)
    requires |cmds| == MAX_COMMANDS && forall i :: 0 <= i < MAX_COMMANDS ==> cmds[i] == EMPTY_COMMAND
    ensures Filed([], cmds, 0)
  {
  }

  lemma {:induction false} CompleteSnoc(pre: seq<Token>, t: Token)
    requires Complete(pre) && !IsRedirect(t) && t != Error
    ensures Complete(pre + [t])
  {
  }

  lemma {:induction false} CompletePair(pre: seq<Token>, r: Token, w: Token)
    requires Complete(pre) && IsRedirect(r) && w.Word?
    ensures Complete(pre + [r] + [w])
  {
  }

  /** Extending the last part by one plain token. */
  lemma {:induction false} LastSnoc(pre: seq<Token>, t: Token)
    requires t != Pipe && Complete(pre)
    ensures var parts := Split(pre);
            var last := parts[|parts| - 1];
            && Split(pre + [t]) == parts[|parts| - 1 := last + [t]]
            && (last != [] ==> !IsRedirect(last[|last| - 1]))
  {
    SplitSnoc(pre, t);
    LastPart(pre);
  }

  /** Replacing the last part replaces its command. */
  lemma {:induction false} FiledUpdate(pre: seq<Token>, pre': seq<Token>, cmds: seq<Command>, k: nat, part: seq<Token>)
    requires Filed(pre, cmds, k) && NoEnd(pre') && Complete(pre') && |Args(part)| < MAX_ARGS
    requires k < |Split(pre)| && Split(pre') == Split(pre)[k := part]
    ensures Filed(pre', cmds[k := CommandOf(part)], k)
  {
    hide Split, Args, CommandOf, Complete;
  }

  lemma {:induction false} LastFiled(pre: seq<Token>, cmds: seq<Command>, k: nat)
    requires Filed(pre, cmds, k)
    ensures |cmds| == MAX_COMMANDS && k < MAX_COMMANDS
    ensures k == |Split(pre)| - 1 && cmds[k] == CommandOf(Split(pre)[k]) && |Args(Split(pre)[k])| < MAX_ARGS
    ensures NoEnd(pre) && Complete(pre)
  {
    hide Split, Args, CommandOf, Complete;
  }

  lemma {:induction false} WordFiled(pre: seq<Token>, cmds: seq<Command>, k: nat, w: string)
    requires Filed(pre, cmds, k) && |cmds[k].argv| < MAX_ARGS - 1
    ensures Filed(pre + [Word(w)], cmds[k := cmds[k].(argv := cmds[k].argv + [w])], k)
  {
    hide Split, Args, Input, Output, Filed, Complete, WithinLimits;
    LastFiled(pre, cmds, k);
    LastSnoc(pre, Word(w));
    CompleteSnoc(pre, Word(w));
    var last := Split(pre)[k];
    ArgsSnoc(last, Word(w));
    assert CommandOf(last + [Word(w)]) == cmds[k].(argv := cmds[k].argv + [w]);
    FiledUpdate(pre, pre + [Word(w)], cmds, k, last + [Word(w)]);
  }

  lemma {:induction false} WordTooMany(pre: seq<Token>, cmds: seq<Command>, k: nat, w: string)
    requires Filed(pre, cmds, k) && |cmds[k].argv| >= MAX_ARGS - 1
    ensures !WithinLimits(Split(pre + [Word(w)]))
  {
    hide Split, Args, Input, Output, Filed, Complete;
    LastFiled(pre, cmds, k);
    LastSnoc(pre, Word(w));
    var last := Split(pre)[k];
    ArgsSnoc(last, Word(w));
    assert |Args(Split(pre + [Word(w)])[k])| >= MAX_ARGS;
  }

  lemma {:induction false} AmpersandFiled(pre: seq<Token>, cmds: seq<Command>, k: nat)
    requires Filed(pre, cmds, k)
    ensures Filed(pre + [Ampersand], cmds[k := cmds[k].(background := true)], k)
  {
    hide Split, Args, Input, Output, Filed, Complete, WithinLimits;
    LastFiled(pre, cmds, k);
    LastSnoc(pre, Ampersand);
    CompleteSnoc(pre, Ampersand);
    var last := Split(pre)[k];
    ArgsSnoc(last, Ampersand);
    assert CommandOf(last + [Ampersand]) == cmds[k].(background := true);
    FiledUpdate(pre, pre + [Ampersand], cmds, k, last + [Ampersand]);
  }

  lemma {:induction false} PipeFiled(pre: seq<Token>, cmds: seq<Command>, k: nat)
    requires Filed(pre, cmds, k) && cmds[k].argv != [] && k < MAX_COMMANDS - 1
    ensures Filed(pre + [Pipe], cmds, k + 1)
  {
    hide Split, Complete;
    SplitSnoc(pre, Pipe);
    CompleteSnoc(pre, Pipe);
    NewPart();
  }

  lemma {:induction false} NewPart()
    ensures CommandOf([]) == EMPTY_COMMAND && Args([]) == []
  {
  }

  lemma {:induction false} PipeRefused(pre: seq<Token>, cmds: seq<Command>, k: nat)
    requires Filed(pre, cmds, k) && (cmds[k].argv == [] || k >= MAX_COMMANDS - 1)
    ensures !WithinLimits(Split(pre + [Pipe]))
  {
    hide Split, Args;
    SplitSnoc(pre, Pipe);
    assert Split(pre + [Pipe])[k] == Split(pre)[k];
  }

  lemma {:induction false} RedirectFiled(pre: seq<Token>, cmds: seq<Command>, k: nat, r: Token, w: string)
    requires Filed(pre, cmds, k) && IsRedirect(r)
    ensures Filed(pre + [r] + [Word(w)],
                  cmds[k := if r == RedirectIn then cmds[k].(input := Some(w))
                            else cmds[k].(output := Some(w), append := r == RedirectAppend)], k)
  {
    hide Split, Args, Input, Output, Filed, Complete, WithinLimits;
    LastFiled(pre, cmds, k);
    LastSnoc(pre, r);
    var last := Split(pre)[k];
    SplitSnoc(pre + [r], Word(w));
    ArgsSnoc(last, r);
    ArgsSnoc(last + [r], Word(w));
    CompletePair(pre, r, Word(w));
    var part := last + [r] + [Word(w)];
    assert Split(pre + [r] + [Word(w)]) == Split(pre)[k := part];
    assert IsTarget(part, |last| + 1);
    assert Ampersand in part <==> Ampersand in last;
    assert CommandOf(part) == if r == RedirectIn then cmds[k].(input := Some(w))
                              else cmds[k].(output := Some(w), append := r == RedirectAppend);
    FiledUpdate(pre, pre + [r] + [Word(w)], cmds, k, part);
  }

  /** Whatever comes later, these tokens are refused once `pre` breaks a limit. */
  lemma {:induction false} Refused(ts: seq<Token>, pre: seq<Token>, rest: seq<Token>)
    requires ts == pre + rest && NoEnd(pre) && !WithinLimits(Split(pre))
    ensures Parse(ts) == None
  {
    BodyOfPrefix(pre, rest);
    if WithinLimits(Split(pre + Body(rest))) { PrefixWithin(pre, Body(rest)); }
  }

  lemma {:induction false} BadToken(ts: seq<Token>, pre: seq<Token>, rest: seq<Token>)
    requires ts == pre + rest && NoEnd(pre) && rest != [] && rest[0] != End
    requires rest[0] == Error || (IsRedirect(rest[0]) && (|rest| == 1 || !rest[1].Word?))
    ensures Parse(ts) == None
  {
    BodyOfPrefix(pre, rest);
    var b := Body(ts);
    assert b[|pre|] == rest[0];
    if |b| > |pre| + 1 { assert Body(rest)[1..] == Body(rest[1..]) && b[|pre| + 1] == Body(rest)[1] == rest[1]; }
  }

  lemma {:induction false} Finished(ts: seq<Token>, pre: seq<Token>, rest: seq<Token>, cmds: seq<Command>, k: nat)
    requires ts == pre + rest && ts != [] && (rest == [] || rest[0] == End) && Filed(pre, cmds, k)
    ensures Parse(ts) == Some(cmds[..k + 1])
  {
    BodyOfPrefix(pre, rest);
    assert Body(ts) == pre;
    assert Commands(Split(pre)) == cmds[..k + 1];
  }

  /** The Pipeline struct: a fixed table of commands and a count. */
  class Pipeline {
    const commands: array<Command>
    var commandCount: nat

    ghost predicate Valid()
      reads this, commands
    {
      commands.Length == MAX_COMMANDS && commandCount <= MAX_COMMANDS
    }

    constructor ()
      ensures Valid() && fresh(commands)
    {
      commands := new Command[MAX_COMMANDS](_ => EMPTY_COMMAND);
      commandCount := 0;
    }

    method Init()
      requires Valid()
      modifies this, commands
      ensures Valid() && commandCount == 0 && forall i :: 0 <= i < MAX_COMMANDS ==> commands[i] == EMPTY_COMMAND
    {
      commandCount := 0;
      var i := 0;
      while i < MAX_COMMANDS
        invariant 0 <= i <= MAX_COMMANDS && forall j :: 0 <= j < i ==> commands[j] == EMPTY_COMMAND
        modifies commands
      {
        commands[i] := EMPTY_COMMAND;
        i := i + 1;
      }
    }

    /** parse_tokens: the single pass computes exactly the grammar's reading, or refuses exactly what the
     *  grammar refuses. */
    method ParseTokens(tokens: seq<Token>) returns (ok: bool)
      requires Valid()
      modifies this, commands
      ensures Valid() && (ok <==> Parse(tokens).Some?)
      ensures ok ==> commands[..commandCount] == Parse(tokens).value
    {
      hide Filed, Accepts, Parse, WithinLimits;
      if tokens == [] {
        EmptyRefused();
        return false;
      }
      Init();
      var k, i := 0, 0;
      commandCount := 1;
      NothingRead(commands[..]);
      while i < |tokens|
        invariant 0 <= i <= |tokens| && 0 <= k < MAX_COMMANDS && commandCount == k + 1 && Valid()
        invariant Filed(tokens[..i], commands[..], k)
      {
        ghost var pre, rest := tokens[..i], tokens[i..];
        assert tokens == pre + rest;
        FiledFacts(pre, commands[..], k);
        var t := tokens[i];
        assert tokens[..i + 1] == pre + [t];
        assert tokens == (pre + [t]) + tokens[i + 1..];
        match t {
          case Word(w) =>
            if |commands[k].argv| >= MAX_ARGS - 1 {
              WordTooMany(pre, commands[..], k, w);
              Refused(tokens, pre + [t], tokens[i + 1..]);
              return false;
            }
            WordFiled(pre, commands[..], k, w);
            commands[k] := commands[k].(argv := commands[k].argv + [w]);
          case Pipe =>
            if commands[k].argv == [] || k >= MAX_COMMANDS - 1 {
              PipeRefused(pre, commands[..], k);
              Refused(tokens, pre + [t], tokens[i + 1..]);
              return false;
            }
            PipeFiled(pre, commands[..], k);
            k := k + 1;
            commandCount := commandCount + 1;
          case Ampersand =>
            AmpersandFiled(pre, commands[..], k);
            commands[k] := commands[k].(background := true);
          case End =>
            Finished(tokens, pre, rest, commands[..], k);
            assert commands[..][..k + 1] == commands[..k + 1];
            return true;
          case Error =>
            BadToken(tokens, pre, rest);
            return false;
          case _ =>
            if i + 1 >= |tokens| || !tokens[i + 1].Word? {
              BadToken(tokens, pre, rest);
              return false;
            }
            var w := tokens[i + 1].value;
            RedirectFiled(pre, commands[..], k, t, w);
            assert tokens[..i + 2] == pre + [t] + [Word(w)];
            i := i + 1;
            if t == RedirectIn { commands[k] := commands[k].(input := Some(w)); }
            else { commands[k] := commands[k].(output := Some(w), append := t == RedirectAppend); }
        }
        i := i + 1;
      }
      assert tokens[..i] + [] == tokens;
      Finished(tokens, tokens[..i], [], commands[..], k);
      assert commands[..][..k + 1] == commands[..k + 1];
      return true;
    }
  }

  lemma {:induction false} EmptyRefused()
    ensures Parse([]) == None
  {
  }

  lemma {:induction false} FiledFacts(pre: seq<Token>, cmds: seq<Command>, k: nat)
    requires Filed(pre, cmds, k)
    ensures NoEnd(pre)
  {
  }
}
