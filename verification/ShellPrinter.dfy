/** build_command_string (src/executor.c): the printer is inverted by the lexer and the parser, and its text
 *  always fits the buffer it allocates. */
module ShellPrinter {
  import opened Wrappers
  import opened ShellParser

  // ---------------------------------------------------------------- the printer

  /** The inner loop: append each argument, with a space unless the text is still empty. */
  function AddWords(text: string, ws: seq<string>): string
    decreases |ws|
  {
    if ws == [] then text else AddWords(text + (if text != "" then " " else "") + ws[0], ws[1..])
  }

  /** The outer loop from command i on. */
  function AddCommands(text: string, cmds: seq<Command>, i: nat): string
    requires i <= |cmds|
    decreases |cmds| - i
  {
    if i == |cmds| then text else
    AddCommands(AddWords(text, cmds[i].argv) + (if i < |cmds| - 1 then " | " else ""), cmds, i + 1)
  }

  function Text(cmds: seq<Command>): string
    requires cmds != []
  {
    AddCommands("", cmds, 0) + if cmds[|cmds| - 1].background then " &" else ""
  }

  function WordsSize(ws: seq<string>): nat { if ws == [] then 0 else |ws[0]| + 1 + WordsSize(ws[1..]) }

  function CommandsSize(cmds: seq<Command>, i: nat): nat
    requires i <= |cmds|
    decreases |cmds| - i
  {
    if i == |cmds| then 0 else
    WordsSize(cmds[i].argv) + (if i < |cmds| - 1 then 3 else 0) + CommandsSize(cmds, i + 1)
  }

  /** The size passed to malloc. */
  function BufferSize(cmds: seq<Command>): nat
    requires cmds != []
  {
    1 + CommandsSize(cmds, 0) + if cmds[|cmds| - 1].background then 3 else 0
  }

  lemma {:induction false} WordsFit(text: string, ws: seq<string>)
    ensures |AddWords(text, ws)| <= |text| + WordsSize(ws)
    decreases |ws|
  {
    if ws != [] { WordsFit(text + (if text != "" then " " else "") + ws[0], ws[1..]); }
  }

  lemma {:induction false} CommandsFit(text: string, cmds: seq<Command>, i: nat)
    requires i <= |cmds|
    ensures |AddCommands(text, cmds, i)| <= |text| + CommandsSize(cmds, i)
    decreases |cmds| - i
  {
    if i < |cmds| {
      WordsFit(text, cmds[i].argv);
      CommandsFit(AddWords(text, cmds[i].argv) + (if i < |cmds| - 1 then " | " else ""), cmds, i + 1);
    }
  }

  /** For every pipeline, whatever its words, the text and its NUL fit in the allocated buffer. */
  lemma {:induction false} TextFits(cmds: seq<Command>)
    requires cmds != []
    ensures |Text(cmds)| + 1 <= BufferSize(cmds)
  {
    CommandsFit("", cmds, 0);
  }

  /** The buffer with strcat: every write stays inside the allocation. */
  class CommandBuffer {
    const data: array<char>
    var len: nat

    ghost predicate Valid()
      reads this, data
    {
      len < data.Length && data[len] == '\0' && forall i :: 0 <= i < len ==> data[i] != '\0'
    }

    ghost function Contents(): string
      requires Valid()
      reads this, data
    {
      data[..len]
    }

    constructor (size: nat)
      requires size > 0
      ensures Valid() && Contents() == "" && data.Length == size && fresh(data)
    {
      data := new char[size](_ => '\0');
      len := 0;
    }

    method StrCat(s: string)
      requires Valid() && len + |s| < data.Length && CString(s)
      modifies this`len, data
      ensures Valid() && Contents() == old(Contents()) + s
    {
      var i := 0;
      while i < |s|
        invariant 0 <= i <= |s| && len == old(len)
        invariant data[..len + i] == old(data[..len]) + s[..i]
      {
        data[len + i] := s[i];
        i := i + 1;
      }
      data[len + |s|] := '\0';
      len := len + |s|;
      assert data[..len] == old(data[..len]) + s;
      assert forall j :: 0 <= j < len ==> data[j] == data[..len][j];
    }
  }

  predicate CStrings(cmds: seq<Command>) {
    forall i, j :: 0 <= i < |cmds| && 0 <= j < |cmds[i].argv| ==> CString(cmds[i].argv[j])
  }

  /** build_command_string */
  method BuildCommandString(cmds: seq<Command>) returns (buf: CommandBuffer)
    requires cmds != [] && CStrings(cmds)
    ensures fresh(buf) && fresh(buf.data) && buf.Valid() && buf.Contents() == Text(cmds)
  {
    TextFits(cmds);
    buf := new CommandBuffer(BufferSize(cmds));
    var i := 0;
    while i < |cmds|
      invariant 0 <= i <= |cmds| && buf.Valid() && fresh(buf) && fresh(buf.data)
      invariant AddCommands(buf.Contents(), cmds, i) == AddCommands("", cmds, 0)
      invariant buf.data.Length == BufferSize(cmds)
      invariant buf.len + CommandsSize(cmds, i) <= CommandsSize(cmds, 0)
    {
      var ampersand := if cmds[|cmds| - 1].background then 3 else 0;
      AppendWords(buf, cmds[i].argv, CommandsSize(cmds, i) - WordsSize(cmds[i].argv) + ampersand);
      if i < |cmds| - 1 { buf.StrCat(" | "); }
      assert i == |cmds| - 1 ==> buf.Contents() + "" == buf.Contents();
      i := i + 1;
    }
    if cmds[|cmds| - 1].background { buf.StrCat(" &"); }
    assert buf.Contents() == Text(cmds);
  }

  method AppendWords(buf: CommandBuffer, ws: seq<string>, ghost reserve: nat)
    requires buf.Valid() && (forall j :: 0 <= j < |ws| ==> CString(ws[j]))
    requires buf.len + WordsSize(ws) + reserve < buf.data.Length
    modifies buf`len, buf.data
    ensures buf.Valid() && buf.Contents() == AddWords(old(buf.Contents()), ws)
    ensures buf.len + reserve < buf.data.Length && buf.len <= old(buf.len) + WordsSize(ws)
  {
    var j := 0;
    assert ws[0..] == ws;
    while j < |ws|
      invariant 0 <= j <= |ws| && buf.Valid()
      invariant AddWords(buf.Contents(), ws[j..]) == AddWords(old(buf.Contents()), ws)
      invariant buf.len + WordsSize(ws[j..]) <= old(buf.len) + WordsSize(ws)
    {
      assert ws[j..][0] == ws[j] && ws[j..][1..] == ws[j + 1..];
      ghost var before := buf.Contents();
      if buf.data[0] != '\0' {
        assert before != "";
        buf.StrCat(" ");
      } else {
        assert before == "" && before + "" == before;
      }
      buf.StrCat(ws[j]);
      assert buf.Contents() == before + (if before != "" then " " else "") + ws[j];
      j := j + 1;
    }
  }
}
