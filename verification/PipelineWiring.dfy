/** What a stage of a pipeline does to its descriptor table between fork and exec (src/executor.c). */
module PipelineWiring {
  import opened Wrappers
  import opened ShellParser

  /** What a descriptor refers to: something the shell had before, an end of the k-th new pipe, or a redirection. */
  datatype File = Inherited(id: nat) | ReadEnd(pipe: nat) | WriteEnd(pipe: nat)
                | Input(path: string) | Output(path: string, append: bool) | DevNull

  type Table = map<nat, File>

  // ------------------------------------------------------------------ descriptor calls

  lemma {:induction false} PrefixCount(keys: set<nat>, n: nat)
    requires forall k: nat :: k < n ==> k in keys
    ensures n <= |keys|
  {
    if n > 0 {
      PrefixCount(keys - {n - 1}, n - 1);
    }
  }

  function LowestFrom(t: Table, fd: nat): (r: nat)
    requires forall k: nat :: k < fd ==> k in t
    ensures r !in t && forall k: nat :: k < r ==> k in t
    decreases |t.Keys| + 1 - fd
  {
    PrefixCount(t.Keys, fd);
    if fd in t then LowestFrom(t, fd + 1) else fd
  }

  /** open and pipe return the lowest free descriptors. */
  function Lowest(t: Table): (r: nat)
    ensures r !in t && forall k: nat :: k < r ==> k in t
  {
    LowestFrom(t, 0)
  }

  /** pipe: the read end gets the lowest free descriptor and the write end the next. */
  function PipeEnds(t: Table, k: nat): (r: (nat, nat))
    ensures r.0 !in t && r.1 !in t && r.0 < r.1
  {
    var a := Lowest(t);
    var t' := t[a := ReadEnd(k)];
    (a, Lowest(t'))
  }

  function PipeTable(t: Table, k: nat, ends: (nat, nat)): Table { t[ends.0 := ReadEnd(k)][ends.1 := WriteEnd(k)] }

  function Close(t: Table, fd: nat): Table { t - {fd} }

  /** What a stage does to itself between fork and exec. Redirect is open, dup2 and close on one file. */
  datatype Op = SetGroup(pgid: nat) | Dup2(from: nat, to: nat) | CloseFd(fd: nat) | Redirect(file: File, to: nat)

  /** One call on the stage's own table; None when dup2 fails and the stage exits. Whether setpgid succeeds is not a
   *  matter of the table: see Advance. */
  function DoOp(t: Table, op: Op): Option<Table> {
    match op
    case SetGroup(_) => Some(t)
    case Dup2(from, to) => if from in t then Some(t[to := t[from]]) else None
    case CloseFd(fd) => Some(Close(t, fd))
    case Redirect(file, to) => Some(Close(t[Lowest(t) := file][to := file], Lowest(t)))
  }

  function Exec(t: Table, ops: seq<Op>): Option<Table>
    decreases |ops|
  {
    if ops == [] then Some(t) else
    match DoOp(t, ops[0])
    case None => None
    case Some(t') => Exec(t', ops[1..])
  }

  lemma {:induction false} ExecAppend(t: Table, a: seq<Op>, b: seq<Op>)
    ensures Exec(t, a + b) == match Exec(t, a) case None => None case Some(t') => Exec(t', b)
    decreases |a|
  {
    if a == [] {
      assert a + b == b;
    } else {
      assert (a + b)[1..] == a[1..] + b;
      match DoOp(t, a[0]) {
        case None =>
        case Some(t') => ExecAppend(t', a[1..], b);
      }
    }
  }

  // ------------------------------------------------------------------ the child's branch

  function Background(cmds: seq<Command>): bool
    requires cmds != []
  {
    cmds[|cmds| - 1].background
  }

  function JoinGroup(pgid: nat): seq<Op> { [SetGroup(pgid)] }

  function PlugPipes(previous: Option<nat>, ends: Option<(nat, nat)>): seq<Op> {
    (if previous.Some? then [Dup2(previous.value, 0)] else [])
    + (if ends.Some? then [Dup2(ends.value.1, 1)] else [])
    + (if previous.Some? then [CloseFd(previous.value)] else [])
    + (if ends.Some? then [CloseFd(ends.value.0), CloseFd(ends.value.1)] else [])
  }

  function RedirectOps(c: Command, nullInput: bool): seq<Op> {
    (if c.input.Some? then [Redirect(Input(c.input.value), 0)] else if nullInput then [Redirect(DevNull, 0)] else [])
    + (if c.output.Some? then [Redirect(Output(c.output.value, c.append), 1)] else [])
  }

  /** The calls of stage i; pgid is 0 for the first stage, which then leads a new group. */
  function ChildProgram(cmds: seq<Command>, i: nat, pgid: nat, previous: Option<nat>, ends: Option<(nat, nat)>): seq<Op>
    requires i < |cmds|
  {
    JoinGroup(pgid) + PlugPipes(previous, ends) + RedirectOps(cmds[i], Background(cmds) && i == 0)
  }

  // ------------------------------------------------------------------ what the wiring should be

  /** What stage i should read from: its redirection, /dev/null for a background pipeline, or the pipe before it; None
   *  leaves it the shell's own standard input. */
  function DeclaredInput(cmds: seq<Command>, i: nat): Option<File>
    requires i < |cmds|
  {
    if cmds[i].input.Some? then Some(Input(cmds[i].input.value))
    else if Background(cmds) && i == 0 then Some(DevNull)
    else if i > 0 then Some(ReadEnd(i - 1)) else None
  }

  function DeclaredOutput(cmds: seq<Command>, i: nat): Option<File>
    requires i < |cmds|
  {
    if cmds[i].output.Some? then Some(Output(cmds[i].output.value, cmds[i].append))
    else if i < |cmds| - 1 then Some(WriteEnd(i)) else None
  }

  function StageInput(base: Table, cmds: seq<Command>, i: nat): File
    requires i < |cmds| && 0 in base
  {
    match DeclaredInput(cmds, i) case Some(f) => f case None => base[0]
  }

  function StageOutput(base: Table, cmds: seq<Command>, i: nat): File
    requires i < |cmds| && 1 in base
  {
    match DeclaredOutput(cmds, i) case Some(f) => f case None => base[1]
  }

  predicate Standard(base: Table) { 0 in base && 1 in base }

  /** The shell's own table with nothing changed but the two standard descriptors. */
  function StageTable(base: Table, cmds: seq<Command>, i: nat): Table
    requires i < |cmds| && Standard(base)
  {
    base[0 := StageInput(base, cmds, i)][1 := StageOutput(base, cmds, i)]
  }

  // ------------------------------------------------------------------ a stage wires itself

  /** The shell's table while it holds the previous read end and the ends of the current pipe. */
  predicate Holds(base: Table, t: Table, i: nat, previous: Option<nat>, ends: Option<(nat, nat)>) {
    && (previous.Some? ==> i > 0 && previous.value !in base)
    && (ends.Some? ==> ends.value.0 !in base && ends.value.1 !in base && ends.value.0 != ends.value.1)
    && (previous.Some? && ends.Some? ==> previous.value != ends.value.0 && previous.value != ends.value.1)
    && var held := if previous.Some? then base[previous.value := ReadEnd(i - 1)] else base;
       t == if ends.Some? then PipeTable(held, i, ends.value) else held
  }

  function Plugged(base: Table, i: nat, previous: Option<nat>, ends: Option<(nat, nat)>): Table
    requires previous.Some? ==> i > 0
  {
    var t := if previous.Some? then base[0 := ReadEnd(i - 1)] else base;
    if ends.Some? then t[1 := WriteEnd(i)] else t
  }

  lemma {:induction false} ExecOne(t: Table, op: Op)
    ensures Exec(t, [op]) == DoOp(t, op)
  {
    assert [op][1..] == [];
    match DoOp(t, op) { case None => case Some(t') => assert Exec(t', []) == Some(t'); }
  }

  /** Plugging in the pipes leaves the standard descriptors on them and no other end open. */
  lemma {:induction false} PlugWires(base: Table, t: Table, i: nat, previous: Option<nat>, ends: Option<(nat, nat)>)
    requires Standard(base) && Holds(base, t, i, previous, ends)
    ensures Exec(t, PlugPipes(previous, ends)) == Some(Plugged(base, i, previous, ends))
  {
    hide Exec;
    var p, e := previous, ends;
    var d0 := if p.Some? then [Dup2(p.value, 0)] else [];
    var d1 := if e.Some? then [Dup2(e.value.1, 1)] else [];
    var c0 := if p.Some? then [CloseFd(p.value)] else [];
    var c1 := if e.Some? then [CloseFd(e.value.0), CloseFd(e.value.1)] else [];
    var t0 := if p.Some? then t[0 := ReadEnd(i - 1)] else t;
    var t1 := if e.Some? then t0[1 := WriteEnd(i)] else t0;
    var t2 := if p.Some? then Close(t1, p.value) else t1;
    var t3 := if e.Some? then Close(Close(t2, e.value.0), e.value.1) else t2;
    ExecNil(t); ExecNil(t0); ExecNil(t1); ExecNil(t2);
    if p.Some? { ExecOne(t, d0[0]); ExecOne(t1, c0[0]); }
    if e.Some? {
      ExecOne(t0, d1[0]);
      ExecOne(t2, c1[0]);
      ExecOne(Close(t2, e.value.0), c1[1]);
      assert c1 == [c1[0]] + [c1[1]];
      ExecAppend(t2, [c1[0]], [c1[1]]);
    }
    ExecAppend(t, d0, d1);
    ExecAppend(t, d0 + d1, c0);
    ExecAppend(t, d0 + d1 + c0, c1);
    assert t3 == Plugged(base, i, p, e);
  }

  lemma {:induction false} ExecNil(t: Table)
    ensures Exec(t, []) == Some(t)
  {
  }

  /** open, dup2 and close leave exactly the redirected descriptor changed. The one exception is a descriptor that is
   *  itself the lowest free one: open takes it and close gives it up again. */
  lemma {:induction false} RedirectWires(t: Table, file: File, to: nat)
    ensures Exec(t, [Redirect(file, to)]) == Some(if to == Lowest(t) then t else t[to := file])
  {
    ExecOne(t, Redirect(file, to));
    var r := Close(t[Lowest(t) := file][to := file], Lowest(t));
    if to == Lowest(t) { assert r == t; } else { assert r == t[to := file]; }
  }

  lemma {:induction false} RedirectsWire(t: Table, c: Command, nullInput: bool)
    requires Standard(t)
    ensures var t1 := if c.input.Some? then t[0 := Input(c.input.value)] else if nullInput then t[0 := DevNull] else t;
            Exec(t, RedirectOps(c, nullInput))
              == Some(if c.output.Some? then t1[1 := Output(c.output.value, c.append)] else t1)
  {
    hide Exec;
    var r0 := if c.input.Some? then [Redirect(Input(c.input.value), 0)]
              else if nullInput then [Redirect(DevNull, 0)] else [];
    var r1 := if c.output.Some? then [Redirect(Output(c.output.value, c.append), 1)] else [];
    var t1 := if c.input.Some? then t[0 := Input(c.input.value)] else if nullInput then t[0 := DevNull] else t;
    ExecNil(t); ExecNil(t1);
    if |r0| > 0 { RedirectWires(t, r0[0].file, 0); }
    if |r1| > 0 { RedirectWires(t1, r1[0].file, 1); }
    ExecAppend(t, r0, r1);
  }

  /** The branch of stage i, run from the table it was forked with, ends with exactly the intended table. */
  lemma {:induction false} StageWires(base: Table, t: Table, cmds: seq<Command>, i: nat, pgid: nat,
                                      previous: Option<nat>, ends: Option<(nat, nat)>)
    requires i < |cmds| && Standard(base) && Holds(base, t, i, previous, ends)
    requires (previous.Some? <==> i > 0) && (ends.Some? <==> i < |cmds| - 1)
    ensures Exec(t, ChildProgram(cmds, i, pgid, previous, ends)) == Some(StageTable(base, cmds, i))
  {
    hide Exec, Holds, PlugPipes, RedirectOps;
    var quiet := Background(cmds) && i == 0;
    var u := Plugged(base, i, previous, ends);
    ExecOne(t, SetGroup(pgid));
    PlugWires(base, t, i, previous, ends);
    RedirectsWire(u, cmds[i], quiet);
    ExecAppend(t, JoinGroup(pgid), PlugPipes(previous, ends));
    ExecAppend(t, JoinGroup(pgid) + PlugPipes(previous, ends), RedirectOps(cmds[i], quiet));
    var v := if cmds[i].input.Some? then u[0 := Input(cmds[i].input.value)] else if quiet then u[0 := DevNull] else u;
    var w := if cmds[i].output.Some? then v[1 := Output(cmds[i].output.value, cmds[i].append)] else v;
    assert w == StageTable(base, cmds, i);
  }
}
