/** The launch of a pipeline as a protocol: the shell forks the stages one by one, while the stages already forked make
 *  their own calls, run, end, and are reaped by the SIGCHLD handler, in any order. */
module PipelineLaunch {
  import opened Wrappers
  import opened ShellParser
  import opened PipelineWiring

  // ------------------------------------------------------------------ the protocol

  /** A forked stage: its process group, the group the launch has put it in, its table (the one it reached exec with, or
   *  None once it has exited on a failed call), the calls it has yet to make, and whether the shell has reaped it. */
  datatype Child = Child(pid: nat, pgid: nat, joined: Option<nat>, table: Option<Table>, todo: seq<Op>, reaped: bool)

  /** The loop variables of the shell and every process of the pipeline. group is the shell's own process group;
   *  descendants tells whether a process forked by a running stage is in the first stage's group. */
  datatype Launch = Launch(shell: Table, group: nat, previous: Option<nat>, ends: Option<(nat, nat)>, pgid: nat,
                           children: seq<Child>, i: nat, forked: bool, descendants: bool)

  function Start(base: Table, group: nat): Launch { Launch(base, group, None, None, 0, [], 0, false, false) }

  predicate AtExec(c: Child) { c.table.Some? && c.todo == [] }

  /** A process group lasts until its last member has been reaped. */
  predicate GroupExists(s: Launch, g: nat) {
    || (exists j :: 0 <= j < |s.children| && !s.children[j].reaped && s.children[j].pgid == g)
    || (s.descendants && s.children != [] && g == s.children[0].pid)
  }

  /** setpgid(c, g) succeeds for a group that exists or for c's own. */
  predicate MayJoin(s: Launch, c: Child, g: nat) { g == c.pid || GroupExists(s, g) }

  function Target(c: Child, g: nat): nat { if g == 0 then c.pid else g }

  /** pipe (except for the last stage) and fork, which copies the shell's table. */
  function Fork(s: Launch, cmds: seq<Command>, pid: nat): Launch
    requires s.i < |cmds|
  {
    var ends := if s.i < |cmds| - 1 then Some(PipeEnds(s.shell, s.i)) else None;
    var t := if ends.Some? then PipeTable(s.shell, s.i, ends.value) else s.shell;
    var todo := ChildProgram(cmds, s.i, s.pgid, s.previous, ends);
    s.(shell := t, ends := ends, children := s.children + [Child(pid, s.group, None, Some(t), todo, false)],
       forked := true)
  }

  /** The shell's own setpgid on a stage: it has no effect on one that has called exec, on one that is gone, and for a
   *  group that is gone. */
  function JoinedByShell(s: Launch, c: Child, pgid: nat): Child {
    if c.reaped || AtExec(c) || !MayJoin(s, c, pgid) then c else c.(pgid := pgid, joined := Some(pgid))
  }

  /** The shell after fork: it names the group, joins the child to it and closes what it no longer needs. */
  function Settle(s: Launch): Launch
    requires s.children != []
  {
    var last := |s.children| - 1;
    var c := s.children[last];
    var pgid := if s.pgid == 0 then c.pid else s.pgid;
    var t := if s.previous.Some? then Close(s.shell, s.previous.value) else s.shell;
    var t' := if s.ends.Some? then Close(t, s.ends.value.1) else t;
    var previous := if s.ends.Some? then Some(s.ends.value.0) else s.previous;
    s.(shell := t', pgid := pgid, children := s.children[last := JoinedByShell(s, c, pgid)], previous := previous,
       i := s.i + 1, forked := false)
  }

  /** The shell takes its next step (a fork yields the given process id); stage k makes its next call; the SIGCHLD
   *  handler reaps stage k, which has run or exited; the program of stage k moves to another group; descendants of
   *  running stages appear in the first stage's group or are all gone. */
  datatype Turn = Shell(pid: nat) | Stage(k: nat) | Reap(k: nat) | Moves(k: nat, g: nat) | Descendants(alive: bool)

  /** Would the next call of c succeed if it is a setpgid? */
  predicate NextJoins(s: Launch, c: Child) {
    c.todo != [] && c.todo[0].SetGroup? ==> MayJoin(s, c, Target(c, c.todo[0].pgid))
  }

  /** The next call of a stage; one that fails makes it exit. */
  function Advance(s: Launch, c: Child): Child {
    if c.todo == [] || c.table.None? || c.reaped then c else
    match c.todo[0]
    case SetGroup(g) =>
      if NextJoins(s, c) then c.(pgid := Target(c, g), joined := Some(Target(c, g)), todo := c.todo[1..])
      else c.(table := None, todo := c.todo[1..])
    case op => c.(table := DoOp(c.table.value, op), todo := c.todo[1..])
  }

  /** What a turn other than the shell's makes of stage c. */
  function Behave(s: Launch, c: Child, turn: Turn): Child {
    match turn
    case Stage(_) => Advance(s, c)
    case Reap(_) => if AtExec(c) || c.table.None? then c.(reaped := true) else c
    case Moves(_, g) =>
      if AtExec(c) && !c.reaped && (s.children != [] && g == s.children[0].pid ==> MayJoin(s, c, g))
      then c.(pgid := g) else c
    case _ => c
  }

  /** A process id fork can return: not that of a process not yet reaped, nor of a group that still exists. */
  predicate FreshPid(s: Launch, pid: nat) {
    && pid > 0 && pid != s.group && !GroupExists(s, pid)
    && forall j :: 0 <= j < |s.children| && !s.children[j].reaped ==> s.children[j].pid != pid
  }

  function Step(s: Launch, cmds: seq<Command>, turn: Turn): Launch {
    match turn
    case Shell(pid) =>
      if s.forked then (if s.children != [] then Settle(s) else s)
      else if s.i < |cmds| && FreshPid(s, pid) then Fork(s, cmds, pid)
      else s
    case Descendants(alive) =>
      if s.children != [] && (alive ==> GroupExists(s, s.children[0].pid)) then s.(descendants := alive) else s
    case _ =>
      if turn.k < |s.children| then s.(children := s.children[turn.k := Behave(s, s.children[turn.k], turn)]) else s
  }

  function Run(s: Launch, cmds: seq<Command>, turns: seq<Turn>): Launch
    decreases |turns|
  {
    if turns == [] then s else Run(Step(s, cmds, turns[0]), cmds, turns[1..])
  }

  lemma {:induction false} RunNone(s: Launch, cmds: seq<Command>)
    ensures Run(s, cmds, []) == s
  {
  }

  lemma {:induction false} RunFirst(s: Launch, cmds: seq<Command>, turn: Turn, turns: seq<Turn>)
    ensures Run(s, cmds, [turn] + turns) == Run(Step(s, cmds, turn), cmds, turns)
  {
    assert ([turn] + turns)[1..] == turns;
  }

  lemma {:induction false} RunAppend(s: Launch, cmds: seq<Command>, a: seq<Turn>, b: seq<Turn>)
    ensures Run(s, cmds, a + b) == Run(Run(s, cmds, a), cmds, b)
    decreases |a|
  {
    hide Step;
    if a == [] { assert a + b == b; }
    else {
      assert (a + b)[1..] == a[1..] + b;
      RunAppend(Step(s, cmds, a[0]), cmds, a[1..], b);
    }
  }

  // ------------------------------------------------------------------ what every interleaving keeps

  predicate ShellOk(base: Table, cmds: seq<Command>, s: Launch) {
    && s.i <= |cmds|
    && |s.children| == s.i + (if s.forked then 1 else 0) <= |cmds|
    && (if s.i == |cmds| then s.shell == base && !s.forked else
        && (s.previous.Some? <==> s.i > 0)
        && (s.forked ==> (s.ends.Some? <==> s.i < |cmds| - 1))
        && Holds(base, s.shell, s.i, s.previous, if s.forked then s.ends else None))
    && (if s.i == 0 then s.pgid == 0 else s.pgid == s.children[0].pid)
  }

  /** Stage k, wherever it is in its set-up, still ends up with its table and in the group led by lead, unless it has
   *  exited on a failed setpgid, which the first stage never does. */
  predicate ChildOk(base: Table, cmds: seq<Command>, k: nat, c: Child, lead: nat)
    requires k < |cmds| && Standard(base)
  {
    && c.pid > 0
    && (k == 0 ==> c.pid == lead && c.table.Some?)
    && (forall op :: op in c.todo && op.SetGroup? ==> op.pgid == if k == 0 then 0 else lead)
    && (c.joined.Some? ==> c.joined.value == lead)
    && (c.table.Some? ==>
          && Exec(c.table.value, c.todo) == Some(StageTable(base, cmds, k))
          && (c.joined.Some? || (c.todo != [] && c.todo[0].SetGroup?)))
  }

  predicate ChildrenOk(base: Table, cmds: seq<Command>, s: Launch)
    requires Standard(base) && |s.children| <= |cmds|
  {
    forall k :: 0 <= k < |s.children| ==> ChildOk(base, cmds, k, s.children[k], s.children[0].pid)
  }

  predicate Inv(base: Table, cmds: seq<Command>, s: Launch) {
    Standard(base) && ShellOk(base, cmds, s) && ChildrenOk(base, cmds, s)
  }

  lemma {:induction false} BehaveOk(base: Table, cmds: seq<Command>, s: Launch, k: nat, turn: Turn)
    requires Inv(base, cmds, s) && k < |s.children|
    ensures var c := s.children[k];
            && ChildOk(base, cmds, k, Behave(s, c, turn), s.children[0].pid)
            && Behave(s, c, turn).pid == c.pid
            && (c.table.Some? && NextJoins(s, c) ==> Behave(s, c, turn).table.Some?)
  {
    hide StageTable, DoOp, GroupExists, Holds;
    var c := s.children[k];
    assert ChildOk(base, cmds, k, c, s.children[0].pid) && ChildOk(base, cmds, 0, s.children[0], s.children[0].pid);
    if c.todo != [] {
      assert forall op :: op in c.todo[1..] ==> op in c.todo;
      assert c.todo[0] in c.todo;
      SetGroupKeeps(c);
    }
  }

  lemma {:induction false} SetGroupKeeps(c: Child)
    ensures c.table.Some? && c.todo != [] && c.todo[0].SetGroup? ==> DoOp(c.table.value, c.todo[0]) == c.table
  {
  }

  /** The only call that names a group is the first one. */
  lemma {:induction false} ProgramGroups(cmds: seq<Command>, i: nat, pgid: nat, previous: Option<nat>,
                                         ends: Option<(nat, nat)>)
    requires i < |cmds|
    ensures var ops := ChildProgram(cmds, i, pgid, previous, ends);
            ops != [] && ops[0] == SetGroup(pgid) && forall op :: op in ops && op.SetGroup? ==> op.pgid == pgid
  {
  }

  lemma {:induction false} ForkOk(base: Table, cmds: seq<Command>, s: Launch, pid: nat)
    requires Inv(base, cmds, s) && !s.forked && s.i < |cmds| && pid > 0
    ensures Inv(base, cmds, Fork(s, cmds, pid))
  {
    hide StageTable, Exec, ChildProgram, Lowest;
    var r := Fork(s, cmds, pid);
    var held := s.shell;
    assert Holds(base, r.shell, r.i, r.previous, r.ends);
    StageWires(base, r.shell, cmds, s.i, s.pgid, s.previous, r.ends);
    ProgramGroups(cmds, s.i, s.pgid, s.previous, r.ends);
    forall k | 0 <= k < |r.children| ensures ChildOk(base, cmds, k, r.children[k], r.children[0].pid) {
      if k < s.i { assert r.children[k] == s.children[k]; }
    }
  }

  lemma {:induction false} SettleOk(base: Table, cmds: seq<Command>, s: Launch)
    requires Inv(base, cmds, s) && s.forked
    ensures Inv(base, cmds, Settle(s))
  {
    hide StageTable, Exec, Lowest, PipeEnds, GroupExists;
    var r := Settle(s);
    assert r.children[0].pid == s.children[0].pid;
    forall k | 0 <= k < |r.children| ensures ChildOk(base, cmds, k, r.children[k], r.children[0].pid) {
      assert ChildOk(base, cmds, k, s.children[k], s.children[0].pid);
    }
    assert ChildOk(base, cmds, 0, s.children[0], s.children[0].pid);
    SettleShell(base, cmds, s);
  }

  lemma {:induction false} SettleShell(base: Table, cmds: seq<Command>, s: Launch)
    requires ShellOk(base, cmds, s) && s.forked && (s.i > 0 ==> s.pgid > 0)
    ensures ShellOk(base, cmds, Settle(s))
  {
    hide PipeEnds, Lowest, GroupExists;
    var r := Settle(s);
    var p, e := s.previous, s.ends;
    if e.Some? {
      assert r.shell == base[e.value.0 := ReadEnd(s.i)];
    } else {
      assert r.shell == base;
    }
  }

  lemma {:induction false} StepOk(base: Table, cmds: seq<Command>, s: Launch, turn: Turn)
    requires Inv(base, cmds, s)
    ensures Inv(base, cmds, Step(s, cmds, turn))
  {
    hide StageTable, Exec, Fork, Settle, Holds, Behave, GroupExists;
    match turn {
      case Shell(pid) =>
        if s.forked { SettleOk(base, cmds, s); }
        else if s.i < |cmds| && FreshPid(s, pid) { ForkOk(base, cmds, s, pid); }
      case Descendants(_) =>
      case _ =>
        if turn.k < |s.children| {
          BehaveOk(base, cmds, s, turn.k, turn);
          var r := Step(s, cmds, turn);
          assert r.children[0].pid == s.children[0].pid;
          assert forall j :: 0 <= j < |r.children| && j != turn.k ==> r.children[j] == s.children[j];
          assert ChildrenOk(base, cmds, r);
        }
    }
  }

  lemma {:induction false} RunOk(base: Table, cmds: seq<Command>, s: Launch, turns: seq<Turn>)
    requires Inv(base, cmds, s)
    ensures Inv(base, cmds, Run(s, cmds, turns))
    decreases |turns|
  {
    hide Inv, Step;
    if turns != [] {
      StepOk(base, cmds, s, turns[0]);
      RunOk(base, cmds, Step(s, cmds, turns[0]), turns[1..]);
    }
  }

  lemma {:induction false} StartOk(base: Table, group: nat, cmds: seq<Command>)
    requires Standard(base) && cmds != []
    ensures Inv(base, cmds, Start(base, group)) && Run(Start(base, group), cmds, []) == Start(base, group)
  {
  }

  // ------------------------------------------------------------------ no stage is lost while its group lasts

  /** The guard of setpgid over a run: whenever a stage is about to join a group, the group is its own or exists. */
  predicate GroupKept(s: Launch, cmds: seq<Command>, turns: seq<Turn>)
    decreases |turns|
  {
    turns == [] || (JoinsNow(s, turns[0]) && GroupKept(Step(s, cmds, turns[0]), cmds, turns[1..]))
  }

  predicate JoinsNow(s: Launch, turn: Turn) {
    turn.Stage? && turn.k < |s.children| && s.children[turn.k].table.Some? && !s.children[turn.k].reaped ==>
      NextJoins(s, s.children[turn.k])
  }

  predicate NoneLost(s: Launch) { forall k :: 0 <= k < |s.children| ==> s.children[k].table.Some? }

  lemma {:induction false} KeptStep(base: Table, cmds: seq<Command>, s: Launch, turn: Turn)
    requires Inv(base, cmds, s)
    ensures NoneLost(Step(s, cmds, turn)) <==> NoneLost(s) && JoinsNow(s, turn)
  {
    hide StageTable, Exec, ChildProgram, PipeEnds, PipeTable, GroupExists, Holds;
    var r := Step(s, cmds, turn);
    if turn.Stage? || turn.Reap? || turn.Moves? {
      if turn.k < |s.children| {
        BehaveOk(base, cmds, s, turn.k, turn);
        assert r.children[turn.k] == Behave(s, s.children[turn.k], turn);
        assert forall j :: 0 <= j < |r.children| && j != turn.k ==> r.children[j] == s.children[j];
        LostBehaves(s, s.children[turn.k], turn);
      }
    } else if turn.Shell? {
      assert forall j :: 0 <= j < |s.children| ==> r.children[j].table == s.children[j].table;
    }
  }

  lemma {:induction false} LostBehaves(s: Launch, c: Child, turn: Turn)
    ensures c.table.None? ==> Behave(s, c, turn).table.None?
    ensures turn.Stage? && c.table.Some? && !c.reaped && !NextJoins(s, c) ==> Behave(s, c, turn).table.None?
    ensures !turn.Stage? || c.reaped ==> Behave(s, c, turn).table == c.table
  {
  }

  /** No stage exits during a run if and only if every stage found its group at its setpgid. */
  lemma {:induction false} KeptRun(base: Table, cmds: seq<Command>, s: Launch, turns: seq<Turn>)
    requires Inv(base, cmds, s)
    ensures NoneLost(Run(s, cmds, turns)) <==> NoneLost(s) && GroupKept(s, cmds, turns)
    decreases |turns|
  {
    hide Inv, Step, NoneLost, JoinsNow;
    if turns != [] {
      StepOk(base, cmds, s, turns[0]);
      KeptStep(base, cmds, s, turns[0]);
      KeptRun(base, cmds, Step(s, cmds, turns[0]), turns[1..]);
    }
  }

  /** What a caller can see to: the first stage is not reaped during the loop, as when SIGCHLD is blocked, and its
   *  program stays in its group. */
  predicate LeaderStays(turns: seq<Turn>) {
    forall j :: 0 <= j < |turns| ==> turns[j] != Reap(0) && !(turns[j].Moves? && turns[j].k == 0)
  }

  /** The first stage is in the group it leads, or its setpgid and the shell's are both still to come. */
  predicate LeaderIn(s: Launch) {
    s.children != [] ==>
      && !s.children[0].reaped
      && (s.children[0].pgid == s.children[0].pid
          || (s.i == 0 && s.children[0].todo != [] && s.children[0].todo[0].SetGroup?))
  }

  lemma {:induction false} LeaderStep(base: Table, cmds: seq<Command>, s: Launch, turn: Turn)
    requires Inv(base, cmds, s) && LeaderIn(s) && turn != Reap(0) && !(turn.Moves? && turn.k == 0)
    ensures JoinsNow(s, turn) && LeaderIn(Step(s, cmds, turn))
  {
    hide StageTable, Exec, PipeEnds, PipeTable, Holds, DoOp;
    if s.children != [] { assert ChildOk(base, cmds, 0, s.children[0], s.children[0].pid); }
    match turn {
      case Shell(pid) =>
        if !s.forked && s.i < |cmds| && FreshPid(s, pid) {
          ProgramGroups(cmds, s.i, s.pgid, s.previous, Fork(s, cmds, pid).ends);
        }
      case Descendants(_) =>
      case _ =>
        if turn.k < |s.children| {
          var c := s.children[turn.k];
          assert ChildOk(base, cmds, turn.k, c, s.children[0].pid);
          if c.todo != [] { assert c.todo[0] in c.todo; }
          if turn.k > 0 {
            assert GroupExists(s, s.children[0].pid);
            assert Step(s, cmds, turn).children[0] == s.children[0];
          }
        }
    }
  }

  /** The sufficient condition: a leader that stays keeps its group in existence. */
  lemma {:induction false} LeaderKeeps(base: Table, cmds: seq<Command>, s: Launch, turns: seq<Turn>)
    requires Inv(base, cmds, s) && LeaderIn(s) && LeaderStays(turns)
    ensures GroupKept(s, cmds, turns)
    decreases |turns|
  {
    hide Inv, Step, LeaderIn, JoinsNow;
    if turns != [] {
      StepOk(base, cmds, s, turns[0]);
      LeaderStep(base, cmds, s, turns[0]);
      assert LeaderStays(turns[1..]) by { assert forall j :: 0 <= j < |turns[1..]| ==> turns[1..][j] == turns[j + 1]; }
      LeaderKeeps(base, cmds, Step(s, cmds, turns[0]), turns[1..]);
    }
  }

  // ------------------------------------------------------------------ the results

  /** The shell has left its loop and every stage has reached exec or exited on a failed call. */
  predicate Finished(cmds: seq<Command>, s: Launch) {
    && s.i == |cmds| && !s.forked && |s.children| == |cmds|
    && forall k :: 0 <= k < |cmds| ==> s.children[k].table.None? || s.children[k].todo == []
  }

  /** The shell has left its loop and every stage has reached exec. */
  predicate Launched(cmds: seq<Command>, s: Launch) {
    s.i == |cmds| && !s.forked && |s.children| == |cmds| && forall k :: 0 <= k < |cmds| ==> AtExec(s.children[k])
  }

  lemma {:induction false} LaunchedIs(cmds: seq<Command>, s: Launch)
    ensures Launched(cmds, s) <==> Finished(cmds, s) && NoneLost(s)
  {
  }

  /** However the shell, the stages and the SIGCHLD handler interleave: the shell's table ends up as it was; a stage
   *  that reaches exec does so with that table, only its two standard descriptors replaced, and put into the first
   *  stage's group; and all of them reach exec if and only if each found its group at its setpgid. */
  lemma {:induction false} LaunchWires(base: Table, group: nat, cmds: seq<Command>, turns: seq<Turn>, s: Launch)
    requires cmds != [] && Standard(base) && s == Run(Start(base, group), cmds, turns)
    ensures s.i == |cmds| && !s.forked ==> s.shell == base
    ensures forall k :: 0 <= k < |s.children| && k < |cmds| && AtExec(s.children[k]) ==>
              && s.children[k].table == Some(StageTable(base, cmds, k))
              && s.children[k].joined == Some(s.children[0].pid)
    ensures Finished(cmds, s) ==> (Launched(cmds, s) <==> GroupKept(Start(base, group), cmds, turns))
    ensures LeaderStays(turns) ==> GroupKept(Start(base, group), cmds, turns)
  {
    hide Run, StageTable, Holds, GroupKept;
    StartOk(base, group, cmds);
    RunOk(base, cmds, Start(base, group), turns);
    forall k | 0 <= k < |s.children| && k < |cmds| && AtExec(s.children[k])
      ensures s.children[k].table == Some(StageTable(base, cmds, k)) && s.children[k].joined == Some(s.children[0].pid)
    {
      assert ChildOk(base, cmds, k, s.children[k], s.children[0].pid);
    }
    KeptRun(base, cmds, Start(base, group), turns);
    LaunchedIs(cmds, s);
    if LeaderStays(turns) { LeaderKeeps(base, cmds, Start(base, group), turns); }
  }

  /** What a stage that reaches exec reads and writes, case by case, and that it has every other descriptor of the shell
   *  and no more. */
  lemma {:induction false} StageFiles(base: Table, group: nat, cmds: seq<Command>, turns: seq<Turn>, s: Launch, k: nat)
    requires cmds != [] && Standard(base) && s == Run(Start(base, group), cmds, turns)
    requires k < |s.children| && k < |cmds| && AtExec(s.children[k])
    ensures var t := s.children[k].table.value;
            && 0 in t && 1 in t && (forall fd: nat :: fd > 1 ==> (fd in t <==> fd in base))
            && (forall fd: nat :: fd > 1 && fd in base ==> t[fd] == base[fd])
            && (cmds[k].input.Some? ==> t[0] == Input(cmds[k].input.value))
            && (cmds[k].input.None? && k == 0 ==> t[0] == if cmds[|cmds| - 1].background then DevNull else base[0])
            && (cmds[k].input.None? && k > 0 ==> t[0] == ReadEnd(k - 1))
            && (cmds[k].output.Some? ==> t[1] == Output(cmds[k].output.value, cmds[k].append))
            && (cmds[k].output.None? ==> t[1] == if k + 1 < |cmds| then WriteEnd(k) else base[1])
  {
    hide Run, Inv, GroupKept;
    LaunchWires(base, group, cmds, turns, s);
  }

  predicate NoPipes(base: Table) { forall fd :: fd in base ==> !base[fd].ReadEnd? && !base[fd].WriteEnd? }

  /** Stage k has f on descriptor fd, or had when it reached exec. */
  predicate Has(s: Launch, k: nat, fd: nat, f: File) {
    && k < |s.children| && s.children[k].table.Some? && fd in s.children[k].table.value
    && s.children[k].table.value[fd] == f
  }

  /** When all stages have reached exec, the write end of pipe p was open there in stage p alone and only as its
   *  standard output, its read end in stage p + 1 alone and only as its standard input; each exactly when no file
   *  redirection took the descriptor over. The shell holds neither. */
  lemma {:induction false} PipeEndsHeld(base: Table, group: nat, cmds: seq<Command>, turns: seq<Turn>, s: Launch,
                                        p: nat, k: nat, fd: nat)
    requires Standard(base) && NoPipes(base) && s == Run(Start(base, group), cmds, turns) && Launched(cmds, s)
    requires p + 1 < |cmds|
    ensures Has(s, k, fd, WriteEnd(p)) <==> k == p && fd == 1 && cmds[p].output.None?
    ensures Has(s, k, fd, ReadEnd(p)) <==> k == p + 1 && fd == 0 && cmds[p + 1].input.None?
    ensures fd in s.shell ==> s.shell[fd] != WriteEnd(p) && s.shell[fd] != ReadEnd(p)
  {
    hide Run, Inv;
    LaunchWires(base, group, cmds, turns, s);
    if k < |cmds| {
      assert s.children[k].table == Some(StageTable(base, cmds, k));
    }
  }

  // ------------------------------------------------------------------ no interleaving gets stuck

  function Remaining(cs: seq<Child>): nat { if cs == [] then 0 else |cs[0].todo| + Remaining(cs[1..]) }

  lemma {:induction false} RemainingDrops(cs: seq<Child>, k: nat, c: Child)
    requires k < |cs| && |c.todo| < |cs[k].todo|
    ensures Remaining(cs[k := c]) < Remaining(cs)
    decreases k
  {
    if k == 0 { assert cs[k := c][1..] == cs[1..]; }
    else {
      assert cs[k := c][1..] == cs[1..][k - 1 := c];
      RemainingDrops(cs[1..], k - 1, c);
    }
  }

  lemma {:induction false} FreshPidExists(cs: seq<Child>) returns (pid: nat)
    ensures pid > 0 && forall j :: 0 <= j < |cs| ==> cs[j].pid < pid && cs[j].pgid < pid
    decreases |cs|
  {
    if cs == [] { pid := 1; }
    else {
      var rest := FreshPidExists(cs[1..]);
      pid := rest + cs[0].pid + cs[0].pgid + 1;
      forall j | 0 <= j < |cs| ensures cs[j].pid < pid && cs[j].pgid < pid {
        if j > 0 { assert cs[j] == cs[1..][j - 1]; }
      }
    }
  }

  lemma {:induction false} ForkPossible(s: Launch) returns (pid: nat)
    ensures FreshPid(s, pid)
  {
    pid := FreshPidExists(s.children + [Child(s.group, 0, None, None, [], false)]);
    var cs := s.children + [Child(s.group, 0, None, None, [], false)];
    assert cs[|s.children|].pid == s.group;
    assert forall j :: 0 <= j < |s.children| ==> cs[j] == s.children[j];
  }

  /** The shell is inside its loop or behind it. */
  predicate InLoop(cmds: seq<Command>, s: Launch) {
    s.i <= |cmds| && |s.children| == s.i + (if s.forked then 1 else 0) <= |cmds|
  }

  lemma {:induction false} InLoopKept(cmds: seq<Command>, s: Launch, turn: Turn)
    requires InLoop(cmds, s)
    ensures InLoop(cmds, Step(s, cmds, turn))
  {
    hide ChildProgram, PipeEnds, PipeTable, Behave, GroupExists;
  }

  /** A reaped stage has come to its end. */
  predicate ReapedEnded(s: Launch) {
    forall k :: 0 <= k < |s.children| && s.children[k].reaped ==> s.children[k].table.None? || s.children[k].todo == []
  }

  lemma {:induction false} ReapedStays(cmds: seq<Command>, s: Launch, turn: Turn)
    requires ReapedEnded(s)
    ensures ReapedEnded(Step(s, cmds, turn))
  {
    hide ChildProgram, PipeEnds, PipeTable, GroupExists, DoOp;
    var r := Step(s, cmds, turn);
    if turn.Stage? || turn.Reap? || turn.Moves? {
      if turn.k < |s.children| {
        assert r.children[turn.k] == Behave(s, s.children[turn.k], turn);
        assert forall j :: 0 <= j < |r.children| && j != turn.k ==> r.children[j] == s.children[j];
      }
    }
  }

  /** The turn of the shell, or of some stage with a call to make, that brings the launch nearer to its end. */
  lemma {:induction false} NextTurn(cmds: seq<Command>, s: Launch) returns (turn: Turn)
    requires InLoop(cmds, s) && ReapedEnded(s) && !Finished(cmds, s)
    ensures turn.Shell? || (turn.Stage? && s.i == |cmds| && !s.forked && turn.k < |s.children|)
    ensures var r := Step(s, cmds, turn);
            || r.i > s.i || (r.i == s.i && r.forked && !s.forked)
            || (r.i == s.i && r.forked == s.forked && Remaining(r.children) < Remaining(s.children))
  {
    hide ChildProgram, PipeEnds, PipeTable, GroupExists;
    if s.i < |cmds| {
      var pid := ForkPossible(s);
      turn := Shell(pid);
    } else {
      var k :| 0 <= k < |cmds| && s.children[k].table.Some? && s.children[k].todo != [];
      turn := Stage(k);
      RemainingDrops(s.children, k, Advance(s, s.children[k]));
    }
  }

  /** No stage and no call of the shell blocks, whatever the shell's table: the launch can always run to its end. */
  lemma {:induction false} CanFinish(cmds: seq<Command>, s: Launch)
    requires InLoop(cmds, s) && ReapedEnded(s)
    ensures exists turns :: Finished(cmds, Run(s, cmds, turns))
    decreases |cmds| - s.i, if s.forked then 0 else 1, Remaining(s.children)
  {
    hide Step, Run, ReapedEnded;
    if Finished(cmds, s) {
      RunNone(s, cmds);
      assert Finished(cmds, Run(s, cmds, []));
    } else {
      var turn := NextTurn(cmds, s);
      InLoopKept(cmds, s, turn);
      ReapedStays(cmds, s, turn);
      CanFinish(cmds, Step(s, cmds, turn));
      var turns :| Finished(cmds, Run(Step(s, cmds, turn), cmds, turns));
      RunFirst(s, cmds, turn, turns);
      assert Finished(cmds, Run(s, cmds, [turn] + turns));
    }
  }

  /** While no stage is lost and the leader is in place, the launch can still be completed without losing one. */
  lemma {:induction false} CanLaunch(base: Table, cmds: seq<Command>, s: Launch)
    requires Inv(base, cmds, s) && ReapedEnded(s) && NoneLost(s) && LeaderIn(s)
    ensures exists turns :: Launched(cmds, Run(s, cmds, turns))
    decreases |cmds| - s.i, if s.forked then 0 else 1, Remaining(s.children)
  {
    hide Inv, Step, Run, ReapedEnded, NoneLost, LeaderIn, JoinsNow;
    InvInLoop(base, cmds, s);
    LaunchedIs(cmds, s);
    if Finished(cmds, s) {
      RunNone(s, cmds);
      assert Launched(cmds, Run(s, cmds, []));
    } else {
      var turn := NextTurn(cmds, s);
      InLoopKept(cmds, s, turn);
      ReapedStays(cmds, s, turn);
      StepOk(base, cmds, s, turn);
      LeaderStep(base, cmds, s, turn);
      KeptStep(base, cmds, s, turn);
      CanLaunch(base, cmds, Step(s, cmds, turn));
      var turns :| Launched(cmds, Run(Step(s, cmds, turn), cmds, turns));
      RunFirst(s, cmds, turn, turns);
      assert Launched(cmds, Run(s, cmds, [turn] + turns));
    }
  }

  lemma {:induction false} InvInLoop(base: Table, cmds: seq<Command>, s: Launch)
    requires Inv(base, cmds, s)
    ensures InLoop(cmds, s)
  {
  }

  // ------------------------------------------------------------------ exactly when the pipeline is connected

  /** Every stage runs with its declared input and output where they belong. */
  predicate Connected(cmds: seq<Command>, s: Launch) {
    forall k :: 0 <= k < |cmds| ==>
      && (DeclaredInput(cmds, k).Some? ==> Has(s, k, 0, DeclaredInput(cmds, k).value))
      && (DeclaredOutput(cmds, k).Some? ==> Has(s, k, 1, DeclaredOutput(cmds, k).value))
  }

  predicate AllJoined(s: Launch) {
    forall k :: 0 <= k < |s.children| ==> s.children[k].joined == Some(s.children[0].pid)
  }

  /** However a launch interleaves, it connects the pipeline if and only if the shell itself has descriptors 0 and 1
   *  open and every stage finds its group at its setpgid; and then all stages are in the first one's group. This is so
   *  for every pipeline of at least two commands, with whatever redirections. */
  lemma {:induction false} ConnectedExactly(base: Table, group: nat, cmds: seq<Command>, turns: seq<Turn>, s: Launch)
    requires |cmds| >= 2 && s == Run(Start(base, group), cmds, turns) && Finished(cmds, s)
    ensures Connected(cmds, s) <==> Standard(base) && GroupKept(Start(base, group), cmds, turns)
    ensures Connected(cmds, s) ==> AllJoined(s)
  {
    hide Run, Step, Inv, StageTable, Exec, GroupKept;
    if Standard(base) {
      LaunchWires(base, group, cmds, turns, s);
      StartOk(base, group, cmds);
      RunOk(base, cmds, Start(base, group), turns);
      LaunchedIs(cmds, s);
      if Launched(cmds, s) {
        forall k | 0 <= k < |cmds|
          ensures DeclaredInput(cmds, k).Some? ==> Has(s, k, 0, DeclaredInput(cmds, k).value)
          ensures DeclaredOutput(cmds, k).Some? ==> Has(s, k, 1, DeclaredOutput(cmds, k).value)
        {
          StageTableHas(base, cmds, k);
        }
      } else {
        var k :| 0 <= k < |s.children| && s.children[k].table.None?;
        LeaderNotLost(base, cmds, s);
        assert k > 0;
        assert !Has(s, k, 0, DeclaredInput(cmds, k).value);
      }
    } else {
      RunDoomed(base, cmds, Start(base, group), turns);
      var (k, fd) := if 0 !in base then (1, 0) else (0, 1);
      assert Doomed(base, s);
      assert Lacks(s.children[k], fd);
      assert s.children[k].table.Some? ==> fd !in s.children[k].table.value by { ExecNothing(s.children[k]); }
      assert !Has(s, k, fd, if fd == 0 then DeclaredInput(cmds, 1).value else DeclaredOutput(cmds, 0).value);
    }
  }

  lemma {:induction false} LeaderNotLost(base: Table, cmds: seq<Command>, s: Launch)
    requires Inv(base, cmds, s) && s.children != []
    ensures s.children[0].table.Some?
  {
    assert ChildOk(base, cmds, 0, s.children[0], s.children[0].pid);
  }

  lemma {:induction false} StageTableHas(base: Table, cmds: seq<Command>, k: nat)
    requires k < |cmds| && Standard(base)
    ensures var t := StageTable(base, cmds, k);
            0 in t && 1 in t && t[0] == StageInput(base, cmds, k) && t[1] == StageOutput(base, cmds, k)
  {
  }

  lemma {:induction false} ExecNothing(c: Child)
    ensures c.table.Some? && c.todo == [] ==> Exec(c.table.value, c.todo) == c.table
  {
  }

  /** A stage that has exited, or will reach exec, if at all, without descriptor fd. */
  predicate Lacks(c: Child, fd: nat) {
    c.table.Some? ==> var r := Exec(c.table.value, c.todo); r.Some? ==> fd !in r.value
  }

  /** What every interleaving keeps when a standard descriptor is closed: with 0 closed, the first pipe's read end takes
   *  it and stage 1 loses its input; otherwise the read end takes 1 and stage 0 loses its output. */
  predicate Doomed(base: Table, s: Launch) {
    && |s.children| == s.i + (if s.forked then 1 else 0)
    && (|s.children| == 0 ==> s.shell == base && s.previous.None?)
    && if 0 !in base then
         && (|s.children| == 1 && s.forked ==> s.ends.Some? && s.ends.value.0 == 0)
         && (|s.children| == 1 && !s.forked ==> s.previous == Some(0))
         && (|s.children| >= 2 ==> Lacks(s.children[1], 0))
       else |s.children| >= 1 ==> Lacks(s.children[0], 1)
  }

  lemma {:induction false} LowestIs(t: Table, fd: nat)
    requires fd !in t && forall k: nat :: k < fd ==> k in t
    ensures Lowest(t) == fd
  {
    var r := Lowest(t);
    if r < fd { assert false; }
  }

  /** fd is the lowest free descriptor. */
  predicate Gap(t: Table, fd: nat) { fd !in t && forall k: nat :: k < fd ==> k in t }

  /** Redirections never fill the gap: each opens it and closes it again. */
  lemma {:induction false} GapStays(t: Table, ops: seq<Op>, fd: nat)
    requires Gap(t, fd) && forall op :: op in ops ==> op.Redirect?
    ensures Exec(t, ops).Some? && Gap(Exec(t, ops).value, fd)
    decreases |ops|
  {
    if ops != [] {
      LowestIs(t, fd);
      assert ops[0] in ops;
      var t' := DoOp(t, ops[0]).value;
      assert forall op :: op in ops[1..] ==> op in ops;
      GapStays(t', ops[1..], fd);
    }
  }

  lemma {:induction false} ClosesAll(t: Table, ops: seq<Op>, fd: nat)
    requires forall op :: op in ops ==> op.CloseFd? && op.fd >= fd
    requires (CloseFd(fd) in ops || fd !in t) && forall k: nat :: k < fd ==> k in t
    ensures Exec(t, ops).Some? && Gap(Exec(t, ops).value, fd)
    decreases |ops|
  {
    if ops != [] {
      assert ops[0] in ops && ops == [ops[0]] + ops[1..];
      ClosesAll(Close(t, ops[0].fd), ops[1..], fd);
    }
  }

  /** Joining a group and dup2 close nothing. */
  lemma {:induction false} DupsKeep(t: Table, ops: seq<Op>)
    requires forall op :: op in ops ==> op.SetGroup? || op.Dup2?
    ensures Exec(t, ops).Some? ==> t.Keys <= Exec(t, ops).value.Keys
    decreases |ops|
  {
    if ops != [] {
      assert ops[0] in ops;
      assert forall op :: op in ops[1..] ==> op in ops;
      match DoOp(t, ops[0]) {
        case None =>
        case Some(t') => DupsKeep(t', ops[1..]);
      }
    }
  }

  /** A stage whose pipe ends sit on descriptor fd, and on none below it, reaches exec without fd. */
  lemma {:induction false} ClosesItself(t: Table, pgid: nat, previous: Option<nat>, ends: Option<(nat, nat)>,
                                        cmds: seq<Command>, i: nat, fd: nat)
    requires i < |cmds| && forall k: nat :: k < fd ==> k in t
    requires previous == Some(fd) || (ends.Some? && ends.value.0 == fd)
    requires (previous.Some? ==> previous.value >= fd) && (ends.Some? ==> ends.value.0 >= fd && ends.value.1 >= fd)
    ensures var r := Exec(t, ChildProgram(cmds, i, pgid, previous, ends)); r.Some? ==> fd !in r.value
  {
    hide Exec;
    var d := JoinGroup(pgid) + (if previous.Some? then [Dup2(previous.value, 0)] else [])
             + (if ends.Some? then [Dup2(ends.value.1, 1)] else []);
    var c := (if previous.Some? then [CloseFd(previous.value)] else [])
             + (if ends.Some? then [CloseFd(ends.value.0), CloseFd(ends.value.1)] else []);
    var r := RedirectOps(cmds[i], Background(cmds) && i == 0);
    assert ChildProgram(cmds, i, pgid, previous, ends) == d + c + r;
    ExecAppend(t, d, c);
    ExecAppend(t, d + c, r);
    DupsKeep(t, d);
    if Exec(t, d).Some? {
      var t1 := Exec(t, d).value;
      assert CloseFd(fd) in c;
      ClosesAll(t1, c, fd);
      GapStays(Exec(t1, c).value, r, fd);
    }
  }

  lemma {:induction false} ForkDoomed(base: Table, cmds: seq<Command>, s: Launch, pid: nat)
    requires |cmds| >= 2 && !Standard(base) && Doomed(base, s) && !s.forked && s.i < |cmds|
    ensures Doomed(base, Fork(s, cmds, pid))
  {
    hide Exec, ChildProgram, PipeEnds, Lowest, GroupExists;
    var r := Fork(s, cmds, pid);
    if |s.children| == 0 {
      FirstPipe(base);
      if 0 in base { ClosesItself(r.shell, s.pgid, s.previous, r.ends, cmds, 0, 1); }
    } else if |s.children| == 1 && 0 !in base {
      ClosesItself(r.shell, s.pgid, s.previous, r.ends, cmds, 1, 0);
    }
  }

  /** The first pipe takes the closed standard descriptor. */
  lemma {:induction false} FirstPipe(base: Table)
    requires !Standard(base)
    ensures PipeEnds(base, 0).0 == (if 0 !in base then 0 else 1)
  {
    LowestIs(base, if 0 !in base then 0 else 1);
  }

  lemma {:induction false} StepDoomed(base: Table, cmds: seq<Command>, s: Launch, turn: Turn)
    requires |cmds| >= 2 && !Standard(base) && Doomed(base, s)
    ensures Doomed(base, Step(s, cmds, turn))
  {
    hide Exec, Fork, GroupExists, Behave;
    match turn {
      case Shell(pid) =>
        if s.forked { SettleDoomed(base, cmds, s); }
        else if s.i < |cmds| && FreshPid(s, pid) { ForkDoomed(base, cmds, s, pid); }
      case Descendants(_) =>
      case _ =>
        if turn.k < |s.children| {
          BehaveLacks(s, s.children[turn.k], turn, 0);
          BehaveLacks(s, s.children[turn.k], turn, 1);
        }
    }
  }

  lemma {:induction false} SettleDoomed(base: Table, cmds: seq<Command>, s: Launch)
    requires Doomed(base, s) && s.forked
    ensures Doomed(base, Settle(s))
  {
    hide Exec, GroupExists;
  }

  lemma {:induction false} BehaveLacks(s: Launch, c: Child, turn: Turn, fd: nat)
    ensures Lacks(c, fd) ==> Lacks(Behave(s, c, turn), fd)
  {
    hide GroupExists;
  }

  lemma {:induction false} RunDoomed(base: Table, cmds: seq<Command>, s: Launch, turns: seq<Turn>)
    requires |cmds| >= 2 && !Standard(base) && Doomed(base, s)
    ensures Doomed(base, Run(s, cmds, turns))
    decreases |turns|
  {
    hide Doomed, Step;
    if turns != [] {
      StepDoomed(base, cmds, s, turns[0]);
      RunDoomed(base, cmds, Step(s, cmds, turns[0]), turns[1..]);
    }
  }

  // ------------------------------------------------------------------ two launches that fail

  function Plain(w: string): Command { Command([w], None, None, false, false) }

  /** A shell started without standard input, launching two commands without redirections: a launch that runs to its
   *  end exists, and it leaves the second command unconnected. */
  lemma {:induction false} ClosedInputExample() returns (base: Table, cmds: seq<Command>, turns: seq<Turn>)
    ensures base == map[1 := Inherited(1), 2 := Inherited(2)] && cmds == [Plain("true"), Plain("cat")]
    ensures var s := Run(Start(base, 0), cmds, turns); Finished(cmds, s) && !Connected(cmds, s)
  {
    hide Run, Connected;
    base := map[1 := Inherited(1), 2 := Inherited(2)];
    cmds := [Plain("true"), Plain("cat")];
    CanFinish(cmds, Start(base, 0));
    turns :| Finished(cmds, Run(Start(base, 0), cmds, turns));
    ConnectedExactly(base, 0, cmds, turns, Run(Start(base, 0), cmds, turns));
  }

  /** The calls of the first stage never fail: it can run up to exec by itself. */
  lemma {:induction false} LeaderRuns(base: Table, cmds: seq<Command>, s: Launch) returns (turns: seq<Turn>)
    requires Inv(base, cmds, s) && s.children != [] && !s.children[0].reaped
    ensures var r := Run(s, cmds, turns);
            && r.children != []
            && r == s.(children := s.children[0 := r.children[0]]) && AtExec(r.children[0])
            && r.children[0].pid == s.children[0].pid && Inv(base, cmds, r)
    decreases |s.children[0].todo|
  {
    hide StageTable, Exec, Run, GroupExists, DoOp, Holds;
    var c := s.children[0];
    LeaderNotLost(base, cmds, s);
    if c.todo == [] {
      turns := [];
      RunNone(s, cmds);
      assert s.children[0 := c] == s.children;
    } else {
      assert ChildOk(base, cmds, 0, c, c.pid);
      assert c.todo[0] in c.todo;
      BehaveOk(base, cmds, s, 0, Stage(0));
      StepOk(base, cmds, s, Stage(0));
      var r := Step(s, cmds, Stage(0));
      var rest := LeaderRuns(base, cmds, r);
      turns := [Stage(0)] + rest;
      RunFirst(s, cmds, Stage(0), rest);
    }
  }

  /** An ordinary shell launches `true | cat`. The first command is done and reaped before the second is forked; with it
   *  goes the process group, so the second stage exits on its setpgid and the launch ends unconnected. */
  lemma {:induction false} ReapedLeaderExample() returns (base: Table, cmds: seq<Command>, turns: seq<Turn>)
    ensures base == map[0 := Inherited(0), 1 := Inherited(1), 2 := Inherited(2)]
    ensures cmds == [Plain("true"), Plain("cat")]
    ensures var s := Run(Start(base, 5), cmds, turns);
            Finished(cmds, s) && s.children[1].table.None? && !Connected(cmds, s)
  {
    hide Run, Connected, PipeEnds, PipeTable, RedirectOps, PlugPipes, StageTable, Exec, DoOp;
    base := map[0 := Inherited(0), 1 := Inherited(1), 2 := Inherited(2)];
    cmds := [Plain("true"), Plain("cat")];
    var s := Start(base, 5);
    StartOk(base, 5, cmds);
    var a := Step(s, cmds, Shell(10));
    StepOk(base, cmds, s, Shell(10));
    var b := Step(a, cmds, Shell(10));
    StepOk(base, cmds, a, Shell(10));
    var leader := LeaderRuns(base, cmds, b);
    var c := Run(b, cmds, leader);
    var tail := [Reap(0), Shell(11), Stage(1), Shell(11)];
    var z := LostTail(cmds, c);
    turns := [Shell(10)] + ([Shell(10)] + (leader + tail));
    RunFirst(s, cmds, Shell(10), [Shell(10)] + (leader + tail));
    RunFirst(a, cmds, Shell(10), leader + tail);
    RunAppend(b, cmds, leader, tail);
    assert !Has(z, 1, 0, ReadEnd(0));
    Unconnected(cmds, z);
  }

  lemma {:induction false} Unconnected(cmds: seq<Command>, s: Launch)
    requires cmds == [Plain("true"), Plain("cat")] && !Has(s, 1, 0, ReadEnd(0))
    ensures !Connected(cmds, s)
  {
    assert DeclaredInput(cmds, 1) == Some(ReadEnd(0));
  }

  /** The end of that run, from the moment the first stage has reached exec. */
  lemma {:induction false} LostTail(cmds: seq<Command>, c: Launch) returns (z: Launch)
    requires cmds == [Plain("true"), Plain("cat")] && c.i == 1 && !c.forked && !c.descendants
    requires |c.children| == 1 && AtExec(c.children[0]) && c.children[0].pid == 10 && c.group == 5 && c.pgid == 10
    ensures z == Run(c, cmds, [Reap(0), Shell(11), Stage(1), Shell(11)])
    ensures Finished(cmds, z) && |z.children| == 2 && z.children[1].table.None?
  {
    hide PipeEnds, PipeTable, RedirectOps, PlugPipes;
    var d := Step(c, cmds, Reap(0));
    var e := Step(d, cmds, Shell(11));
    assert FreshPid(d, 11);
    assert e.children == d.children + [e.children[1]] && e.children[1].todo[0] == SetGroup(10);
    assert !GroupExists(e, 10);
    var f := Step(e, cmds, Stage(1));
    assert f.children[1].table.None? && f.children[0] == e.children[0];
    assert !GroupExists(f, 10);
    z := Step(f, cmds, Shell(11));
    var t4 := [Shell(11)];
    var t3 := [Stage(1)] + t4;
    var t2 := [Shell(11)] + t3;
    assert [Reap(0), Shell(11), Stage(1), Shell(11)] == [Reap(0)] + t2;
    RunFirst(c, cmds, Reap(0), t2);
    RunFirst(d, cmds, Shell(11), t3);
    RunFirst(e, cmds, Stage(1), t4);
    assert t4 == [Shell(11)] + [];
    RunFirst(f, cmds, Shell(11), []);
    RunNone(z, cmds);
  }
}
