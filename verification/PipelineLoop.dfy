/** The launch loop of execute_pipeline in its own form, with everything else that goes on between its steps. */
module PipelineLoop {
  import opened Wrappers
  import opened ShellParser
  import opened PipelineWiring
  import opened PipelineLaunch

  /** The turns of others between two of the shell's. */
  predicate Quiet(turns: seq<Turn>) { forall j :: 0 <= j < |turns| ==> !turns[j].Shell? }

  /** The shell's two turns for each of the first n stages, which get the ids pids, with what happens after each. */
  function Woven(pids: seq<nat>, gaps: seq<(seq<Turn>, seq<Turn>)>, n: nat): seq<Turn>
    requires n <= |pids| && n <= |gaps|
  {
    if n == 0 then [] else
    Woven(pids, gaps, n - 1) + [Shell(pids[n - 1])] + gaps[n - 1].0 + [Shell(pids[n - 1])] + gaps[n - 1].1
  }

  lemma {:induction false} WovenPrefix(pids: seq<nat>, more: nat, gaps: seq<(seq<Turn>, seq<Turn>)>, n: nat)
    requires n <= |pids| && n <= |gaps|
    ensures Woven(pids + [more], gaps, n) == Woven(pids, gaps, n)
  {
    if n > 0 { WovenPrefix(pids, more, gaps, n - 1); }
  }

  /** One iteration as turns of the protocol. */
  lemma {:induction false} WovenStep(s0: Launch, cmds: seq<Command>, pids: seq<nat>, gaps: seq<(seq<Turn>, seq<Turn>)>,
                                     n: nat, s: Launch)
    requires n < |pids| && n < |gaps| && s == Run(s0, cmds, Woven(pids, gaps, n))
    requires !s.forked && s.i < |cmds| && FreshPid(s, pids[n])
    ensures var a := Run(Fork(s, cmds, pids[n]), cmds, gaps[n].0);
            a.forked && a.children != [] ==>
              Run(s0, cmds, Woven(pids, gaps, n + 1)) == Run(Settle(a), cmds, gaps[n].1)
  {
    hide Run, Fork, Settle, FreshPid;
    var turn := Shell(pids[n]);
    var f := Fork(s, cmds, pids[n]);
    var w := Woven(pids, gaps, n);
    RunAppend(s0, cmds, w, [turn]);
    RunFirst(s, cmds, turn, []);
    assert [turn] + [] == [turn];
    RunNone(f, cmds);
    assert Run(s0, cmds, w + [turn]) == f by { assert Step(s, cmds, turn) == f; }
    RunAppend(s0, cmds, w + [turn], gaps[n].0);
    var a := Run(f, cmds, gaps[n].0);
    if a.forked && a.children != [] {
      RunAppend(s0, cmds, w + [turn] + gaps[n].0, [turn]);
      RunFirst(a, cmds, turn, []);
      RunNone(Settle(a), cmds);
      RunAppend(s0, cmds, w + [turn] + gaps[n].0 + [turn], gaps[n].1);
    }
  }

  /** What the others cannot touch. */
  lemma {:induction false} QuietRun(s: Launch, cmds: seq<Command>, turns: seq<Turn>)
    requires Quiet(turns)
    ensures var r := Run(s, cmds, turns);
            && r == s.(children := r.children, descendants := r.descendants) && |r.children| == |s.children|
            && forall k :: 0 <= k < |s.children| ==> r.children[k].pid == s.children[k].pid
    decreases |turns|
  {
    hide GroupExists, DoOp;
    if turns != [] {
      assert forall j :: 0 <= j < |turns[1..]| ==> turns[1..][j] == turns[j + 1];
      QuietRun(Step(s, cmds, turns[0]), cmds, turns[1..]);
    }
  }

  /** The shell process during execute_pipeline, and the processes it has forked. */
  class Launcher {
    var shell: Table
    var previousRead: Option<nat>
    var pipefd: Option<(nat, nat)>
    var pgid: nat
    var children: seq<Child>
    var descendants: bool
    const group: nat

    constructor (table: Table, ownGroup: nat)
      ensures shell == table && group == ownGroup
    {
      shell, group, previousRead, pipefd, pgid, children, descendants := table, ownGroup, None, None, 0, [], false;
    }

    ghost function Model(i: nat, forked: bool): Launch
      reads this
    {
      Launch(shell, group, previousRead, pipefd, pgid, children, i, forked, descendants)
    }

    /** pipe and fork; the kernel picks the child's process id. */
    method ForkStage(cmds: seq<Command>, i: nat) returns (pid: nat)
      requires i < |cmds|
      modifies this
      ensures FreshPid(old(Model(i, false)), pid) && Model(i, true) == Fork(old(Model(i, false)), cmds, pid)
    {
      ghost var possible := ForkPossible(Model(i, false));
      var s := Launch(shell, group, previousRead, pipefd, pgid, children, i, false, descendants);
      pid :| FreshPid(s, pid);
      if i < |cmds| - 1 {
        pipefd := Some(PipeEnds(shell, i));
        shell := PipeTable(shell, i, pipefd.value);
      } else {
        pipefd := None;
      }
      var todo := ChildProgram(cmds, i, pgid, previousRead, pipefd);
      children := children + [Child(pid, group, None, Some(shell), todo, false)];
    }

    /** The parent after fork: setpgid and close. */
    method SettleStage(i: nat)
      requires children != []
      modifies this
      ensures Model(i + 1, false) == Settle(old(Model(i, true)))
    {
      var last := |children| - 1;
      var s := Launch(shell, group, previousRead, pipefd, pgid, children, i, true, descendants);
      if pgid == 0 { pgid := children[last].pid; }
      children := children[last := JoinedByShell(s, children[last], pgid)];
      if previousRead.Some? { shell := Close(shell, previousRead.value); }
      if pipefd.Some? {
        shell := Close(shell, pipefd.value.1);
        previousRead := Some(pipefd.value.0);
      }
    }

    /** Meanwhile the stages make their calls, run, end and are reaped. */
    method Others(cmds: seq<Command>, i: nat, forked: bool, turns: seq<Turn>)
      requires Quiet(turns)
      modifies this`children, this`descendants
      ensures Model(i, forked) == Run(old(Model(i, forked)), cmds, turns)
    {
      hide Run, Step;
      var j := 0;
      assert turns[0..] == turns;
      while j < |turns|
        invariant 0 <= j <= |turns|
        invariant Run(Model(i, forked), cmds, turns[j..]) == Run(old(Model(i, forked)), cmds, turns)
      {
        assert turns[j..] == [turns[j]] + turns[j + 1..];
        RunFirst(Model(i, forked), cmds, turns[j], turns[j + 1..]);
        var s := Launch(shell, group, previousRead, pipefd, pgid, children, i, forked, descendants);
        var r := Step(s, cmds, turns[j]);
        QuietRun(s, cmds, [turns[j]]);
        RunFirst(s, cmds, turns[j], []);
        RunNone(r, cmds);
        assert [turns[j]] + [] == [turns[j]];
        children, descendants := r.children, r.descendants;
        j := j + 1;
      }
      assert turns[j..] == [];
      RunNone(Model(i, forked), cmds);
    }

    /** One iteration, with what the others do after fork and after the parent's part. */
    method LaunchStage(cmds: seq<Command>, i: nat, gap: (seq<Turn>, seq<Turn>), ghost base: Table) returns (pid: nat)
      requires i < |cmds| && Inv(base, cmds, Model(i, false)) && Quiet(gap.0) && Quiet(gap.1)
      modifies this
      ensures FreshPid(old(Model(i, false)), pid) && Inv(base, cmds, Model(i + 1, false))
      ensures |children| == |old(children)| + 1 && children[|old(children)|].pid == pid
      ensures forall k :: 0 <= k < |old(children)| ==> children[k].pid == old(children)[k].pid
      ensures var a := Run(Fork(old(Model(i, false)), cmds, pid), cmds, gap.0);
              a.forked && a.children != [] && Model(i + 1, false) == Run(Settle(a), cmds, gap.1)
    {
      hide Run, Fork, Settle, FreshPid, ShellOk, ChildrenOk;
      ghost var s := Model(i, false);
      pid := ForkStage(cmds, i);
      ghost var f := Model(i, true);
      ForkForks(s, cmds, pid);
      FreshPositive(s, pid);
      ForkOk(base, cmds, s, pid);
      QuietRun(f, cmds, gap.0);
      RunOk(base, cmds, f, gap.0);
      Others(cmds, i, true, gap.0);
      ghost var a := Model(i, true);
      SettleOk(base, cmds, a);
      SettlePids(a);
      SettleStage(i);
      ghost var b := Model(i + 1, false);
      QuietRun(b, cmds, gap.1);
      RunOk(base, cmds, b, gap.1);
      Others(cmds, i + 1, false, gap.1);
    }

    /** The launch loop, for a pipeline of at least two commands whose pipe and fork calls succeed, whatever the others
     *  do between the shell's steps (gaps). The run it goes through is one of the protocol; the shell's table is back
     *  to what it was; every stage not lost is at or on its way to its own table and the first one's group; and no
     *  stage is lost if and only if each found its group. */
    method ExecutePipeline(cmds: seq<Command>, gaps: seq<(seq<Turn>, seq<Turn>)>) returns (pids: seq<nat>)
      requires |cmds| >= 2 && |gaps| == |cmds| && Standard(shell)
      requires forall j :: 0 <= j < |gaps| ==> Quiet(gaps[j].0) && Quiet(gaps[j].1)
      modifies this
      ensures |pids| == |cmds| == |children| && shell == old(shell) && pgid == pids[0]
      ensures Model(|cmds|, false) == Run(Start(old(shell), group), cmds, Woven(pids, gaps, |cmds|))
      ensures forall k :: 0 <= k < |cmds| ==> children[k].pid == pids[k]
      ensures forall k :: 0 <= k < |cmds| && children[k].table.Some? ==>
                && Exec(children[k].table.value, children[k].todo) == Some(StageTable(old(shell), cmds, k))
                && (AtExec(children[k]) ==> children[k].joined == Some(pgid))
      ensures (forall k :: 0 <= k < |cmds| ==> children[k].table.Some?)
         <==> GroupKept(Start(old(shell), group), cmds, Woven(pids, gaps, |cmds|))
    {
      hide Run, StageTable, Holds, Fork, Settle, Exec, GroupKept, FreshPid, Woven, Inv;
      ghost var base := shell;
      ghost var s0 := Start(base, group);
      previousRead, pipefd, pgid, children, descendants := None, None, 0, [], false;
      StartOk(base, group, cmds);
      pids := [];
      NothingWoven(gaps);
      var i := 0;
      while i < |cmds|
        invariant 0 <= i <= |cmds| && |children| == |pids| == i
        invariant forall k :: 0 <= k < i ==> children[k].pid == pids[k]
        invariant Inv(base, cmds, Model(i, false))
        invariant Model(i, false) == Run(s0, cmds, Woven(pids, gaps, i))
      {
        ghost var s := Model(i, false);
        var pid := LaunchStage(cmds, i, gaps[i], base);
        WovenPrefix(pids, pid, gaps, i);
        pids := pids + [pid];
        WovenStep(s0, cmds, pids, gaps, i, s);
        i := i + 1;
      }
      KeptRun(base, cmds, s0, Woven(pids, gaps, i));
      InvShell(base, cmds, Model(i, false));
      forall k | 0 <= k < |cmds| && children[k].table.Some?
        ensures Exec(children[k].table.value, children[k].todo) == Some(StageTable(base, cmds, k))
        ensures AtExec(children[k]) ==> children[k].joined == Some(pgid)
      {
        InvChild(base, cmds, Model(i, false), k);
      }
    }
  }

  lemma {:induction false} InvShell(base: Table, cmds: seq<Command>, s: Launch)
    requires Inv(base, cmds, s) && s.i == |cmds| > 0
    ensures s.shell == base && s.children != [] && s.pgid == s.children[0].pid
  {
  }

  lemma {:induction false} InvChild(base: Table, cmds: seq<Command>, s: Launch, k: nat)
    requires Inv(base, cmds, s) && k < |s.children|
    ensures k < |cmds| && ChildOk(base, cmds, k, s.children[k], s.children[0].pid)
  {
  }

  lemma {:induction false} NothingWoven(gaps: seq<(seq<Turn>, seq<Turn>)>)
    ensures Woven([], gaps, 0) == []
  {
  }

  lemma {:induction false} FreshPositive(s: Launch, pid: nat)
    requires FreshPid(s, pid)
    ensures pid > 0
  {
  }

  lemma {:induction false} ForkForks(s: Launch, cmds: seq<Command>, pid: nat)
    requires s.i < |cmds|
    ensures var r := Fork(s, cmds, pid);
            && r.forked && r.i == s.i && |r.children| == |s.children| + 1 && r.children[|s.children|].pid == pid
            && r.children[..|s.children|] == s.children
  {
  }

  lemma {:induction false} SettlePids(s: Launch)
    requires s.children != []
    ensures var cs := Settle(s).children;
            |cs| == |s.children| && forall k :: 0 <= k < |s.children| ==> cs[k].pid == s.children[k].pid
  {
  }
}
