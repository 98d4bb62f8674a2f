/** The process table and its operations (kernel/proc.c), the timer (kernel/timer.c), the system calls
 *  (kernel/syscall.c).  A pointer to a process or a trapframe is its slot number. */
module Process {
  import opened Wrappers
  import opened Sv39
  import PageTable
  import opened AddressSpace
  import opened UserCopy

  const MAX_SLEEP := 1000000
  const A0 := 10
  const A1 := 11
  const A7 := 17

  datatype State = Unused | Runnable | Running | Sleeping | Zombie

  datatype Proc = Proc(pid: nat, state: State, exitStatus: int, parent: Option<nat>, pagetable: Option<nat>,
                       tf: nat, wakeTick: nat)

  /** `kernelStack` is the slot whose kernel stack kernel_sp points to the top of. */
  datatype TrapFrame = TrapFrame(regs: seq<nat>, sepc: nat, sstatus: nat, scause: nat, kernelStack: nat)

  datatype Delivery = Delivery(pid: nat, to: nat)

  /** What has happened so far: the parent slot of every forked pid, and the pids handed to a waiter. */
  datatype History = History(forked: map<nat, nat>, delivered: seq<Delivery>)

  datatype Kernel = Kernel(procs: seq<Proc>, current: Option<nat>, lastSlot: int, nextPid: nat, ticks: nat,
                           tfs: seq<TrapFrame>, satp: nat, vm: Vm, hist: History)

  predicate ProcTyped(p: Proc) {
    && (p.parent.Some? ==> p.parent.value < NPROC) && p.tf < NPROC
    && (p.pagetable.Some? ==> p.pagetable.value < PageTable.POOL_PAGES)
  }

  /** The C types: fixed tables, slot pointers in range, 32 registers per frame. */
  predicate Typed(k: Kernel) {
    && |k.procs| == NPROC && |k.tfs| == NPROC && Layout(k.vm) && k.satp < PageTable.POOL_PAGES
    && (forall i :: 0 <= i < NPROC ==> ProcTyped(k.procs[i]))
    && (forall i :: 0 <= i < NPROC ==> |k.tfs[i].regs| == 32)
    && (k.current.Some? ==> k.current.value < NPROC) && -1 <= k.lastSlot < NPROC
  }

  function SetProc(k: Kernel, i: nat, p: Proc): (r: Kernel)
    requires Typed(k) && i < NPROC && ProcTyped(p)
    ensures Typed(r)
  {
    k.(procs := k.procs[i := p])
  }

  function SetReg(k: Kernel, t: nat, x: nat, w: nat): (r: Kernel)
    requires Typed(k) && t < NPROC && x < 32
    ensures Typed(r)
  {
    k.(tfs := k.tfs[t := k.tfs[t].(regs := k.tfs[t].regs[x := w])])
  }

  // ------------------------------------------------------------ the scheduler

  /** The loop of proc_schedule from its n-th probe on: the slot found, if any. */
  function Probe(procs: seq<Proc>, start: int, n: nat): (r: Option<nat>)
    requires |procs| == NPROC && -1 <= start && 1 <= n <= NPROC + 1
    ensures r.Some? ==> r.value < NPROC && procs[r.value].state == Runnable
    decreases NPROC + 1 - n
  {
    if n == NPROC + 1 then None else
    var i := (start + n) % NPROC;
    if procs[i].state == Runnable then Some(i) else Probe(procs, start, n + 1)
  }

  function Start(k: Kernel): int { if k.current.Some? then k.current.value else k.lastSlot }

  /** proc_schedule */
  function Schedule(k: Kernel): (r: (Kernel, Option<nat>))
    requires Typed(k)
    ensures Typed(r.0) && (r.1.Some? ==> r.1.value < NPROC)
  {
    match Probe(k.procs, Start(k), 1)
    case None => (k, None)
    case Some(i) => (SetProc(k, i, k.procs[i].(state := Running)).(lastSlot := i), Some(i))
  }

  /** current_proc = proc_schedule() */
  function Dispatch(k: Kernel): (r: Kernel)
    requires Typed(k)
    ensures Typed(r)
  {
    var (k1, next) := Schedule(k);
    k1.(current := next)
  }

  // --------------------------------------------------------- address spaces

  /** vm_switch */
  function VmSwitch(k: Kernel, root: Option<nat>): (r: Kernel)
    requires Typed(k) && (root.Some? ==> root.value < PageTable.POOL_PAGES)
    ensures Typed(r)
  {
    if root.None? then k else k.(satp := root.value)
  }

  /** vm_switch(kernel_pagetable()) */
  function SwitchToKernel(k: Kernel): (r: Kernel)
    requires Typed(k)
    ensures Typed(r)
  {
    var (vm, root) := KernelPagetable(k.vm);
    VmSwitch(k.(vm := vm), root)
  }

  /** vm_destroy of a slot's table and clearing the slot. */
  function FreeSlot(k: Kernel, i: nat): (r: Kernel)
    requires Typed(k) && i < NPROC
    ensures Typed(r)
  {
    var p := k.procs[i];
    SetProc(k.(vm := VmDestroy(k.vm, p.pagetable)), i,
            p.(pagetable := None, state := Unused, pid := 0, parent := None))
  }

  function Deliver(k: Kernel, pid: nat, to: nat): (r: Kernel)
    requires Typed(k)
    ensures Typed(r)
  {
    k.(hist := k.hist.(delivered := k.hist.delivered + [Delivery(pid, to)]))
  }

  // ------------------------------------------------------ fork, exit, wait, sleep

  function FirstUnused(procs: seq<Proc>, i: nat): (r: nat)
    requires i <= |procs|
    ensures i <= r <= |procs|
    ensures r < |procs| ==> procs[r].state == Unused
    ensures forall j :: i <= j < r ==> procs[j].state != Unused
    decreases |procs| - i
  {
    if i == |procs| || procs[i].state == Unused then i else FirstUnused(procs, i + 1)
  }

  /** proc_fork: the new state and the value returned to the parent. */
  function Fork(k: Kernel, tf: nat): (r: (Kernel, int))
    requires Typed(k) && tf < NPROC
    ensures Typed(r.0)
  {
    if k.current.None? then (k, -1) else
    var i := FirstUnused(k.procs, 0);
    if i == NPROC then (k, -1) else ForkInto(k, tf, k.current.value, i)
  }

  function ForkInto(k: Kernel, tf: nat, p: nat, i: nat): (r: (Kernel, int))
    requires Typed(k) && tf < NPROC && p < NPROC && i < NPROC
    ensures Typed(r.0)
  {
    var pid := k.nextPid;
    var (vm, root) := CloneUser(k.vm, i, p);
    var k1 := k.(nextPid := pid + 1, vm := vm);
    var child := k.procs[i].(pid := pid, state := Runnable, parent := Some(p), exitStatus := 0, wakeTick := 0,
                             pagetable := root);
    if root.None? then (SetProc(k1, i, child.(state := Unused)), -1) else
    var frame := k.tfs[tf].(kernelStack := i, regs := k.tfs[tf].regs[A0 := 0]);
    var k2 := SetProc(k1, i, child.(tf := i)).(tfs := k.tfs[i := frame]);
    (k2.(hist := k.hist.(forked := k.hist.forked[pid := p])), pid as int)
  }

  predicate BlockedInWait(p: Proc) { p.state == Sleeping && p.wakeTick == 0 }

  /** proc_exit up to its final proc_schedule. */
  function ExitSlot(k: Kernel, p: nat, status: int): (r: Kernel)
    requires Typed(k) && p < NPROC
    ensures Typed(r)
  {
    var k1 := SetProc(k, p, k.procs[p].(exitStatus := status));
    var me := k1.procs[p];
    if me.parent.Some? && BlockedInWait(k1.procs[me.parent.value]) then
      var q := me.parent.value;
      var k2 := SetReg(k1, k1.procs[q].tf, A0, me.pid);
      var k3 := SetProc(k2, q, k2.procs[q].(state := Runnable));
      FreeSlot(SwitchToKernel(Deliver(k3, me.pid, q)), p)
    else if me.parent.None? then FreeSlot(SwitchToKernel(k1), p)
    else SetProc(k1, p, me.(state := Zombie))
  }

  /** proc_exit */
  function Exit(k: Kernel, status: int): (r: Kernel)
    requires Typed(k)
    ensures Typed(r)
  {
    if k.current.None? then k else Dispatch(ExitSlot(k, k.current.value, status))
  }

  predicate ChildOf(c: Proc, p: nat) { c.state != Unused && c.parent == Some(p) }

  function FirstZombie(procs: seq<Proc>, p: nat, i: nat): (r: nat)
    requires i <= |procs|
    ensures i <= r <= |procs|
    ensures r < |procs| ==> ChildOf(procs[r], p) && procs[r].state == Zombie
    ensures forall j :: i <= j < r ==> !(ChildOf(procs[j], p) && procs[j].state == Zombie)
    decreases |procs| - i
  {
    if i == |procs| || (ChildOf(procs[i], p) && procs[i].state == Zombie) then i else FirstZombie(procs, p, i + 1)
  }

  predicate HasChild(procs: seq<Proc>, p: nat) { exists i :: 0 <= i < |procs| && ChildOf(procs[i], p) }

  /** proc_wait: the new state and the value it returns. */
  function Wait(k: Kernel): (r: (Kernel, int))
    requires Typed(k)
    ensures Typed(r.0)
  {
    if k.current.None? then (k, -1) else
    var p := k.current.value;
    var z := FirstZombie(k.procs, p, 0);
    if z < NPROC then (FreeSlot(Deliver(k, k.procs[z].pid, p), z), k.procs[z].pid as int)
    else if !HasChild(k.procs, p) then (k, -1)
    else (Dispatch(SetProc(k, p, k.procs[p].(state := Sleeping))), 0)
  }

  /** proc_sleep */
  function Sleep(k: Kernel, n: nat): (r: Kernel)
    requires Typed(k)
    ensures Typed(r)
  {
    if k.current.None? || n == 0 then k else
    var p := k.current.value;
    Dispatch(SetProc(k, p, k.procs[p].(wakeTick := k.ticks + n, state := Sleeping)))
  }

  /** The body of proc_wakeup's loop. */
  function WakeOne(p: Proc, now: nat): Proc {
    if p.state == Sleeping && p.wakeTick != 0 && p.wakeTick <= now then p.(wakeTick := 0, state := Runnable) else p
  }

  function WakeAll(procs: seq<Proc>, now: nat): (r: seq<Proc>)
    ensures |r| == |procs| && forall i :: 0 <= i < |procs| ==> r[i] == WakeOne(procs[i], now)
  {
    seq(|procs|, i requires 0 <= i < |procs| => WakeOne(procs[i], now))
  }

  /** timer_tick */
  function Tick(k: Kernel): (r: Kernel)
    requires Typed(k)
    ensures Typed(r)
  {
    k.(ticks := k.ticks + 1, procs := WakeAll(k.procs, k.ticks + 1))
  }

  // -------------------------------------------------------------- system calls

  /** What the outside world answers during one call: console input and the names of the files in ramfs. */
  datatype Env = Env(input: seq<Byte>, files: set<seq<Byte>>)

  /** The i-th character typed; a finite script is continued with newlines. */
  function Typing(env: Env, i: nat): Byte { if i < |env.input| then env.input[i] else 10 }

  /** The loop of sys_read from index i. */
  function ReadLoop(vm: Vm, root: nat, uva: nat, len: nat, env: Env, i: nat): (r: (Vm, int))
    requires Layout(vm) && root < PageTable.POOL_PAGES && i <= len
    ensures Layout(r.0) && r.0 == vm.(frames := r.0.frames)
    decreases len - i
  {
    if i == len then (vm, len) else
    var (vm1, ok) := CopyOut(vm, root, uva + i, [Typing(env, i)]);
    if !ok then (vm1, -1)
    else if Typing(env, i) == 10 then (vm1, i + 1)
    else ReadLoop(vm1, root, uva, len, env, i + 1)
  }

  function SysRead(k: Kernel, root: nat, uva: nat, len: nat, env: Env): (r: (Kernel, int))
    requires Typed(k) && root < PageTable.POOL_PAGES
    ensures Typed(r.0) && r.0 == k.(vm := k.vm.(frames := r.0.vm.frames))
  {
    if len == 0 || len > 256 then (k, -1) else
    var (vm, n) := ReadLoop(k.vm, root, uva, len, env, 0);
    (k.(vm := vm), n)
  }

  function SysWrite(k: Kernel, root: nat, uva: nat, len: nat): int
    requires Typed(k) && root < PageTable.POOL_PAGES
  {
    var n := if len > 1024 then 1024 else len;
    if CopyIn(k.vm, root, uva, n).None? then -1 else n
  }

  /** uart_puts: everything before the first NUL. */
  function BeforeNul(s: seq<Byte>): (r: seq<Byte>)
    ensures |r| <= |s| && r == s[..|r|] && 0 !in r && (|r| < |s| ==> s[|r|] == 0)
  {
    if s == [] || s[0] == 0 then [] else [s[0]] + BeforeNul(s[1..])
  }

  /** What sys_write puts on the console. */
  function WriteSends(k: Kernel, root: nat, uva: nat, len: nat): seq<Byte>
    requires Typed(k) && root < PageTable.POOL_PAGES
  {
    match CopyIn(k.vm, root, uva, if len > 1024 then 1024 else len) case None => [] case Some(b) => BeforeNul(b)
  }

  /** write in the user's terms, for a process on its own table: it fails, sending nothing, exactly when one of the
   *  first 1024 bytes asked for is not mapped; otherwise it sends the bytes before the first NUL among them. */
  lemma {:induction false} WriteMeaning(k: Kernel, loc: PageTable.Locations, slot: nat, root: nat, uva: nat, len: nat)
    requires Typed(k) && Space(k.vm, loc, slot, root)
    ensures var n := if len > 1024 then 1024 else len;
            var sent := WriteSends(k, root, uva, len);
            if exists x :: uva <= x < uva + n && UserByte(k.vm, slot, x).None?
            then SysWrite(k, root, uva, len) == -1 && sent == []
            else && SysWrite(k, root, uva, len) == n && |sent| <= n && 0 !in sent
                 && (forall i :: 0 <= i < |sent| ==> UserByte(k.vm, slot, uva + i) == Some(sent[i]))
                 && (|sent| < n ==> UserByte(k.vm, slot, uva + |sent|) == Some(0))
  {
    hide Layout, LoadBytes, CopyIn, UserByte;
    var n := if len > 1024 then 1024 else len;
    CopyInRefines(k.vm, loc, slot, root, uva, n);
    LoadBytesMeaning(k.vm, loc, slot, root, uva, n);
  }

  function SysCat(k: Kernel, root: nat, uva: nat, env: Env): int
    requires Typed(k) && root < PageTable.POOL_PAGES
  {
    match CopyInStr(k.vm, root, uva, 32)
    case None => -1
    case Some(name) => if BeforeNul(name) in env.files then 0 else -1
  }

  /** sys_sleep */
  function SysSleep(k: Kernel, n: nat): (r: Kernel)
    requires Typed(k)
    ensures Typed(r)
  {
    Sleep(k, if n > MAX_SLEEP then MAX_SLEEP else n)
  }

  /** (int)x for a 64-bit x */
  function ToInt32(w: nat): int {
    var lo := w % 0x1_0000_0000;
    if lo >= 0x8000_0000 then lo - 0x1_0000_0000 else lo
  }

  /** The switch of syscall_dispatch: the state after the call and the value for a0. */
  function Call(k: Kernel, tf: nat, p: nat, root: nat, env: Env): (r: (Kernel, int))
    requires Typed(k) && tf < NPROC && p < NPROC && root < PageTable.POOL_PAGES
    ensures Typed(r.0)
  {
    var regs := k.tfs[tf].regs;
    var n := regs[A7];
    if n == 0 then SysRead(k, root, regs[A0], regs[A1], env)
    else if n == 1 then (k, SysWrite(k, root, regs[A0], regs[A1]))
    else if n == 2 then Fork(k, tf)
    else if n == 3 then (Exit(k, ToInt32(regs[A0])), 0)
    else if n == 4 then Wait(k)
    else if n == 5 then (k, k.procs[p].pid as int)
    else if n == 6 then (SysSleep(k, regs[A0]), 0)
    else if n == 7 || n == 8 then (k, 0)
    else if n == 9 then (k, SysCat(k, root, regs[A0], env))
    else (k, -1)
  }

  /** syscall_dispatch: perform the call, then store its value in the caller's a0. */
  function Syscall(k: Kernel, tf: nat, p: nat, root: nat, env: Env): (r: Kernel)
    requires Typed(k) && tf < NPROC && p < NPROC && root < PageTable.POOL_PAGES
    ensures Typed(r)
  {
    var (k1, ret) := Call(k, tf, p, root, env);
    SetReg(k1, tf, A0, ret % TWO64)
  }
}
