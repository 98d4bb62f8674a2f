/** The machine between two traps, and what one event does to it: a burst of user instructions, a trap
 *  (kernel/trap.c, kernel/entry.S), or one turn of the idle loop. */
module Machine {
  import opened Wrappers
  import PageTable
  import opened AddressSpace
  import opened UserCopy
  import opened Process

  const ECALL_U := 8
  const TIMER := 0x8000_0000_0000_0005
  const SPIE := 0x20

  /** While a process runs, regs and pc are its own; sscratch names the trapframe entry.S will save to. */
  datatype Machine = Machine(k: Kernel, regs: seq<nat>, pc: nat, sstatus: nat, sscratch: nat)

  datatype Event =
    | UserRun(regs: seq<nat>, pc: nat, store: Option<(nat, Byte)>)
    | Trap(scause: nat, env: Env)
    | IdleTick

  predicate WellFormed(m: Machine) { Typed(m.k) && |m.regs| == 32 && m.regs[0] == 0 && m.sscratch < NPROC }

  predicate Enabled(m: Machine, ev: Event) {
    match ev
    case UserRun(regs, _, _) => m.k.current.Some? && |regs| == 32 && regs[0] == 0
    case Trap(_, _) => m.k.current.Some?
    case IdleTick => m.k.current.None?
  }

  // ------------------------------------------------------------------- user

  /** User code may leave any register contents and perform any store its page table admits. */
  function UserStep(m: Machine, regs: seq<nat>, pc: nat, store: Option<(nat, Byte)>): (r: Machine)
    requires WellFormed(m) && |regs| == 32 && regs[0] == 0
    ensures WellFormed(r)
  {
    var m1 := m.(regs := regs, pc := pc);
    match store
    case None => m1
    case Some((va, b)) =>
      match StoreByte(m.k.vm, m.k.satp, va, b)
      case None => m1
      case Some(vm) => m1.(k := m.k.(vm := vm))
  }

  // ------------------------------------------------------------------ traps

  /** user_trap_entry: the registers, pc and status go to the trapframe sscratch names. */
  function Save(m: Machine, scause: nat): (k: Kernel)
    requires WellFormed(m)
    ensures Typed(k)
  {
    var t := m.sscratch;
    m.k.(tfs := m.k.tfs[t := TrapFrame(m.regs, m.pc, m.sstatus, scause, m.k.tfs[t].kernelStack)])
  }

  /** The timer branch of trap_handler after timer_tick. */
  function Preempt(k: Kernel): (r: Kernel)
    requires Typed(k)
    ensures Typed(r)
  {
    if k.current.Some? && k.procs[k.current.value].state == Running then
      var c := k.current.value;
      Dispatch(SetProc(k, c, k.procs[c].(state := Runnable)))
    else k
  }

  function RootOf(p: Proc): (r: nat)
    requires ProcTyped(p)
    ensures r < PageTable.POOL_PAGES
  {
    if p.pagetable.Some? then p.pagetable.value else 0
  }

  /** The three branches of trap_handler. */
  function Handle(k: Kernel, tf: nat, scause: nat, env: Env): (r: Kernel)
    requires Typed(k) && k.current.Some? && tf < NPROC
    ensures Typed(r)
  {
    var c := k.current.value;
    var k1 := SetProc(k, c, k.procs[c].(tf := tf));
    if scause == ECALL_U then
      var k2 := k1.(tfs := k1.tfs[tf := k1.tfs[tf].(sepc := k1.tfs[tf].sepc + 4)]);
      Syscall(k2, tf, c, RootOf(k2.procs[c]), env)
    else if scause == TIMER then Preempt(Tick(k1))
    else Exit(k1, -1)
  }

  /** The end of trap_handler once a process was selected: the fallback that reschedules when that process
   *  is not RUNNING. */
  function Fallback(k: Kernel): (r: Kernel)
    requires Typed(k) && k.current.Some?
    ensures Typed(r) && r.current.Some?
  {
    if k.procs[k.current.value].state == Running then k else
    var (k1, next) := Schedule(k);
    if next.Some? then k1.(current := next) else k1
  }

  /** switch_to, then restore_user_or_idle from the process's trapframe. */
  function Restore(k: Kernel): (r: Machine)
    requires Typed(k) && k.current.Some?
    ensures WellFormed(r)
  {
    var c := k.current.value;
    var k1 := VmSwitch(SetProc(k, c, k.procs[c].(state := Running)), k.procs[c].pagetable);
    var t := k.procs[c].tf;
    var f := k1.tfs[t];
    Machine(k1, f.regs[0 := 0], f.sepc, f.sstatus, t)
  }

  /** After the handler: resume the selected process, or stay in the kernel's idle loop. */
  function Finish(m: Machine, k: Kernel): (r: Machine)
    requires WellFormed(m) && Typed(k)
    ensures WellFormed(r)
  {
    if k.current.None? then m.(k := k) else Restore(Fallback(k))
  }

  function Step(m: Machine, ev: Event): (r: Machine)
    requires WellFormed(m) && Enabled(m, ev)
    ensures WellFormed(r)
  {
    match ev
    case UserRun(regs, pc, store) => UserStep(m, regs, pc, store)
    case Trap(scause, env) => Finish(m, Handle(Save(m, scause), m.sscratch, scause, env))
    case IdleTick => Finish(m, Dispatch(Tick(m.k)))
  }

  /** A run: the events that can happen one after the other from m. */
  predicate CanRun(m: Machine, evs: seq<Event>)
    requires WellFormed(m)
    decreases |evs|
  {
    evs == [] || (Enabled(m, evs[0]) && CanRun(Step(m, evs[0]), evs[1..]))
  }

  function Run(m: Machine, evs: seq<Event>): (r: Machine)
    requires WellFormed(m) && CanRun(m, evs)
    ensures WellFormed(r)
    decreases |evs|
  {
    if evs == [] then m else Run(Step(m, evs[0]), evs[1..])
  }

  // ------------------------------------------------------------------- boot

  function EmptyFrame(i: nat): (f: TrapFrame)
    ensures |f.regs| == 32 && f.kernelStack == i
  {
    TrapFrame(seq(32, _ => 0), 0, 0, 0, i)
  }

  /** prepare_user_tf */
  function UserFrame(i: nat): (f: TrapFrame)
    ensures |f.regs| == 32 && f.kernelStack == i
  {
    TrapFrame(EmptyFrame(i).regs[2 := 0x8000_0000 - 16], 0x4000_0000, SPIE, 0, i)
  }

  /** vm_init and proc_init: nothing allocated, every slot unused. */
  predicate PoweredOn(vm: Vm) {
    Layout(vm) && vm.kernelPt.None? && forall p :: 0 <= p < PageTable.POOL_PAGES ==> !vm.pool.used[p]
  }

  const FREE_SLOT := Proc(0, Unused, 0, None, None, 0, 0)

  /** The process table after proc_create_init filled slot 0. */
  function InitProcs(root: nat): (procs: seq<Proc>)
    ensures |procs| == NPROC && procs[0] == Proc(1, Runnable, 0, None, Some(root), 0, 0)
    ensures forall i :: 1 <= i < NPROC ==> procs[i] == FREE_SLOT.(tf := i)
  {
    seq(NPROC, i requires 0 <= i < NPROC =>
      if i == 0 then Proc(1, Runnable, 0, None, Some(root), 0, 0) else FREE_SLOT.(tf := i))
  }

  function InitFrame(i: nat): (f: TrapFrame)
    ensures |f.regs| == 32 && f.kernelStack == i
  {
    if i == 0 then UserFrame(0) else EmptyFrame(i)
  }

  function InitFrames(): (tfs: seq<TrapFrame>)
    ensures |tfs| == NPROC && forall i :: 0 <= i < NPROC ==> |tfs[i].regs| == 32 && tfs[i].kernelStack == i
  {
    seq(NPROC, i requires 0 <= i < NPROC => InitFrame(i))
  }

  function InitKernel(vm: Vm, root: nat): (k: Kernel)
    requires Layout(vm) && root < PageTable.POOL_PAGES
    ensures Typed(k)
  {
    Kernel(InitProcs(root), None, -1, 2, 0, InitFrames(), root, vm, History(map[], []))
  }

  /** main: create the first process from the embedded image and enter user mode; None is the panic. */
  function Boot(vm: Vm, image: seq<Byte>): (r: Option<Machine>)
    requires PoweredOn(vm)
    ensures r.Some? ==> WellFormed(r.value)
  {
    var (vm1, root) := CreateUser(vm, image, 0);
    if root.None? then None else
    var k := Dispatch(InitKernel(vm1, root.value));
    if k.current.None? then None else Some(Restore(k))
  }
}
