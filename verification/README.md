# NanoBoot and ShellForge, modelled and proved in Dafny

The repository holds two programs. **NanoBoot** is a small RISC-V kernel: Sv39 page tables built in a fixed pool of
1024 pages, eight process slots scheduled round robin by a timer, and a handful of system calls, with its own shell in
user mode. **ShellForge** is a POSIX shell: lexer, parser, variable expansion and pipelines.

The model follows the code, branch by branch, in two layers. Each operation has a specification function over values;
the code that updates state in place is a class (or a method on arrays) whose every method is proved to leave exactly
the state that function gives. Everything else is proved about the functions, and so holds of the in-place code.

Page tables and address spaces

- `Sv39` - page-table entries as records and as 64-bit words, the virtual page arithmetic, the access rules of sections
  4.3.2 and 4.4 of the RISC-V Privileged Architecture, version 20211203 (SUM and MXR clear, no hardware A/D update).
- `PageTable`, `Mapping` - the pool, `mappages`, the software walk, the hardware walk, `pt_destroy_level`. The invariant
  `Tree(m, loc)` names the owner, level and prefix of the table in every used page: trees are level-typed, acyclic,
  pairwise disjoint, and their union is exactly the used pages. `Leaf` is the abstract map from virtual page to entry.
- `AddressSpace` - building, cloning and destroying spaces; how many pages they take; what user mode can reach.
- `PoolWords` - the pool as 64-bit words at physical addresses: both walks and the stores agree with the records.
- `KernelTableLeak` - a run of calls on which the failing `kernel_pagetable` loses pages.
- `UserMemory` - the user's memory byte by byte, and what a new and a cloned space hold.
- `UserCopy` - the page-chunked copies against one-byte-at-a-time hardware loads and stores.

Processes and traps

- `Process`, `Machine` - the process table, the trap handler, register save and restore; an event is a burst of user
  instructions with any register contents and any store the page table admits, a trap with any cause, or an idle tick.
- `ProcessInvariants`, `KernelTables`, `KernelInvariant`, `BootInvariant` - the invariant `Inv` of every run; `FirstProcess` -
  what the first process finds.
- `SystemCalls` - every call, and the fault trap, as the process that makes it sees them.
- `Bystander`, `Runs`, `RunTheorems`, `Fairness`, `Resumption` - what holds over whole runs;
  `Confidentiality` - what holds between two of them.
- `TrapEntry`, `EntryRefinement` - the instruction sequences of `entry.S`, and that they carry out `Save` and `Restore`.
- `VmObject`, `KernelObject`, `KernelMain` - `vm.c`, `proc.c`, `timer.c`, `syscall.c`, `trap.c` and the boot sequence of
  `main.c` in their own in-place form.

Shells

- `ShellLexer`, `ShellParser`, `ShellReader`, `ShellPrinter`, `ShellRoundTrip`, `ShellSurvival`, `ShellExpand` - the
  ShellForge front end.
- `PipelineWiring` - what a stage does to its descriptor table between fork and exec, with `pipe` and `dup2` as in the
  System Interfaces volume of IEEE Std 1003.1-2008.
- `PipelineLaunch` - the launch as a protocol. The shell takes its steps while the stages already forked make their
  calls, run, end and are reaped by the SIGCHLD handler, in any order; `setpgid` fails, as that standard says, when the
  group is gone, and a stage whose `setpgid` fails exits. `PipelineLoop` is the loop itself, with any of this going on
  between its steps.
- `NanoShell`, `NanoReader` - the tokenizer and the number routines of the NanoBoot shell.

`dafny verify dfyconfig.toml` checks the project.

What enters as a parameter: the console input and file lookups (`Env`), the embedded program image, the link addresses
(`Layout`: inside the kernel image, below the end of QEMU's 128 MB), the environment variables, process ids returned by
`fork`, and the order in which concurrent processes take their steps.

Three places where the code differs from what one might expect, kept as the code has them:

- The comment at NanoBoot/kernel/syscall.c:68-72 speaks of waiting inside the call; the code blocks the process with
  `proc_sleep` and lets others run.
- `kernel_pagetable` gives back only the root when `kernel_map` fails. `AddressSpace.KernelPagetableLeaks` says exactly
  when that loses pages; `AddressSpace.EverythingFits` shows that no run of the kernel gets there.
- The launch loop connects a pipeline if and only if the shell's own descriptors 0 and 1 are open and every stage finds
  its process group at its `setpgid`, that is, some process of the group is not yet reaped
  (`PipelineLaunch.ConnectedExactly`). An ordinary shell can fail the second condition: when the first command of
  `true | cat` is done and reaped before `cat` is forked, the group is gone and `cat` never runs
  (`PipelineLaunch.ReapedLeaderExample`). A caller rules this out by keeping the first stage from being reaped during
  the loop, for example by blocking SIGCHLD (`PipelineLaunch.LeaderKeeps`).

## Model

| member | source | states |
|---|---|---|
| `Sv39.DecodeEncode` | NanoBoot/kernel/vm.c:13-19 | every field of an entry, and its physical address, is recovered from its 64-bit word |
| `Sv39.WordsAreEntries` | NanoBoot/kernel/vm.c:59-80 | the words `mappages` computes with shifts and bitwise or are the encodings of the table and leaf entries (V and A always, D exactly when writable), and PTE to PA inverts PA to PTE |
| `Sv39.WordBits` | NanoBoot/kernel/vm.c:70-77 | bit by bit, what the hardware reads in the two words: a leaf is valid, accessed, dirty exactly when writable, and has the permissions asked for; a pointer has none; both name the page |
| `Sv39.VpnIsIndex` | NanoBoot/kernel/vm.c:13-16 | the shift-and-mask of an address is the index of its page number at each level |
| `Sv39.VpnTripleInjective` | NanoBoot/kernel/vm.c:13-16 | distinct Sv39 pages have distinct index triples |
| `PageTable.GrowChild` | NanoBoot/kernel/vm.c:62-72 | allocating, zeroing and linking a child table keeps the tree invariant and every translation of every space |
| `PageTable.GrowRoot` | NanoBoot/kernel/vm.c:21-31 | a fresh root keeps the tree invariant and every translation |
| `PageTable.WalkRefines` | NanoBoot/kernel/vm.c:82-93 | the software walk reads exactly the abstract map |
| `PageTable.HardwareRefines` | NanoBoot/kernel/vm.c:82-93 | the Sv39 translation algorithm, run on the pool's entry records, reads the same abstract map, for every access type and mode |
| `PoolWords.WordWalkRefines` | NanoBoot/kernel/vm.c:13-19 | the same algorithm run on 64-bit words at physical addresses, testing bits and shifting, gives the same result as on the records |
| `PoolWords.WordsTranslate` | NanoBoot/kernel/vm.c:82-93 | in every space the kernel builds, for every owner, 64-bit address, access and mode, the hardware translating on words and `translate_user` reading words reach exactly the bytes the record walks name |
| `PoolWords.StoresAreWords` | NanoBoot/kernel/vm.c:70-77 | storing a leaf or a child-table record changes one word of memory, to the word `mappages` computes with shifts and bitwise or |
| `Mapping.DescendRefines` | NanoBoot/kernel/vm.c:62-72 | the level loop adds exactly the missing tables of one page's path, changes no translation, and fails only when the pool is full |
| `Mapping.MapPagesRefines` | NanoBoot/kernel/vm.c:59-80 | success changes the abstract map by exactly the pages of the range, with the right frames, permissions and A/D bits, and adds exactly the missing tables; other spaces never change; success if and only if no page was mapped and the tables fit in the pool |
| `Mapping.DestroyLevelFrees` | NanoBoot/kernel/vm.c:45-57 | recursive destroy clears the used flag of exactly the pages of that subtree |
| `AddressSpace.DestroySpace` | NanoBoot/kernel/vm.c:191-195 | destroying a root removes exactly that owner's tables and leaves all other trees and translations intact |
| `AddressSpace.KernelMapRefines` | NanoBoot/kernel/vm.c:95-103 | the kernel image and the UART are mapped onto themselves, nothing else, if and only if the tables fit |
| `AddressSpace.CreateUserRefines` | NanoBoot/kernel/vm.c:111-140 | builds exactly the declared tables of the slot's space, or fails, if and only if they do not fit, with the used flags unchanged |
| `UserMemory.CreatedBytes` | NanoBoot/kernel/vm.c:121-125 | the user of a new space finds the image from 0x40000000 on, as far as four pages reach, zeroes behind it and on the stack page, and no other slot's bytes change |
| `AddressSpace.CloneUserRefines` | NanoBoot/kernel/vm.c:142-168 | the same for the tables of a clone |
| `UserMemory.ClonedBytes` | NanoBoot/kernel/vm.c:152-155 | after a successful clone every user byte of the new slot, stack included, is the old slot's, and no other slot's byte changes |
| `UserMemory.UserAddresses` | NanoBoot/include/param.h:7-10 | a user has exactly the addresses 0x40000000 to 0x40004000 and the page below 0x80000000 |
| `UserMemory.BadSlots` | NanoBoot/kernel/vm.c:113-144 | slots outside the table are refused without effect |
| `AddressSpace.BuildThenDestroy` | NanoBoot/kernel/vm.c:111-195 | create or clone, then destroy, restores the used flags exactly |
| `AddressSpace.KernelPagetableRefines` | NanoBoot/kernel/vm.c:177-189 | when its tables fit it returns a root of exactly the declared kernel space and touches no other space |
| `AddressSpace.KernelPagetableLeaks` | NanoBoot/kernel/vm.c:177-189 | when they do not fit it fails, and the used flags are unchanged if and only if at most one page was free |
| `KernelTableLeak.LeakExample` | NanoBoot/kernel/vm.c:182-185 | after fourteen `vm_create_user` calls on a full-sized kernel image the call fails and loses pages |
| `AddressSpace.SpaceSize` | NanoBoot/kernel/vm.c:95-140 | a user space takes exactly 7 + ceil(kernel span / 2 MiB) pool pages, the kernel's own three fewer |
| `AddressSpace.AllTagsSize` | NanoBoot/kernel/vm.c:95-140 | the exact number of pages of the kernel space and any number of user spaces together |
| `AddressSpace.EverythingFits` | NanoBoot/include/param.h:4-9 | with the kernel inside 128 MB, any subset of the nine possible spaces leaves the pool not full |
| `AddressSpace.UserReach` | NanoBoot/kernel/vm.c:111-168 | at every 64-bit address and for every access, user mode reaches exactly the slot's five frames (no fetch from the stack page) |
| `AddressSpace.SoftwareAgrees` | NanoBoot/kernel/vm.c:202-209 | `translate_user` and the hardware agree on user loads at every 64-bit address |
| `AddressSpace.KernelEverywhere` | NanoBoot/kernel/vm.c:95-103 | every space maps kernel and UART onto themselves for the supervisor and never for the user |
| `AddressSpace.SupervisorReach` | NanoBoot/kernel/vm.c:95-103 | at every 64-bit address the supervisor reaches exactly the kernel from 0x80000000 on and the UART page, which it cannot execute, and no user page |
| `AddressSpace.SlotsApart` | NanoBoot/kernel/vm.c:111-168 | user pages of different slots are different frames and none is a page of the pool |
| `UserCopy.CopyInRefines` | NanoBoot/kernel/vm.c:211-224 | the chunked copy returns what byte-at-a-time hardware loads return, and fails exactly when one of them faults |
| `UserCopy.LoadBytesMeaning` | NanoBoot/kernel/vm.c:211-224 | it succeeds if and only if every byte is user-mapped, and then yields those bytes |
| `UserCopy.CopyOutRefines` | NanoBoot/kernel/vm.c:226-239 | memory and verdict equal those of byte-at-a-time hardware stores, also when the copy stops half way |
| `UserCopy.StoreBytesMeaning` | NanoBoot/kernel/vm.c:226-239 | exactly the mapped prefix of the range is overwritten, in that slot only; success if and only if the whole range is mapped |
| `UserCopy.CopyRoundTrip` | NanoBoot/kernel/vm.c:211-239 | `copyout` then `copyin` returns the bytes sent |
| `UserCopy.CopyInStrMeaning` | NanoBoot/kernel/vm.c:241-249 | the result is the user string with its NUL, or its first max - 1 bytes and a NUL; it fails exactly when an unmapped byte comes first |
| `ProcessInvariants.ProbeFindsNearest` | NanoBoot/kernel/proc.c:216-231 | the scheduler finds the RUNNABLE slot at least cyclic distance, and nothing only when no slot is RUNNABLE |
| `ProcessInvariants.PassedOverIsNearer` | NanoBoot/kernel/proc.c:216-231 | a RUNNABLE slot passed over is strictly nearer the next time |
| `ProcessInvariants.DispatchCore` | NanoBoot/kernel/proc.c:216-231 | dispatching keeps links, deadlines, waiters, pids, the delivery ledger and stacks, and leaves one runner or none able to run |
| `ProcessInvariants.ExitCore` | NanoBoot/kernel/proc.c:128-156 | exit keeps those invariants in all three cases |
| `ProcessInvariants.WaitCore` | NanoBoot/kernel/proc.c:158-188 | wait keeps them whether it reaps, blocks or refuses; a blocked waiter has a child that can still exit and no zombie child |
| `ProcessInvariants.SleepCore` | NanoBoot/kernel/syscall.c:73-85 | a timed sleep keeps them; its deadline lies within 1000000 ticks |
| `ProcessInvariants.TickCore` | NanoBoot/kernel/timer.c:17-22 | a tick keeps them and every remaining deadline stays in the future |
| `ProcessInvariants.ForkCore` | NanoBoot/kernel/proc.c:99-126 | fork keeps them; the new pid is fresh |
| `KernelTables.FreeSlotTables` | NanoBoot/kernel/proc.c:128-176 | freeing a slot whose table is not active removes exactly that slot's tables from the pool |
| `KernelTables.SwitchToKernelTables` | NanoBoot/kernel/vm.c:170-189 | in any state of the invariant the kernel table can be built, and `satp` then names its root |
| `KernelTables.ForkTables` | NanoBoot/kernel/proc.c:99-126 | cloning into an unused slot always succeeds and gives that slot exactly its declared space |
| `KernelTables.SlotFits` | NanoBoot/kernel/vm.c:21-31 | whatever exists, one more user space or the kernel space fits in the pool |
| `KernelInvariant.ExitTables` | NanoBoot/kernel/proc.c:128-156 | exit never releases the root `satp` names |
| `KernelInvariant.ForkOk` | NanoBoot/kernel/proc.c:99-126 | fork fails if and only if the process table is full |
| `KernelInvariant.RestoreShape` | NanoBoot/kernel/trap.c:16-26 | resuming changes nothing but `satp`, which becomes the process's own root |
| `KernelInvariant.StepKeeps` | NanoBoot/kernel/trap.c:34-80 | every event keeps the whole invariant: single runner equal to `last_slot` and owner of the returned trapframe, process invariants, exact pool ownership, live `satp` |
| `BootInvariant.BootOk` | NanoBoot/kernel/main.c:35-61 | boot never panics, for any image and layout, and establishes the invariant |
| `Bystander.StepUntouched` | NanoBoot/kernel/proc.c:99-231 | the complete list of what one event can do to the slot and frame of a process that is not running, by its state; an unused slot stays as it is or becomes the fresh child of the running process, with the parent's frame and 0 in a0 |
| `Runs.EveryReachableState` | NanoBoot/kernel/main.c:35-61 | the invariant holds in every state a booted machine can reach |
| `Runs.SlotBytesChange` | NanoBoot/kernel/syscall.c:30-49 | a slot's user bytes change only while it runs, or when fork fills it while unused |
| `Runs.CopyOutStaysHome` | NanoBoot/kernel/vm.c:226-239 | a copy to one slot's space changes no frame of another, even when it fails |
| `RunTheorems.StepResumes` | NanoBoot/kernel/trap.c:34-80 | a trap that returns does so with the selected process RUNNING, its own trapframe in `sscratch`, its own root in `satp`, and its saved registers |
| `RunTheorems.FallbackNeverTaken` | NanoBoot/kernel/trap.c:64-76 | from every state of the invariant, whatever the trap, the selected process is RUNNING before the `state != P_RUNNING` test, so the fallback revives no sleeper or zombie |
| `RunTheorems.WaitingTurn` | NanoBoot/kernel/trap.c:34-80 | a RUNNABLE slot not dispatched keeps its slot, trapframe and bytes through any run of the others |
| `RunTheorems.PreemptionIsTransparent` | NanoBoot/kernel/trap.c:44-56 | a process preempted by the timer resumes, after any run of the others, with the same registers, pc, status and memory |
| `RunTheorems.StepTicks` | NanoBoot/kernel/timer.c:17-22 | one tick for a timer interrupt or an idle turn, none otherwise |
| `RunTheorems.SleepCall` | NanoBoot/kernel/syscall.c:73-85 | sleep sets the deadline call tick + min(n, 1000000) |
| `RunTheorems.SleepIsExact` | NanoBoot/kernel/proc.c:190-214 | through any run a timed sleeper is untouched while ticks < wake_tick, and the event that reaches wake_tick makes it ready |
| `RunTheorems.OnlyAChildUnblocks` | NanoBoot/kernel/proc.c:128-188 | a process blocked in wait is unblocked in a run only by a child's exit that hands over its pid |
| `RunTheorems.WaiterGetsChildPid` | NanoBoot/kernel/syscall.c:110-136 | it then resumes with that child's pid in a0, whatever ran in between, and all other registers as saved |
| `Resumption.Resumes` | NanoBoot/kernel/trap.c:34-80 | whoever is away, runnable or asleep, through any run finds its memory and its frame unchanged when dispatched again, but for the pid put into a0 of a blocked waiter |
| `Resumption.SleepReturns` | NanoBoot/kernel/syscall.c:73-85 | from the sleep call to the return from it: 0 in a0, all other registers, status and memory as they were, pc behind the call, and at least min(n, 1000000) ticks later |
| `Resumption.WaitBlocks` | NanoBoot/kernel/proc.c:158-188 | a wait call with living children only blocks the caller, memory and registers kept |
| `Resumption.WaitReturns` | NanoBoot/kernel/syscall.c:110-136 | from a blocking wait to the return from it: a0 holds the pid of one of its own children, delivered to it since the call; everything else is as it was |
| `Confidentiality.StepLow` | NanoBoot/kernel/trap.c:34-80 | one event while slot q is not running takes two states that differ only in q's user bytes to two such states, with the same output |
| `Confidentiality.Confidential` | NanoBoot/kernel/trap.c:34-80 | over any run in which q is not dispatched, what q has in its memory reaches nobody: registers, trapframes, page tables, the other processes' memory, the process table, the order of dispatch and what write puts on the console are the same in both runs |
| `RunTheorems.IdleTurn` | NanoBoot/kernel/trap.c:64-71 | an idle turn ends the loop if and only if some deadline is the next tick |
| `RunTheorems.IdleLoopEnds` | NanoBoot/kernel/trap.c:64-71 | with a timed sleeper the idle loop ends after exactly (earliest wake_tick - ticks) turns, not sooner |
| `RunTheorems.IdleForever` | NanoBoot/kernel/trap.c:64-71 | without one it never ends |
| `Fairness.StepNearer` | NanoBoot/kernel/proc.c:216-231 | every dispatch to another process brings a RUNNABLE slot strictly nearer, no event moves it away |
| `Fairness.BoundedBypass` | NanoBoot/kernel/proc.c:216-231 | in any run, at most NPROC - 1 dispatches go to others while a process stays RUNNABLE |
| `Fairness.PidsAreAccountedFor` | NanoBoot/kernel/proc.c:99-188 | over any run pids are never reused, every forked pid is in the table or was delivered, never both, and was delivered at most once and only to its parent's slot |
| `Fairness.ForkCall` | NanoBoot/kernel/syscall.c:51-54 | fork as the user sees it: -1 and no change exactly when all slots are taken; otherwise the child's pid for the caller, who keeps all else, and in the first unused slot a child with the same registers but a0 = 0 and, byte for byte, the same memory |
| `Fairness.WaitCollects` | NanoBoot/kernel/syscall.c:56-61 | wait with zombie children returns the pid of the one in the lowest slot, frees that slot and records the delivery |
| `SystemCalls.WaitRefused` | NanoBoot/kernel/proc.c:158-188 | wait without children returns -1 and changes nothing |
| `SystemCalls.ExitCall` | NanoBoot/kernel/syscall.c:120-123 | from the exit call on: the caller no longer runs; its slot is free, with the hand-off to a parent blocked in wait or without a parent, and otherwise a zombie whose status is a0 as a signed 32-bit number |
| `SystemCalls.FaultKills` | NanoBoot/kernel/trap.c:55-62 | any trap but a system call and the timer does the same with status -1 |
| `SystemCalls.ReadMeaning` | NanoBoot/kernel/syscall.c:30-49 | read refuses 0 and more than 256 characters; otherwise, with n characters due, up to and with the first newline, it returns n if all can be stored and -1 if not, the memory before the first unmapped byte holding them in order, all other bytes unchanged |
| `SystemCalls.ReadCall` | NanoBoot/kernel/syscall.c:116 | read as a call, with its result in a0 and nothing else changed |
| `SystemCalls.WriteCall` | NanoBoot/kernel/syscall.c:117 | write as a call: the number of bytes, at most 1024, if all of them are the user's, and -1 otherwise |
| `SystemCalls.CatCall` | NanoBoot/kernel/syscall.c:99-108 | cat as a call: -1 if an unmapped byte comes before the name's end among 32, otherwise 0 exactly when the name, cut at 31 characters, is that of a file |
| `SystemCalls.SimpleCalls` | NanoBoot/kernel/syscall.c:126-132 | getpid returns the caller's pid, ps, ls and sleep(0) return 0, a number that is no call -1, and nothing else changes |
| `Fairness.ReachableIsolation` | NanoBoot/kernel/vm.c:111-168 | in every reachable state each live slot's table gives user mode exactly its own five frames, and the running one's is active |
| `Fairness.SlotsShareNothing` | NanoBoot/kernel/vm.c:111-168 | tables of different live slots never lead user mode to a common frame or to a pool page |
| `TrapEntry.SaveSaves` | NanoBoot/kernel/entry.S:5-52 | all registers, a0 included, with pc, status and cause end up in the frame `sscratch` names, and no other word changes |
| `TrapEntry.RestoreRestores` | NanoBoot/kernel/entry.S:86-128 | the 31 registers, pc and status are loaded from the frame in a0, which ends up in `sscratch` |
| `TrapEntry.SaveThenRestore` | NanoBoot/kernel/entry.S:5-128 | save then restore is the identity, whatever the kernel did to the rest of memory and to the registers |
| `EntryRefinement.EntryRefinesSave` | NanoBoot/kernel/entry.S:5-52 | the entry sequence performs the model's Save on memory holding all trapframes, and enters the handler on the process's own stack |
| `EntryRefinement.ExitRefinesRestore` | NanoBoot/kernel/entry.S:86-128 | the exit sequence performs the model's Restore |
| `VmObject.VirtualMemory.PtAlloc` | NanoBoot/kernel/vm.c:21-31 | the loop takes the first free page and zeroes it, or reports a full pool |
| `VmObject.VirtualMemory.PtRelease` | NanoBoot/kernel/vm.c:33-43 | clears the used flag of the pool page an address lies in; null and addresses outside the pool change nothing |
| `VmObject.VirtualMemory.PtDestroyLevel` | NanoBoot/kernel/vm.c:45-57 | in place, leaves the pool of the specification that `Mapping.DestroyLevelFrees` describes; a null table changes nothing |
| `VmObject.VirtualMemory.WalkAlloc` | NanoBoot/kernel/vm.c:62-72 | the level loop with its moving table pointer, against the specification of `Mapping.DescendRefines` |
| `VmObject.VirtualMemory.MapPages` | NanoBoot/kernel/vm.c:59-80 | the nested loops over byte addresses, for any address and size, against the specification of `Mapping.MapPagesRefines` on the pages they visit |
| `VmObject.PageCountCovers` | NanoBoot/kernel/vm.c:61-62 | the number of pages that loop visits is what it takes to reach the end |
| `VmObject.VirtualMemory.WalkUserPte` | NanoBoot/kernel/vm.c:82-93 | the walk loop finds the valid level-0 entry or fails |
| `VmObject.VirtualMemory.TranslateUser` | NanoBoot/kernel/vm.c:202-209 | the frame behind a user address, exactly when its valid entry has the U bit |
| `VmObject.VirtualMemory.KernelMap` | NanoBoot/kernel/vm.c:95-103 | in place, the specification of `AddressSpace.KernelMapRefines` |
| `VmObject.VirtualMemory.VmCreateUser` | NanoBoot/kernel/vm.c:111-140 | in place, the specification of `AddressSpace.CreateUserRefines`, bad slots and tear-down included |
| `VmObject.VirtualMemory.VmCloneUser` | NanoBoot/kernel/vm.c:142-168 | in place, the specification of `AddressSpace.CloneUserRefines` |
| `VmObject.VirtualMemory.KernelPagetable` | NanoBoot/kernel/vm.c:177-189 | in place, the specification of the two `KernelPagetable` lemmas |
| `VmObject.VirtualMemory.VmDestroy` | NanoBoot/kernel/vm.c:191-195 | in place, the specification of `AddressSpace.DestroySpace`; a null or kernel table is left alone |
| `VmObject.VirtualMemory.CopyIn` | NanoBoot/kernel/vm.c:211-224 | the chunk loop fills exactly the destination range with the specified bytes |
| `VmObject.VirtualMemory.CopyOut` | NanoBoot/kernel/vm.c:226-239 | the chunk loop leaves exactly the specified frames |
| `VmObject.VirtualMemory.CopyInStr` | NanoBoot/kernel/vm.c:241-249 | the byte loop writes the specified string and NUL inside max bytes |
| `KernelObject.NanoKernel.ProcSchedule` | NanoBoot/kernel/proc.c:216-231 | the probing loop, against the specification of `ProcessInvariants.ProbeFindsNearest` |
| `KernelObject.NanoKernel.ProcFork` | NanoBoot/kernel/proc.c:99-126 | in place, the fork of `ProcessInvariants.ForkCore` and `Fairness.ForkCall` |
| `KernelObject.NanoKernel.ProcExit` | NanoBoot/kernel/proc.c:128-156 | in place, the exit of `ProcessInvariants.ExitCore` |
| `KernelObject.NanoKernel.ProcWait` | NanoBoot/kernel/proc.c:158-188 | in place, the wait of `ProcessInvariants.WaitCore` |
| `KernelObject.NanoKernel.ProcSleep` | NanoBoot/kernel/proc.c:190-197 | sets the deadline and gives up the processor |
| `KernelObject.NanoKernel.ProcWakeup` | NanoBoot/kernel/proc.c:199-208 | the loop wakes exactly the sleepers whose deadline has come |
| `KernelObject.NanoKernel.TimerTick` | NanoBoot/kernel/timer.c:17-22 | advances the clock by one and wakes |
| `KernelObject.NanoKernel.SysRead` | NanoBoot/kernel/syscall.c:30-49 | the byte loop over `copyout`, against the specification of `SystemCalls.ReadMeaning` |
| `KernelObject.NanoKernel.SysWrite` | NanoBoot/kernel/syscall.c:14-28 | the result and the bytes sent to the console, by `copyin` into a buffer and a loop up to its NUL |
| `Process.WriteMeaning` | NanoBoot/kernel/syscall.c:14-28 | write fails and sends nothing exactly when one of the first 1024 bytes asked for is unmapped; otherwise it sends the caller's bytes before the first NUL among them |
| `KernelObject.NanoKernel.SyscallDispatch` | NanoBoot/kernel/syscall.c:110-136 | in place, the calls by number that the theorems about each call describe, the result stored in the caller's a0 after the call |
| `KernelObject.NanoKernel.HandleTrap` | NanoBoot/kernel/trap.c:34-63 | the three branches of the handler |
| `KernelObject.NanoKernel.IdleLoop` | NanoBoot/kernel/trap.c:64-71 | the while loop terminates with a timed sleeper, exactly at the earliest deadline |
| `KernelObject.NanoKernel.Resume` | NanoBoot/kernel/trap.c:73-80 | the end of the handler, and the trapframe it returns |
| `KernelMain.TrapHandler` | NanoBoot/kernel/trap.c:34-80 | the whole handler, its early test included: the kernel it leaves and the frame it names are those of the machine's trap step and the idle turns after it |
| `KernelMain.ProcCreateInit` | NanoBoot/kernel/proc.c:64-84 | the slot loop in place, against the specification of the first process that `FirstProcess.FirstEntry` describes |
| `KernelMain.StartFirst` | NanoBoot/kernel/main.c:47-61 | from what `vm_init` and `proc_init` leave, for any image, neither panic happens and user mode is entered in the state from which every run starts |
| `FirstProcess.FirstEntry` | NanoBoot/kernel/proc.c:29-37 | that state: pid 1 at 0x40000000, where the zero-padded image can be fetched, the stack pointer 16 below 0x80000000 with its page writable, all other registers 0, user mode with interrupts on, no other process |
| `ShellLexer.Lexer.NextToken` | src/lexer.c:33-105 | the mutable scanner returns the specified token and position |
| `ShellLexer.Lexer.AllTokens` | src/lexer.c:33-105 | calling it until END gives the token list of the text |
| `ShellLexer.TokensOfSuffix` | src/lexer.c:33-105 | tokens depend only on the text from the position on |
| `ShellLexer.LexBlank` | src/lexer.c:27-31 | each of the six blanks is skipped |
| `ShellLexer.LexBare` | src/lexer.c:87-104 | a run of characters without blanks, symbols and quotes is one word, up to one of these or the end |
| `ShellLexer.LexSymbols` | src/lexer.c:42-63 | the bar, `&`, `<`, `>>`, and `>` when no other follows, are the pipe, ampersand, input, append and output tokens |
| `ShellLexer.LexQuoted` | src/lexer.c:66-84 | between two like quotes every other character stands for itself |
| `ShellLexer.LexUnclosed` | src/lexer.c:66-84 | a quote that is not closed takes the rest of the text |
| `ShellParser.Pipeline.ParseTokens` | src/parser.c:61-156 | the single pass accepts exactly what the grammar accepts (split at pipes, words that are not redirection targets, last redirections win, the limits, only the last command may be empty) and fills the table with the grammar's reading |
| `ShellParser.Finished` | src/parser.c:72-156 | commands filed one token at a time are the declarative meaning of the whole list |
| `ShellReader.ReadsBack` | src/parser.c:61-156 | commands written down in any order of arguments, input, output and append redirections and ampersands, bare or quoted, are lexed and parsed as what these do one after the other, the last redirection of a kind winning, if there are at most 16 commands of at most 63 arguments and only the last has none, and refused otherwise |
| `ShellReader.DanglingRefused` | src/parser.c:88-129 | a redirection without a file name after any such beginning refuses the line |
| `ShellReader.SplitPiped` | src/parser.c:131-140 | splitting at pipes undoes joining with them |
| `ShellPrinter.TextFits` | src/executor.c:86-118 | for every pipeline the text and its NUL fit in the size computed for malloc |
| `ShellPrinter.BuildCommandString` | src/executor.c:86-146 | the strcat loops write inside the allocation and produce the specified text |
| `ShellRoundTrip.RoundTrip` | src/executor.c:86-146 | lexing and parsing the printed text of any pipeline of plain words, within the parser's limits, gives back that pipeline |
| `ShellRoundTrip.TextShape` | src/executor.c:118-141 | the printed text is the words with one space before each but the first, a bar in spaces between commands, and an ampersand after a space for the background |
| `ShellSurvival.TokensUse` | src/lexer.c:33-105 | the values of a text's tokens hold no more quote characters than the text, and fewer if it has any |
| `ShellSurvival.SurvivesPrinting` | src/executor.c:86-146 | a pipeline survives printing, lexing and parsing if and only if its words are plain, it has no redirections, only its last command is in the background or empty, and it keeps the limits |
| `ShellExpand.Buffer.AppendChar` | src/expand.c:9-27 | appends one character; length < capacity, NUL at length, capacity 64 or at most twice the length |
| `ShellExpand.Buffer.AppendText` | src/expand.c:29-46 | appends a whole text under the same invariant |
| `ShellExpand.ExpandString` | src/expand.c:48-169 | the index-jumping loop yields the one-pass substitution for every input and environment |
| `ShellExpand.ScanSpells` | src/expand.c:63-166 | every text is spelled by its pieces: literals, braced and bare references |
| `ShellExpand.ScanUnique` | src/expand.c:63-166 | it is spelled by no other legal sequence of pieces |
| `ShellExpand.ExpandSubstitutes` | src/expand.c:63-166 | expansion replaces each piece by its meaning, values copied verbatim |
| `ShellExpand.PieceInContext` | src/expand.c:75-157 | a reference yields its value whatever the value looks like and whatever follows |
| `ShellExpand.ExpandDistributes` | src/expand.c:63-166 | expansion distributes over concatenation at every split outside a reference |
| `ShellExpand.ExpandIdentity` | src/expand.c:65-73 | a text without a dollar sign is left alone |
| `ShellExpand.ExpandBraced` | src/expand.c:75-113 | `${name}` becomes the value of name, or nothing, and the rest is expanded by itself |
| `ShellExpand.ExpandBare` | src/expand.c:115-157 | `$name` likewise, for letters, digits and underscores not starting with a digit |
| `ShellExpand.ExpandDollar` | src/expand.c:159-166 | a dollar sign that starts neither stays |
| `ShellExpand.NotIdempotent` | src/expand.c:63-166 | inserted values are not expanded again: expanding twice can differ from once |
| `PipelineWiring.RedirectWires` | src/executor.c:14-81 | on any table, open, dup2 and close change exactly the redirected descriptor and leak none; a closed descriptor that is the lowest free one stays closed |
| `PipelineWiring.StageWires` | src/executor.c:303-335 | a stage's descriptor calls, run from the table it was forked with, all succeed and end with the shell's table changed at descriptors 0 and 1 only |
| `PipelineLaunch.StepOk` | src/executor.c:264-368 | every turn of the shell, of a stage or of the SIGCHLD handler keeps the launch invariant: a stage is at or on its way to its table and group, or has exited on a failed setpgid, which the first stage never does |
| `PipelineLaunch.KeptRun` | src/executor.c:291-301 | no stage exits during a run if and only if at each setpgid turn some unreaped process is in the group |
| `PipelineLaunch.LeaderKeeps` | src/main.c:129-148 | if the first stage is not reaped and its program stays in its group, every setpgid finds the group |
| `PipelineLaunch.LaunchWires` | src/executor.c:264-368 | for every interleaving: the shell's table is restored; a stage that reaches exec does so with exactly its table and put into the first one's group; all of them do if and only if each found its group |
| `PipelineLaunch.PipeEndsHeld` | src/executor.c:264-368 | when all stages have reached exec, the write end of pipe p was open there in stage p alone, as stdout, its read end in stage p + 1 alone, as stdin, each exactly when no redirection overrides it; the shell holds neither |
| `PipelineLaunch.StageFiles` | src/executor.c:303-335 | case by case, what a stage that reaches exec reads and writes: its redirections, truncating or appending, /dev/null, the pipes, or the shell's own files; every other descriptor is the shell's |
| `PipelineLaunch.CanFinish` | src/executor.c:264-368 | whatever descriptors the shell has open, no call blocks: the launch can always run until every stage has reached exec or exited |
| `PipelineLaunch.CanLaunch` | src/executor.c:264-368 | while no stage is lost and the first one is unreaped in its group, the launch can still be completed without losing one |
| `PipelineLaunch.ConnectedExactly` | src/executor.c:264-368 | for every pipeline of at least two commands, with any redirections, in the background or not, and for every interleaving that runs to its end: all stages run with their declared input and output if and only if the shell has descriptors 0 and 1 open and each stage found its group; then all are in the first one's group |
| `PipelineLaunch.ClosedInputExample` | src/executor.c:303-324 | a shell without standard input, a complete launch of two plain commands, and a stage that is not connected |
| `PipelineLaunch.ReapedLeaderExample` | src/executor.c:296-300 | an ordinary shell, `true` and `cat`, a complete launch in which the first stage is reaped before the second joins, and the second exits |
| `PipelineLoop.Launcher.LaunchStage` | src/executor.c:264-368 | one iteration in place, with any turns of others after fork and after the parent's part, is the fork turn, those turns, the settle turn and those turns; a process id the kernel may give is picked freely |
| `PipelineLoop.Launcher.ExecutePipeline` | src/executor.c:264-368 | whatever happens between its steps, the loop goes through a run of the protocol, restores the shell's table, and leaves every stage not lost at or on its way to its own table and the first one's group; none is lost if and only if each found its group |
| `NanoShell.ReadWord` | NanoBoot/user/sh.c:162-201 | the quote-aware word loop stores the word, cut to 63 characters, in its own row and reports an open quote |
| `NanoShell.Tokenize` | NanoBoot/user/sh.c:99-207 | all writes in bounds; the token array holds exactly the specified tokens and the end marker, or the specified error is reported |
| `NanoShell.JoinedScans` | NanoBoot/user/sh.c:99-207 | single-quoted, space-joined words tokenize to those words cut to 63 characters if there is room, and to the token-limit error otherwise |
| `NanoShell.TokenizeRoundTrip` | NanoBoot/user/sh.c:4-6 | words survive quoting, joining and tokenizing if and only if there are at most 31, each of at most 63 characters |
| `NanoReader.WordRead` | NanoBoot/user/sh.c:162-193 | a word of bare, single-quoted and double-quoted pieces is read as their characters, up to the first blank or operator outside quotes |
| `NanoReader.ScanOperators` | NanoBoot/user/sh.c:114-160 | the bar, `<`, `&`, `>>`, and `>` when no other follows, are the five operator tokens with their own text |
| `NanoReader.ScanOpen` | NanoBoot/user/sh.c:195-198 | an open quote makes the line fail |
| `NanoReader.LineRead` | NanoBoot/user/sh.c:99-207 | a line of words and operators is read as their tokens, each word's first 63 characters, if there is room for them and the end marker, and refused for its length otherwise |
| `NanoShell.PrintNum` | NanoBoot/user/sh.c:53-64 | prints the decimal numeral, with a sign when negative; the digits always fit in the buffer |
| `NanoShell.ParseNum` | NanoBoot/user/sh.c:83-92 | the value of the leading digits, modulo 2^64 |
| `NanoShell.NumeralRoundTrip` | NanoBoot/user/sh.c:83-92 | the value of a numeral is the number it was made from, whatever non-digit text follows |
| `NanoShell.NumeralCanonical` | NanoBoot/user/sh.c:57-63 | a numeral has no leading zero, and zero is "0" |
| `NanoShell.PrintThenParse` | NanoBoot/user/sh.c:53-92 | `parse_num` inverts `print_num` for every non-negative long |

## Left out

- UART, SBI, CSR access, boot code and console output other than the bytes `write` sends: hardware I/O; `satp`, the tick counter and console input are plain state or parameters.
- `kernel_trap_handler`, `kernel_trap_entry`, the idle trapframe and `swtch.S`: no user trap returns without a process, and nothing calls `swtch`.
- `spinlock.c`, `ramfs.c`, `string.c`: easy members; `memcpy`, `memset` and file lookup are taken as specified primitives.
- `next_pid` and `ticks` do not overflow, and `kernel_sp` is kept as the number of the slot whose stack it points to.
- A page-table pointer outside the pool and a process without a table have a value in the model only to keep functions total; the invariant excludes both.
- Liveness of wait: parents are slot pointers that outlive the parent, so two processes can wait for each other; only what unblocks a waiter is stated.
- `proc_ps`, `sys_ps`, `sys_ls`: they print.
- `parse_command` and command execution in the NanoBoot shell: one pass over the token array with fixed error cases, easy next to the ShellForge parser.
- VmObject.VirtualMemory.CopyInStr: does not model max = 0, where the code would write before the buffer; every caller passes a positive constant.
- VmObject.VirtualMemory.MapPages: does not model 64-bit wrap-around of an address plus a size, which no caller reaches.
- NanoShell.PrintNum: does not model the least long, whose negation overflows.
- ShellExpand.ExpandString: does not model allocation failure; character classes are those of the C locale.
- PipelineLoop.Launcher.ExecutePipeline: does not model failing `pipe`, `fork` or `open` calls, a stage killed by a signal before it reaches exec, process groups made by processes outside the pipeline, the early returns for fewer than two commands, nor the waiting and job bookkeeping after the loop.
- ShellParser.Pipeline.ParseTokens: does not model allocation failure in `add_argument` and `set_string`, nor freeing on refusal.
- ShellLexer.Lexer.AllTokens: does not model the cap of 255 tokens in `src/main.c`.
- `execute_command`, `src/main.c`, `src/builtin.c`, `src/jobs.c`, `expand_command`: foreign calls, plumbing and easy tables.
