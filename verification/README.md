# Nachos in Dafny

A model of the hard core of the Nachos teaching kernel, with proofs: the thread and synchronisation kernel, the
interrupt clock, the synchronous list, disk and post office built on it, the simulated MIPS machine with its
address translation, the sector file layer, and demand paging.

`dafny verify dfyconfig.toml` checks the whole project.

## How it is organised

Each component has a specification on values (functions and step machines, with the theorems about them) and,
where the C++ works in place, classes whose methods are proved equal to that specification.

| component | specification and theorems | in-place form |
|---|---|---|
| threads, scheduler, locks, semaphores, conditions | `Threads`, `Synch`, `SynchLaws`, `SynchTheorems` | `SynchCode` |
| synchronised list, synchronous disk | `SynchList`, `Gate`, `SynchDisk`, `Calls` | steps of the kernel above |
| linked list, interrupts and clock | `LinkedList`, `Interrupt`, `InterruptOrder`, `InterruptLaws` | the same modules |
| multiplier, translation, instructions | `Words`, `Mult`, `Memory`, `FlatMemory`, `Mips`, `Assembler`, `Bits`, `MipsLaws`, `MipsMemoryLaws` | `Mult`, `Memory`, `MipsCode` |
| bitmap, files, file system, disk timing | `BitMap`, `OpenFile`, `FileSystem`, `DiskLatency` | the same modules and `FileSystemCode` |
| network and post office | `Wire`, `Inlet`, `Office`, `PostOffice`, `Delivery` | steps of the kernel above, and `PostCode` |
| paging, and programs under paging | `Paging`, `PagedMips` | `PagingCode` |

Conventions of the model:

- Concurrency is a step machine. A switch happens only in Yield, in Sleep or on a tick, so the code between those
  points is one step. Runs are arbitrary sequences of steps of any number of threads; `SynchList` and `SynchDisk`
  run among threads that do anything else the kernel allows, and every machine of `PostOffice` has its own kernel, on
  which senders, the postal worker, its handlers and the readers of mailboxes run. `Gate` is the protocol that the
  disk and the sender share, `Inlet` the one of the worker.
- A new lock's owner field is arbitrary, Release leaves it stale, Acquire lets the owner in again.
- What an interrupt handler does is a parameter (a script of wishes to schedule); the kernel's answer to a fault is
  a parameter of the machine's theorems. Packet loss is a choice of the step.
- Words are integers with explicit wrap-around. OR and the right shifts are modelled as the simulator has them.
- Nothing in the source sets the network's sendBusy, so the flag stays false and the test of it in Network::Send cannot
  fail. The field is modelled as it is; what its name promises, that no send is under way, is proved of the
  outstanding interrupt itself.
- The text in disk.h about the track buffer and the name LRU differ from the code: the buffer test rounds the time of
  the request up to a sector boundary, and the replacement list is first in first out. The model follows the code.

## Model

| member | source | states |
|---|---|---|
| `Threads.RunNextKeepsInv` | code/threads/scheduler.cc:96-145 | Dispatching the head of the ready list, with the deferred destruction it performs, keeps every thread in one place with matching status |
| `Threads.SleepKeepsInv` | code/threads/thread.cc:211-226 | Blocking on a wait queue keeps the thread system consistent, appends exactly the caller to that queue, leaves all other queues alone |
| `Threads.WakeKeepsInv` | code/threads/scheduler.cc:59-66 | Readying the first waiter moves exactly that thread from its wait queue to the ready list and makes it a woken thread of the queue |
| `Threads.YieldKeepsInv` | code/threads/thread.cc:174-190 | Yield keeps the thread system consistent and changes no wait queue |
| `Threads.FinishKeepsInv` | code/threads/thread.cc:143-154 | Finish keeps the thread system consistent although the thread is destroyed only later |
| `Threads.ForkKeepsInv` | code/threads/thread.cc:87-99 | A forked thread enters the ready list once and nothing else moves |
| `Synch.AcquireKeepsInv` | code/threads/synch.cc:122-135 | One turn of the Acquire loop keeps the kernel invariant, re-entry by the owner included |
| `Synch.ReleaseKeepsInv` | code/threads/synch.cc:136-149 | Release keeps the kernel invariant although it leaves the owner field stale; a caller that is not the owner changes nothing |
| `Synch.PKeepsInv` | code/threads/synch.cc:64-77 | One turn of the P loop keeps the kernel invariant |
| `Synch.VKeepsInv` | code/threads/synch.cc:87-98 | V keeps the kernel invariant |
| `Synch.WaitKeepsInv` | code/threads/synch.cc:182-197 | Wait, which joins the queue, releases the lock and sleeps, keeps the kernel invariant |
| `Synch.SignalKeepsInv` | code/threads/synch.cc:199-213 | Signal keeps the kernel invariant |
| `Synch.BroadcastKeepsInv` | code/threads/synch.cc:215-233 | Broadcast keeps the kernel invariant |
| `Synch.StepKeepsInv` | code/threads/synch.cc:64-233 | Every operation of every thread keeps the whole kernel invariant |
| `SynchLaws.AcquireTakesOrSleeps` | code/threads/synch.cc:122-135 | A turn of Acquire takes a lock that is free or its own and moves nobody; otherwise the caller is last in the lock queue and the head of the ready list runs |
| `SynchLaws.ReleaseReadiesFirst` | code/threads/synch.cc:136-149 | Release by the owner frees the lock and puts exactly its first waiter last on the ready list; by anybody else it does nothing |
| `SynchLaws.PTakesOrSleeps` | code/threads/synch.cc:64-77 | A turn of P takes a unit and moves nobody, or sleeps last in line and the head of the ready list runs |
| `SynchLaws.VReadiesFirst` | code/threads/synch.cc:87-98 | V adds one unit and puts exactly the first waiter last on the ready list |
| `SynchLaws.WaitSleepsAndReleases` | code/threads/synch.cc:182-197 | Wait by the owner sleeps last in line, is counted, frees the lock and readies its first waiter; by anybody else it does nothing |
| `SynchLaws.WaitReturnSeeksLock` | code/threads/synch.cc:193-196 | A thread woken in Wait next tests the lock it waited with |
| `SynchLaws.SignalReadiesFirst` | code/threads/synch.cc:199-213 | Signal by the owner readies exactly the first sleeper and lowers the count by one; by anybody else, or with no sleeper, it does nothing |
| `SynchLaws.BroadcastReadiesAll` | code/threads/synch.cc:215-233 | Broadcast by the owner readies every sleeper in order, leaves none and the count zero; by anybody else it does nothing |
| `SynchLaws.YieldRotates` | code/threads/thread.cc:174-190 | Yield runs the head of the ready list with the caller last on it, or does nothing |
| `SynchLaws.ForkReadiesLast` | code/threads/thread.cc:87-99 | A forked thread is ready behind all others |
| `SynchLaws.FinishLeaves` | code/threads/thread.cc:143-154 | Finish runs the head of the ready list; the caller is destroyed at once if that thread has run before and is the one to destroy otherwise |
| `SynchTheorems.InitInv` | code/threads/synch.cc:112-117 | The kernel starts out consistent whatever value the owner field of a new lock happens to hold |
| `SynchTheorems.MutualExclusion` | code/threads/synch.cc:122-149 | In every run at most one thread is past Acquire and not through Release, it is the one the lock names, and there is one exactly when the lock is taken |
| `SynchTheorems.OnlyHolderFrees` | code/threads/synch.cc:136-154 | Only the thread inside frees a lock; an extra Release or Wait by a stale owner is a no-op |
| `SynchTheorems.NoLostWakeup` | code/threads/synch.cc:64-149 | In every run: sleepers on a free lock have a woken thread about to retest it; with sleepers on a semaphore its value is at most the number of woken threads; a condition counts its sleepers |
| `SynchTheorems.SemaphoreCounts` | code/threads/synch.cc:64-98 | Over every run value = initial + Vs - completed Ps, and it is never negative |
| `SynchTheorems.ExactlyOnePlace` | code/threads/scheduler.cc:59-80 | Every live thread is in exactly one place: running, ready once, on one wait queue once, or finished, with matching status |
| `SynchTheorems.DestroyedIsNowhere` | code/threads/scheduler.cc:138-145 | A thread disappears only when it has finished and is in no place |
| `SynchTheorems.OrphanedExactlyBySecondFinish` | code/threads/thread.cc:143-154 | A finished thread can be forgotten, exactly when a thread finishes while another is still waiting to be destroyed |
| `SynchTheorems.OrphansStay` | code/threads/scheduler.cc:138-145 | A thread forgotten that way is never destroyed, whatever happens next |
| `SynchTheorems.OrphansExactlyAfterSecondFinish` | code/threads/thread.cc:143-154 | A run ends with such a thread exactly when it began with one or somewhere in it a thread finishes while another waits to be destroyed |
| `SynchTheorems.OrphanIsReachable` | code/threads/thread.cc:87-154 | From boot: two threads forked before either runs, each finishing at once, leave one behind |
| `SynchTheorems.ReadyListMovesUp` | code/threads/scheduler.cc:59-80 | In every run the ready list is a queue: after i dispatches the first i threads are gone and the rest have moved up |
| `SynchTheorems.DispatchedInTurn` | code/threads/scheduler.cc:76-80 | A ready thread with i threads ahead of it runs at the (i+1)-th dispatch of every run |
| `SynchCode.Nachos.Run` | code/threads/scheduler.cc:96-145 | The imperative dispatch equals the step of the model |
| `SynchCode.Nachos.Sleep` | code/threads/thread.cc:211-226 | The imperative Sleep equals the step of the model |
| `SynchCode.Nachos.Yield` | code/threads/thread.cc:174-190 | The imperative Yield equals the step of the model |
| `SynchCode.Nachos.Finish` | code/threads/thread.cc:143-154 | The imperative Finish equals the step of the model |
| `SynchCode.Nachos.Acquire` | code/threads/synch.cc:122-135 | The imperative Acquire turn equals the step of the model |
| `SynchCode.Nachos.Release` | code/threads/synch.cc:136-149 | The imperative Release equals the step of the model |
| `SynchCode.Nachos.P` | code/threads/synch.cc:64-77 | The imperative P turn equals the step of the model |
| `SynchCode.Nachos.V` | code/threads/synch.cc:87-98 | The imperative V equals the step of the model |
| `SynchCode.Nachos.Wait` | code/threads/synch.cc:182-197 | Queueing first, releasing, and blocking last has the same effect as the atomic step of the model |
| `SynchCode.Nachos.Signal` | code/threads/synch.cc:199-213 | The imperative Signal equals the step of the model |
| `SynchCode.Nachos.Broadcast` | code/threads/synch.cc:215-233 | The loop of Broadcast equals the step that readies all sleepers in order |
| `SynchList.TakeKeeps` | code/threads/synchlist.cc:71-82 | When a consumer takes, the list is not empty and its head is the oldest item not yet removed |
| `SynchList.StepKeeps` | code/threads/synchlist.cc:53-82 | Every step of Append and Remove, and every foreign kernel step in between, keeps the monitor invariant |
| `SynchList.FirstInFirstOut` | code/threads/synchlist.cc:53-82 | In every interleaving appended = removed + list, so what was removed is a prefix of what was appended |
| `SynchList.NoLostItem` | code/threads/synchlist.cc:53-82 | In every interleaving the condition counts exactly the sleeping consumers, and while some sleep the list is no longer than the number of signalled consumers |
| `Gate.IssueKeeps` | code/filesys/synchdisk.cc:72-97 | On the kernel, with any other threads: when a thread in the lock-device-semaphore protocol calls the device no request is outstanding |
| `Gate.StepKeeps` | code/network/post.cc:282-287 | Every step of the protocol, of the interrupt and of unrelated threads keeps the protocol invariant |
| `Gate.OneAtATime` | code/filesys/synchdisk.cc:72-97 | At most one of an outstanding request and a semaphore unit exists |
| `Gate.SleeperIsPending` | code/filesys/synchdisk.cc:105-109 | A thread asleep on the semaphore has its own request outstanding |
| `Calls.RequestCompletes` | code/filesys/synchdisk.cc:72-97 | A request made while nobody holds the lock goes through lock, device, interrupt, semaphore and release, each possible in turn, and leaves one more made and completed and the lock free |
| `Calls.InterruptWakes` | code/filesys/synchdisk.cc:105-109 | The completion interrupt readies exactly the sleeping caller and leaves it one unit |
| `Calls.AppendCompletes` | code/threads/synchlist.cc:53-64 | A call of Append on a free list goes through, leaves the item last on it and readies the first sleeping consumer |
| `Calls.RemoveCompletes` | code/threads/synchlist.cc:71-82 | A call of Remove on a free list that is not empty goes through and takes the first item |
| `Calls.RemoveSleeps` | code/threads/synchlist.cc:74-75 | A call of Remove on an empty list sleeps last in line and lets the lock go |
| `Calls.WokenTakes` | code/threads/synchlist.cc:74-82 | A signalled consumer that finds the list free and not empty takes the first item and is out |
| `SynchDisk.IssueKeeps` | code/filesys/synchdisk.cc:72-97 | The raw disk assertion that no request is active never fails |
| `SynchDisk.StepKeeps` | code/filesys/synchdisk.cc:72-109 | Every step of callers, of the disk interrupt and of unrelated threads keeps the protocol invariant |
| `SynchDisk.OneRequestAtATime` | code/machine/disk.cc:115-166 | In every interleaving at most one of an active request and a semaphore unit exists |
| `SynchDisk.ReturnsAfterOwnCompletion` | code/filesys/synchdisk.cc:72-97 | A call returns only after the completion interrupt of its own request, and its buffer is what the sector then holds |
| `SynchDisk.SleeperIsPending` | code/filesys/synchdisk.cc:105-109 | No completion is lost: a caller asleep on the semaphore still has its request active |
| `SynchDisk.SectorHoldsLastWrite` | code/machine/disk.cc:115-152 | In every interleaving every sector holds the data of the last write to it, and reads change none |
| `LinkedList.InsertedIsSorted` | code/threads/list.cc:178-202 | Sorted insertion keeps a list sorted, adds exactly the new entry, and puts it behind entries with the same key |
| `LinkedList.List.Append` | code/threads/list.cc:76-88 | On the heap list: appends the item |
| `LinkedList.List.Prepend` | code/threads/list.cc:102-114 | On the heap list: prepends the item |
| `LinkedList.List.IsEmpty` | code/threads/list.cc:154-161 | True exactly when the list holds nothing |
| `LinkedList.List.SortedInsert` | code/threads/list.cc:178-202 | On the heap list: the contents become the sorted insertion of the item |
| `LinkedList.List.SortedRemove` | code/threads/list.cc:217-237 | On the heap list: returns and drops the first entry, or nothing |
| `Interrupt.EveryRunIsOrderly` | code/machine/interrupt.cc:151-336 | Over every run of Schedule, OneTick and Idle, with any lawful handlers: pending list sorted, no handler early, fired due times never decrease, clock never goes back, total ticks are the sum of the three counters |
| `Interrupt.FiringUsesUpDue` | code/machine/interrupt.cc:291-336 | Each firing strictly lowers the number of due entries although handlers schedule more, so the firing loop ends |
| `Interrupt.OneTickLeavesNothingDue` | code/machine/interrupt.cc:151-179 | After OneTick every pending interrupt is strictly in the future |
| `Interrupt.IdleLeavesNothingDue` | code/machine/interrupt.cc:211-234 | After Idle the same holds except for a lone timer, and it halts only when nothing but such a timer is pending |
| `InterruptLaws.CheckCallsExactlyWhen` | code/machine/interrupt.cc:291-336 | CheckIfDue calls the first handler exactly when its time has come or may be waited for and it is not the lone timer of an idle machine; what the clocks and the yield flag then are |
| `InterruptLaws.IdleHaltsExactlyWhen` | code/machine/interrupt.cc:211-234 | Idle halts exactly when nothing or only the timer is pending, with nothing called and the list as it was; otherwise the clock is at the first entry, its handler is the next one called, and the machine goes on in the kernel |
| `InterruptLaws.OneTickTakes` | code/machine/interrupt.cc:151-171 | OneTick takes 10 ticks in the kernel and 1 in a user program |
| `InterruptLaws.OneTickCallsExactlyDue` | code/machine/interrupt.cc:165-171 | It calls exactly the handlers that are due by then, in the order of the list |
| `InterruptLaws.YieldsExactlyWhenAsked` | code/machine/interrupt.cc:172-178 | A switch is asked for exactly when one was or a handler called asks |
| `InterruptLaws.EveryInterruptOnce` | code/machine/interrupt.cc:265-275 | Over every run every interrupt a device or a handler schedules is called exactly once, with its handler, argument and due time, or is still pending |
| `Interrupt.PutBackRotatesTies` | code/machine/interrupt.cc:309-312 | Putting a head back keeps the list exactly when all entries due at the same time have the same handler, argument and device |
| `InterruptOrder.DueFireInListOrder` | code/machine/interrupt.cc:166-171 | Entries that are due fire in the order of the list before anything their handlers schedule |
| `InterruptOrder.TiesFireRotated` | code/machine/interrupt.cc:151-179 | Interrupts due together at the (n+1)-th tick fire together then, in the order scheduled rotated n times |
| `InterruptOrder.InOrderExactlyOnFullTurns` | code/machine/interrupt.cc:309-312 | Different interrupts due together fire in the order scheduled exactly when the ticks waited are a multiple of their number |
| `InterruptOrder.TwoSwap` | code/machine/interrupt.cc:309-312 | Two interrupts scheduled for the same time fire in the other order after one tick in between |
| `Interrupt.InterruptSystem.ScheduleInt` | code/machine/interrupt.cc:265-275 | The imperative Schedule equals the model |
| `Interrupt.InterruptSystem.CheckDue` | code/machine/interrupt.cc:291-336 | The imperative CheckIfDue over the heap list equals the model |
| `Interrupt.InterruptSystem.FireDue` | code/machine/interrupt.cc:166-171 | The firing loop terminates and equals the model |
| `Interrupt.InterruptSystem.OneTickNow` | code/machine/interrupt.cc:151-179 | The imperative OneTick equals the model |
| `Interrupt.InterruptSystem.IdleNow` | code/machine/interrupt.cc:211-234 | The imperative Idle equals the model |
| `Mult.Mult` | code/machine/mipssim.cc:635-692 | For all 32-bit operands, signed and unsigned, hi and lo are the exact 64-bit product |
| `Mult.PartialIsProduct` | code/machine/mipssim.cc:657-678 | The shifted partial sums of the loop add up to the product |
| `Memory.PhysicalBound` | code/machine/translate.cc:186-255 | An aligned access stays in its page, so the assertion on the physical address never fails |
| `Memory.TableTranslates` | code/machine/translate.cc:186-255 | Translation by a page table of 128-byte pages into 64 frames: exactly when each exception is raised, that the offset is kept, and that only the use and dirty bits of the page change |
| `Memory.SearchFindsFirst` | code/machine/translate.cc:222-231 | The TLB entry found is the first valid one for the page, and none is found exactly when there is none |
| `Memory.WriteIsFlat` | code/machine/translate.cc:137-169 | With an injective table a store of 1, 2 or 4 bytes changes exactly the addressed virtual bytes, in little-endian order |
| `Memory.ReadMemIsFlat` | code/machine/translate.cc:87-121 | A load returns the value of the addressed virtual bytes and changes no byte |
| `Memory.ReadsBack` | code/machine/translate.cc:87-169 | A load after a store at the same address and size gives the value cut to a signed byte, an unsigned short or a word, for every table |
| `FlatMemory.PerformIsFlat` | code/machine/translate.cc:87-169 | One load or store of any size at any address answers and leaves what one flat byte store does, and keeps the table injective and its refusals |
| `FlatMemory.RunsAreFlat` | code/machine/translate.cc:87-169 | Every run of loads and stores of mixed sizes, refused ones included, gets the answers of one flat little-endian byte store and leaves its bytes |
| `Memory.StoresLittleEndian` | code/machine/translate.cc:41-71 | On a big-endian host too, a stored word lies in memory in little-endian order |
| `Memory.SpacesAreIsolated` | code/machine/translate.cc:186-255 | Address spaces with disjoint frames cannot affect each other |
| `Memory.UserMemory.TranslateNow` | code/machine/translate.cc:186-255 | The imperative translation, TLB search loop and bit updates included, equals the model |
| `Memory.UserMemory.Read` | code/machine/translate.cc:87-121 | The imperative ReadMem equals the model |
| `Memory.UserMemory.Write` | code/machine/translate.cc:137-169 | The imperative WriteMem equals the model |
| `Mips.Decode` | code/machine/mipssim.cc:589-626 | Every word decodes to register numbers below 32 and a shift amount below 32, never to the opcode the simulator asserts away |
| `Assembler.DecodeInvertsEncode` | code/machine/mipssim.cc:589-626 | For every instruction, all registers, shift amounts, immediates and indices, Decode reads back what an assembler with the numbers of the architecture wrote |
| `Assembler.EncodeInvertsDecode` | code/machine/mipssim.cc:589-626 | Every word that decodes to an instruction is the code of that instruction |
| `Assembler.IllegalExactly` | code/machine/mipssim.h:117-150 | Exactly which words decode to the unimplemented and to the reserved opcode, by their fields |
| `Assembler.EveryInstructionHasCode` | code/machine/mipssim.h:117-150 | Every instruction has a code except the one never decoded |
| `MipsLaws.RegisterInstructions` | code/machine/mipssim.cc:149-540 | ADDU, SUBU, AND, OR, XOR, NOR, SLT, SLTU, SLLV, SRAV, SRLV: rd by sums modulo 2 to the 32, bits, comparisons and powers of two; no other register changes but for the pending load |
| `MipsLaws.ImmediateInstructions` | code/machine/mipssim.cc:145-544 | ADDIU, ANDI, ORI, XORI, LUI, SLTI, SLTIU: rt in the same terms |
| `MipsLaws.ShiftInstructions` | code/machine/mipssim.cc:395-449 | SLL, SRA, SRL: rd by powers of two |
| `MipsLaws.TrappingInstructions` | code/machine/mipssim.cc:125-469 | ADD, ADDI, SUB deliver the true result if it is a word and raise the overflow exception otherwise |
| `MipsLaws.DoubleInstructions` | code/machine/mipssim.cc:195-369 | MULT, MULTU, DIV, DIVU, MTHI, MTLO: HI and LO by the exact product and the division law, and no general register |
| `MipsLaws.MoveInstructions` | code/machine/mipssim.cc:345-351 | MFHI and MFLO copy HI and LO |
| `MipsLaws.BranchInstructions` | code/machine/mipssim.cc:161-193 | Each branch is taken exactly on its condition, to NextPC plus four times the offset; the linking ones link either way, before they test |
| `MipsLaws.JumpInstructions` | code/machine/mipssim.cc:219-229 | J, JAL, JR, JALR: target and link register |
| `MipsLaws.ExceptionInstructions` | code/machine/mipssim.cc:534-549 | SYSCALL and the codes that are no instruction raise their exceptions and change nothing but for the pending load |
| `MipsMemoryLaws.LoadInstructions` | code/machine/mipssim.cc:231-278 | LB, LBU, LH, LHU, LW: the signed or unsigned value of the bytes read becomes the pending load, or the exception of the address |
| `MipsMemoryLaws.StoreInstructions` | code/machine/mipssim.cc:383-475 | SB, SH, SW: exactly the bytes addressed become the low bytes of rt, or the exception of the address |
| `MipsMemoryLaws.UnalignedLoads` | code/machine/mipssim.cc:280-343 | LWL and LWR at a multiple of four, by bytes |
| `MipsMemoryLaws.UnalignedStores` | code/machine/mipssim.cc:477-532 | SWL and SWR at a multiple of four, by bytes |
| `MipsMemoryLaws.UnalignedAborts` | code/machine/mipssim.cc:280-286 | Elsewhere those four fail the assertion of the simulator |
| `MipsMemoryLaws.FetchStops` | code/machine/mipssim.cc:101-102 | A program counter that cannot be read raises its exception |
| `MipsMemoryLaws.RunsTheCode` | code/machine/mipssim.cc:100-104 | Where the bytes of an instruction lie at the program counter the machine runs it, with its registers and immediate |
| `MipsMemoryLaws.BranchArrives` | code/machine/mipssim.cc:555-564 | Once the instruction after a branch has run, the program counter is the target if the condition held and the instruction after that if not |
| `Bits.WordBits` | code/machine/mipssim.cc:153-159 | The bitwise operations on words, bit by bit |
| `Mips.StepKeepsCpu` | code/machine/mipssim.cc:93-565 | Whatever program runs, R0 stays zero, registers stay words, and a delayed load never writes outside the general registers |
| `Mips.RaiseIsInvisible` | code/machine/machine.cc:100-111 | Raising an exception before an instruction that neither reads nor writes the pending register cannot be told from not raising it |
| `Mips.FaultsAreTransparent` | code/machine/mipssim.cc:94-104 | However often the fetch or the data access of such an instruction faults, re-execution ends in the same registers, HI, LO, program counters, pending load and memory as an uninterrupted run |
| `Mips.InterruptsAreTransparent` | code/machine/interrupt.cc:323-326 | The early delayed load before an interrupt is invisible in the same way |
| `Mips.WriteHazard` | code/machine/mipssim.cc:575-582 | An instruction that writes the pending register leaves the loaded value when uninterrupted and its own value when restarted |
| `Mips.ReadHazard` | code/machine/mipssim.cc:575-582 | An ADDU that reads the pending register as either or both operands behaves the same when restarted exactly when the load changes nothing, or both operands are it and only the top bit changes |
| `Mips.LoadAddressHazard` | code/machine/mipssim.cc:230-287 | A load through the pending register behaves the same exactly when the addresses agree or both reads give the same value and table |
| `Mips.StoreValueHazard` | code/machine/mipssim.cc:383-393 | A store of the pending register behaves the same exactly when it is refused or the stored bytes agree |
| `Mips.StoreAddressHazard` | code/machine/mipssim.cc:471-475 | A store through the pending register behaves the same exactly when the addresses agree or both stores leave the same memory and table |
| `Mips.LoadsArriveLate` | code/machine/mipssim.cc:575-582 | A pending load lands at the end of the next instruction whatever that instruction writes |
| `Mips.LoadsAreDelayed` | code/machine/mipssim.cc:268-278 | LW leaves its target alone and makes the word read the pending load |
| `Mips.BranchesAreDelayed` | code/machine/mipssim.cc:555-564 | The instruction after any instruction runs before the NextPC it leaves is reached |
| `Mips.OverflowIsExact` | code/machine/mipssim.cc:125-143 | The sign-bit tests of ADD, ADDI and SUB trap if and only if the true result is not a word |
| `Mips.DivisionLaw` | code/machine/mipssim.cc:195-203 | Quotient and remainder satisfy the division law, truncating toward zero |
| `Mips.ShiftIsLogicalExactlyWhen` | code/machine/mipssim.cc:445-455 | SRL and SRLV are logical shifts exactly when the word is not negative or the distance is zero |
| `Mips.OrIsRightExactlyWhen` | code/machine/mipssim.cc:375-377 | OR copies rs, which is the OR of rs and rt exactly when rt has no bit that rs lacks |
| `MipsCode.Machine.DelayedLoad` | code/machine/mipssim.cc:575-582 | The imperative delayed load equals the model |
| `MipsCode.Machine.RaiseException` | code/machine/machine.cc:100-111 | The imperative exception entry equals the model |
| `MipsCode.Machine.OneInstruction` | code/machine/mipssim.cc:93-565 | The in-place execution of any instruction, with the in-place memory and the shift-and-add multiplier, equals the model and keeps the machine well formed |
| `BitMap.FindsSucceed` | code/userprog/bitmap.cc:94-103 | k successive Finds all succeed exactly when at least k bits are clear |
| `BitMap.FindsAreFresh` | code/userprog/bitmap.cc:94-103 | They then return k different bits that were clear, in increasing order |
| `BitMap.CountIsCardinality` | code/userprog/bitmap.cc:111-119 | The count of clear bits is the cardinality of the complement |
| `BitMap.BitMap.constructor` | code/userprog/bitmap.cc:20-27 | From arbitrary words, clearing bit by bit leaves the empty set, for any size |
| `BitMap.BitMap.Mark` | code/userprog/bitmap.cc:46-51 | Adds exactly one element to the set |
| `BitMap.BitMap.Clear` | code/userprog/bitmap.cc:60-65 | Removes exactly one element from the set |
| `BitMap.BitMap.Test` | code/userprog/bitmap.cc:74-83 | Decides membership |
| `BitMap.BitMap.Find` | code/userprog/bitmap.cc:94-103 | Returns and adds the least absent element, or returns -1 and changes nothing |
| `BitMap.BitMap.NumClear` | code/userprog/bitmap.cc:111-119 | Returns the number of absent elements |
| `OpenFile.OpenFile.ReadAt` | code/filesys/openfile.cc:116-144 | For any injective block map and any alignment: the bytes read are the slice of the flat file |
| `OpenFile.OpenFile.WriteAt` | code/filesys/openfile.cc:260-289 | For any injective block map and any alignment: the flat file becomes the splice of the bytes written, and no sector outside the file changes |
| `OpenFile.BufferIsSplice` | code/filesys/openfile.cc:272-289 | A buffer holding the new bytes and the old bytes around them, written back sector by sector, splices the flat file |
| `OpenFile.OpenFile.Read` | code/filesys/openfile.cc:73-79 | Reads the slice at the seek position and advances it by the count |
| `OpenFile.OpenFile.Write` | code/filesys/openfile.cc:81-87 | Splices at the seek position and advances it by the count |
| `OpenFile.OtherFilesKeepTheirBytes` | code/filesys/openfile.cc:284-289 | A file on other sectors keeps its contents |
| `FileSystem.FormatOk` | code/filesys/filesys.cc:83-126 | A formatted disk: the two system files own their headers and data and exactly those sectors are marked |
| `FileSystem.CreateKeeps` | code/filesys/filesys.cc:175-215 | Create keeps all headers and data pairwise disjoint and equal to the marked bits |
| `FileSystem.RemoveKeeps` | code/filesys/filesys.cc:258-288 | Remove keeps them so |
| `FileSystem.EveryRunKeepsSectorsApart` | code/filesys/filesys.cc:83-288 | So does every run of Creates and Removes from a formatted disk |
| `FileSystem.FormatLays` | code/filesys/filesys.cc:83-126 | A formatted disk, sector by sector: headers on 0 and 1, the map on 2, the directory on 3 and 4, ten free entries |
| `FileSystem.FindIndexIs` | code/filesys/directory.cc:91-98 | The search finds the first entry in use that agrees with the name in nine characters, if there is one |
| `FileSystem.CreateSucceedsExactlyWhen` | code/filesys/filesys.cc:175-215 | Create succeeds exactly when no name in use agrees in nine characters, an entry is free, and 1 + n of the 1024 sectors are free, 128(n-1) < size <= 128n; a failed Create changes nothing |
| `FileSystem.CreateAddsOneName` | code/filesys/directory.cc:130-145 | After Create exactly the names that agree in nine characters stand for the new file, on n sectors that were free, 128(n-1) < size <= 128n; every other name stands for what it did |
| `FileSystem.RemoveDropsOneName` | code/filesys/directory.cc:207-217 | Remove succeeds exactly when the name is known; then the names that agree in nine characters stand for nothing and every other stands for what it did |
| `FileSystem.CreateThenRemoveRestores` | code/filesys/filesys.cc:258-288 | Create then Remove restores the free map and what every name stands for |
| `FileSystem.FilesAreApart` | code/filesys/filehdr.cc:42-76 | Files with different names have sound block maps on different sectors |
| `FileSystem.AllocatedOneByOne` | code/filesys/filehdr.cc:86-87 | The sectors of a header are what successive Finds return |
| `FileSystemCode.FileHeader.Allocate` | code/filesys/filehdr.cc:78-90 | Takes the least free sectors, just enough blocks of 128 bytes, or none when there are too few |
| `FileSystemCode.FileHeader.Deallocate` | code/filesys/filehdr.cc:101-128 | Frees exactly the file sectors; the assertion that each is marked never fails |
| `FileSystemCode.Directory.FindIndex` | code/filesys/directory.cc:91-98 | The search loop: -1 exactly when no entry in use agrees with the name in nine characters |
| `FileSystemCode.Directory.Find` | code/filesys/directory.cc:109-117 | The header sector of the name, or -1 |
| `FileSystemCode.Directory.Add` | code/filesys/directory.cc:130-145 | Fills the first free entry unless the name is there or the table is full |
| `FileSystemCode.Directory.Remove` | code/filesys/directory.cc:207-217 | Frees the entry of the name |
| `FileSystemCode.FileSystem.Format` | code/filesys/filesys.cc:83-126 | The imperative format yields the formatted disk of the model |
| `FileSystemCode.FileSystem.Create` | code/filesys/filesys.cc:175-215 | The imperative Create equals the model |
| `FileSystemCode.FileSystem.Remove` | code/filesys/filesys.cc:258-288 | The imperative Remove equals the model |
| `DiskLatency.LatencyIsPositive` | code/machine/disk.cc:232-252 | The latency is at least 500, so the assertion of Schedule holds, and 500 from the buffer |
| `DiskLatency.SeekIsDistance` | code/machine/disk.cc:179-195 | The seek is 0 exactly on the same track of 32 sectors, 500 to the next track, the same both ways, and adds up over a track in between |
| `DiskLatency.HeadFollowsRequests` | code/machine/disk.cc:261-270 | After a request the head is over its track: exactly the requests on it do not seek, and the buffer restarts exactly when the track changed |
| `DiskLatency.OnlyReadsHit` | code/machine/disk.cc:239-246 | Only a read on the track under the head can be served from the buffer |
| `DiskLatency.TransferStartsUnderTheHead` | code/machine/disk.cc:179-252 | Without the buffer the transfer starts at the first moment after the seek at which the target sector, one of 32 that pass for 500 ticks each, reaches the head |
| `DiskLatency.EveryRunKeepsBufferOnBoundary` | code/machine/disk.cc:261-270 | Over every run the buffer start is a multiple of the rotation time: the first boundary after the head reached the track |
| `DiskLatency.HitExactlyWhen` | code/machine/disk.cc:239-246 | A read on the current track is a buffer hit exactly when the target slot has passed wholly by the end of the current slot |
| `DiskLatency.HitIsEarlyExactlyWhen` | code/machine/disk.cc:239-246 | As of the request itself that is too early exactly when the request falls inside the first pass of the target |
| `DiskLatency.EarlyHitExists` | code/machine/disk.cc:239-246 | Such a request exists |
| `DiskLatency.CompletesAfterThePass` | code/machine/disk.cc:232-252 | When any request completes, the whole slot of its sector has passed under the head since it reached the track |
| `DiskLatency.DiskDevice.TimeToSeek` | code/machine/disk.cc:179-195 | The computation equals the model |
| `DiskLatency.DiskDevice.ComputeLatency` | code/machine/disk.cc:232-252 | The computation equals the model |
| `DiskLatency.DiskDevice.RequestAt` | code/machine/disk.cc:115-152 | The ticks scheduled and the new head position equal the model |
| `Wire.WireRoundTrip` | code/machine/network.cc:103-126 | A message framed by the post office and the network is read back unchanged, whatever the padding |
| `Wire.WireLayout` | code/machine/network.h:31-41 | The 64 bytes of a packet: six words of four bytes, lowest first, at fixed places, then the data |
| `Inlet.OutsideKeeps` | code/network/post.cc:326-329 | Whatever else the kernel does, the semaphore value plus the worker past P is one exactly when a packet is buffered |
| `Inlet.WorkerFindsPacket` | code/network/post.cc:228-231 | On the kernel: the worker past P finds a packet, and the semaphore holds no unit besides |
| `Inlet.SleeperHasNoPacket` | code/network/post.cc:228-231 | While the worker sleeps in P no packet is buffered |
| `Office.StepKeeps` | code/network/post.cc:221-345 | Every step of senders, worker, interrupts, mailbox readers and unrelated threads on one kernel keeps locks, semaphores, mailboxes and the line of messages in order |
| `Office.PollIsLegal` | code/machine/network.cc:60-87 | The poll never meets a header for another machine or a packet that is too long |
| `Office.PutIsLegal` | code/network/post.cc:228-244 | The worker never meets a box or a length that its assertions refuse |
| `PostOffice.StepKeeps` | code/network/post.cc:221-345 | Every step of every machine, over a network that may lose packets, keeps the invariant of all machines |
| `PostOffice.NoneOutstandingWhenSending` | code/machine/network.cc:103-111 | At every call of Network::Send no send interrupt is outstanding, and the assertions of both Sends hold |
| `PostOffice.FlagDoesNotTrack` | code/machine/network.cc:103-126 | sendBusy, which nothing sets, is false also right after a send, with the interrupt outstanding |
| `PostOffice.OutstandingWithoutFlag` | code/machine/network.cc:90-126 | Such a state is reached: any machine whose send lock is free and any message give a run to it |
| `PostOffice.ArrivalsAreLegal` | code/network/post.cc:228-244 | In every reachable state the assertions of the poll and of the worker hold and the worker past P finds a packet |
| `PostOffice.StartIsOk` | code/network/post.cc:176-198 | Any number of machines start out in order |
| `PostOffice.NothingIsLostInside` | code/network/post.cc:221-323 | Everything the network did not lose is taken, in its box, in hand, in the inbox or in the socket, in this order, once |
| `PostOffice.MailArrivesInOrder` | code/network/post.cc:99-139 | In every run of the kernels of all machines what a mailbox yields from a sender is an in-order, unduplicated, uncorrupted subsequence of what was sent to it |
| `Delivery.SendPutsOnWire` | code/machine/network.cc:103-126 | A packet that is not lost is last in the socket of the machine it is sent to and in no other |
| `Delivery.PollFills` | code/machine/network.cc:60-87 | The poll moves the first packet into an empty inbox, raises the semaphore to one and readies a sleeping worker; otherwise it does nothing |
| `Delivery.WorkerTurn` | code/network/post.cc:221-245 | One turn of the worker with a packet there and its mailbox free: every step is possible, the inbox is empty, the message is last in its mailbox only, and the worker is back at P |
| `PostCode.Network.Send` | code/machine/network.cc:103-126 | A packet that is not lost is header, data, padding; one more interrupt is outstanding and sendBusy stays as it was |
| `PostCode.Network.SendDone` | code/machine/network.cc:90-96 | One interrupt less is outstanding and sendBusy is false |
| `PostCode.Network.CheckPktAvail` | code/machine/network.cc:60-87 | Fills the inbox slot from the next wire exactly when it is empty |
| `PostCode.Network.Receive` | code/machine/network.cc:129-139 | Empties the slot and copies the packet out |
| `PostCode.PostOffice.Send` | code/network/post.cc:262-291 | The bytes sent, unless lost, are the framing of the message with this machine as sender; sendBusy stays as it was |
| `PostCode.PostOffice.DeliverOne` | code/network/post.cc:228-244 | One turn of the worker moves the buffered message to the end of its box |
| `Paging.ServiceKeeps` | code/vm/VMManager.cc:215-251 | Page fault service makes the page valid, preserves every virtual page, and keeps resident pages, list nodes and allocated frames one to one |
| `Paging.FullHasVictim` | code/vm/VMManager.cc:228-233 | When no frame is free the replacement list has a victim |
| `Paging.ServiceReplacesOldest` | code/vm/VMManager.cc:215-251 | Service takes the least free frame and nobody leaves, or the page longest in memory leaves and the new page takes its frame |
| `Paging.TouchIsFlat` | code/vm/VMManager.cc:215-251 | Any load or store at any address, with the fault it may take, answers and leaves what one flat memory with read-only pages would |
| `Paging.PagingIsInvisible` | code/vm/VMManager.cc:215-251 | Every run of loads and stores, refused ones included, gets the answers and leaves the memory that a flat memory would |
| `Paging.LoadedProcessIsOk` | code/vm/SwapManager.cc:27-63 | After adding all pages of a process, paging is sound and every page holds what it was loaded with |
| `PagingCode.Lru.AddPage` | code/vm/VMManager.cc:23-30 | On the doubly linked list: the page goes to the head |
| `PagingCode.Lru.ReplaceHead` | code/vm/VMManager.cc:127-169 | The walk ends and a node that is not yet in the list becomes the head with both links right |
| `PagingCode.Lru.RemoveLruPage` | code/vm/VMManager.cc:77-83 | On the doubly linked list: the tail is dropped |
| `PagingCode.SwapManager.FindPage` | code/vm/SwapManager.cc:117-143 | Returns the swap copy of the page |
| `PagingCode.SwapManager.WritePage` | code/vm/SwapManager.cc:82-98 | Overwrites the swap copy of the page, looking only at slots in use |
| `PagingCode.SwapManager.AddPage` | code/vm/SwapManager.cc:27-63 | Overwrites the page or takes the least free slot; fails exactly when the page is new and the swap file is full, where the source stops the simulator |
| `PagingCode.VmManager.Swap` | code/vm/VMManager.cc:215-251 | The imperative service over list, bitmap, memory and swap file equals the model |
| `PagedMips.AttemptSimulates` | code/machine/mipssim.cc:93-565 | Under paging an attempt at an instruction either faults on an absent page it touches, changing only use bits and the pending load, or ends as with one flat memory |
| `PagedMips.TwoFaultsSuffice` | code/userprog/exception.cc:527-553 | An instruction that can be restarted takes at most two page faults |
| `PagedMips.InstructionIsFlat` | code/userprog/exception.cc:550-553 | With the faults it takes, it ends with the registers, memory and exception of a machine with the whole process in memory |
| `PagedMips.ProgramsSeeOneMemory` | code/userprog/exception.cc:527-553 | Every program of restartable instructions, after any number of them, has the registers and memory, or the exception, it would have with all its pages in memory, however few frames there are |

## Left out

- Indirect blocks, ExtendFile, and WriteAt beyond the end of a file: files have the thirty direct sectors of the build
  without FILESYS, and the early return of WriteAt is the one of that build.
- ExpandTable: a full directory makes Add fail, as in the build without FILESYS.
- FileSystem.Create: the directory, the free map and the headers are typed records on the disk; their byte layout
  inside sectors is not modelled.
- FileSystemCode.FileHeader.Allocate: demands that the file fit the thirty direct sectors, because the source does not check.
- FileSystemCode.FileSystem.Create: demands the same.
- OpenFile.OpenFile.WriteAt: demands a position that is not negative, because the source does not check.
- Several processes in paging: a dirty victim is written back under the faulting process, so the model has one
  process, and LRU::RemovePage is not modelled.
- PagingCode.SwapManager.AddPage: the swap file is a sequence of pages, not a file of the file system. When it is full
  the source stops the whole simulator with Exit(1); the model answers false and changes nothing. On storing a new page
  the source falls off the end without a value; the model answers true.
- PagingCode.Lru.ReplaceHead: a node already in the list is left out. The source would leave a stale back link, and a
  stale tail if the node was last, but its one caller passes a new node. The list's lock, which the early returns leave
  taken, is not modelled.
- PostOffice.MailArrivesInOrder: all machines have the same number of mailboxes and sockets keep order. The assertion
  that a machine's address names a socket is not modelled; messages go to machines that exist.
- PostCode.PostOffice.Send: the test of sendBusy is a precondition, which holds in every run because nothing sets it.
- Unaligned LWL, LWR, SWL and SWR: the simulator asserts them away.
- Mips.DivisionLaw: the one quotient that is no word, the most negative word by -1, wraps; C leaves it undefined.
- Mips.ReadHazard: states for ADDU, and beside it for plain loads and stores, exactly when a read of the pending register
  shows; for other opcodes that depends on what they compute.
- PagedMips.ProgramsSeeOneMemory: a program runs up to its first exception that is not a page fault; interrupts between
  instructions are those of Mips.InterruptsAreTransparent.
- Memory.UserMemory.Read: a byte load is that of a host whose char is signed.
- Interrupt.EveryRunIsOrderly: the random delays of the timer and the devices are part of the script.
- InterruptOrder.InOrderExactlyOnFullTurns: nothing is scheduled for the same time while the interrupts wait.
- System calls, processes, the console, the timer device, the debugger, statistics output, SWITCH, user programs and
  the tools under code/bin: glue or host input and output, which would only add easy members.
