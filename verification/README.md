# Mechanisms of the hardware runtime, modelled and proved in Dafny

The runtime replaces several simple things by fast or distributed ones that must
behave the same. Each module here models one such mechanism as the code has it and
proves that it does.

* **The link ring.** `LinkNode` is one cabinet as small atomic steps on values,
  `LinkRing` the ring they form: N cabinets (cabinet 0 the master, the others slaves
  and relays in any order) joined by first-in first-out wires, any cabinet taking a
  step at any time. `RingNumbering`, `RingData` and `RingVsync` prove what every run
  keeps; `RingStart` and `RingRace` that something happens: the ring can come up, and
  the race data can go round, from every state in which no cabinet has lost the link.
  `RingStatus` is what the game reads of the link. `CommBoard` is the class with the
  fields, the shared RAM and the receive loops; every method is tied to the small steps by a log. `BoardInRing` shows that the
  logs of all boards, their steps taken in any order in which a message is sent before
  it is taken, are a run of the ring (a board may be anywhere in a tick, waiting for a
  vsync too, while others go on), and that boards that have been initialised start such
  a run. `TcpLink` is the sending half of the cable with its compacting buffer, and whole
  runs of both ends of a cable.
* **The i960 context.** `PlainStack` is a processor whose saved frames are an
  unbounded stack of sixteen-word frames. `I960Cpu` is the class with the four-entry
  frame cache, spills, `flushreg`, the copy path into work RAM, interrupt entry and
  return, and the pending table in memory; its `View` is the plain machine, and each
  method is an operation of that machine. `PendingTable` is the table of levels and
  vectors by itself. `I960Machine` puts them together as one machine with its interrupt
  lines, immediate slot and table; `I960Run` runs the class beside it, over any
  sequence of calls, returns, stores, interrupt lines and looks for interrupts;
  `I960Stacks` is the discipline a program's stacks need, and that it is enough.
  `I960Calls` has the runs that need no interrupt setup.
* **The recompiler's front end.** `Decode` and `Executor` are the decoder and the
  reference executor's way through an instruction; `Reach` says what reachability
  is, `I960Reach` and `M68kReach` are the two worklists.
* **The renderer.** `PolygonOrder` (radix sort), `FlatIndex` (hash table),
  `TileRuns` and `TileUpload` (tile textures), `DepthPainter` (why the depth buffer
  gives the painter's picture) and `QuadBatches` (indexed quads).
* **Concurrency.** `CommandQueue` (the lock-free audio queue) and `SoundWorker` (the
  two threads and their mutex) are state machines over the steps of two threads.
* `Words` holds 32-bit words as numbers and their bits.

## What turned out not to hold everywhere

* **Reachability follows the executor** (`src/i960/reach.cpp:9-43`). From a found
  instruction that goes somewhere directly the executor goes to what was found, with two
  exceptions.
  * *faultno* (`src/i960/isa.cpp:30`, `src/refcore/i960_ref.cpp:468-473`): the executor
    takes it as a branch when the condition code is clear; the decoder gives it no
    target. A taken transfer has its target noted if and only if it is not a `faultno`
    about to branch (`I960Reach.TakenHasTarget`); `I960Reach.FaultnoEscapes` is a
    program that leaves what was found.
  * *Low bits of a displacement* (`src/refcore/i960_ref.cpp:406-431`, `553-562`,
    `612-621`): `b`, `call`, `bal`, `bno`, `bbc` and `bbs` leave a displacement's two
    low bits in IP. A fetch ignores them (`src/runtime/m2_board.cpp:435-447`), so the
    next instruction is still the found one, but a second such branch may carry them into
    bit 2. IP at a word stays at a word if and only if the branch's displacement has no
    low bits, it is not taken, or it is one that masks IP (`I960Reach.StaysAligned`);
    with low bits in IP the executor goes where reachability does if and only if they do
    not carry (`I960Reach.CarriesIff`); `I960Reach.LowBitsEscape` is a program of two
    branches that leaves what was found.

  `I960Reach.Follow` is the run under exactly these two conditions, checked at each
  step; `I960Reach.FollowWords` the run in programs without low bits.
* **Frame pointers** (`src/runtime/cpu.cpp:304`). A return restores FP with its low
  six bits cleared, so after a call, any balanced body and the return FP is the
  caller's if and only if that was a multiple of 64: `PlainStack.FramePointerBack`;
  `PlainStack.FramePointerLost` is a machine that loses it.
* **The first tick of a cabinet** (`src/runtime/comm_board.cpp:50-61`). The init command
  ticks before the game has written the cabinet's role, so that tick runs as a slave's.
  It is a relay's tick as well if it reads no number and no count
  (`BoardInRing.FirstTick`), and on each message it does what a relay does if and only
  if the message carries neither (`BoardInRing.SlaveOrRelay`).

## Assumptions

* Ring: each cabinet is initialised once, a cabinet's role does not change, the frame
  geometry is the one written at initialisation, and at most 0xfb cabinets are
  numbered. What the boards promise of their logs ends when a line breaks
  (`Transport.cut`).
* i960: saved frames lie in distinct 64-byte lines; the program does not write into
  them or into interrupt records, and keeps r0 (PFP) of a frame. The pending table
  is nine aligned words apart from those lines and from the pointers to it. In runs with
  interrupts (`I960Machine.Behaves`) the table is well formed at the start, its pointers
  and the handlers' addresses stay in memory, and an entry's two lines hold no saved frame.
  The last is a theorem for a program that keeps FP and the interrupted bit of PC while
  it runs on a stack, keeps SP above its frame and inside its stack, and has room left
  there for the next frame (`I960Stacks.Disciplined`).
* Renderer: polygon windows and depths have the widths of their types (8 and 16 bits,
  `src/runtime/geo.h:39-45`); a frame's list has fewer than 32768 polygons, as the
  geometrizer sees to (`src/runtime/geo.cpp:510-513`); inserted keys are new, as
  `FlatIndex` asks; polygons have at least three vertices; textures are 512 lines high and apart.

## Model

| member | source | states |
|---|---|---|
| LinkNode.StoreShifts | src/runtime/comm_board.cpp:198-202 | storing a received frame and sending on makes block i+1 of a window what block i of the sender's frame was, and leaves block 0 alone |
| LinkNode.SendCopies | src/runtime/comm_board.cpp:304-308 | block i of a data frame is block i of the sender's window |
| LinkNode.StatusKeepsWindow | src/runtime/comm_board.cpp:149-152 | status bytes never touch the window |
| LinkNode.GameWritesBlockZero | src/runtime/comm_board.h:15-20 | the game's own write changes block 0 of the window and no other |
| RingNumbering.InvStep | src/runtime/comm_board.cpp:95-187 | one step of any cabinet keeps the ring invariant, with any number of 0xFF tokens under way |
| RingNumbering.ReachableInv | src/runtime/comm_board.cpp:95-187 | the invariant holds after every run, whatever the interleaving |
| RingNumbering.NumbersAreRight | src/runtime/comm_board.cpp:127-153 | a cabinet that is up already has its final number and the final count |
| RingNumbering.FinalIdsDistinct | src/runtime/comm_board.cpp:127-136 | the slaves' final numbers fall strictly along the ring, down to 2 |
| RingNumbering.NumberingCorrect | src/runtime/comm_board.cpp:95-187 | once all are up the master holds 1, the k slaves hold exactly 2 to k+1 with none repeated, relays hold 0, and all agree on the count |
| RingNumbering.NoRaceBeforeUp | src/runtime/comm_board.cpp:190-213 | no cabinet ever takes a data or vsync message before it is up, nor (the master apart) a numbering token after |
| RingStart.TokenStarts | src/runtime/comm_board.cpp:161-166 | a waiting master at timer 1 puts exactly one message on its wire, with the bytes FF 01 00 first |
| RingStart.ComesUp | src/runtime/comm_board.cpp:95-187 | from every initial ring, of any length and roles, a run leads to one with every cabinet up and nothing under way |
| RingStart.CanComeUp | src/runtime/comm_board.cpp:95-187 | the same from every reachable ring in which no cabinet has lost the link, whatever is under way |
| RingStatus.ShowsItsNumber | src/runtime/comm_board.cpp:149-152 | in every reachable ring a cabinet that is up shows state 1, its final number at byte 2 and the final count at byte 3 |
| RingStatus.TickShows | src/runtime/comm_board.cpp:91-99 | a tick shows a waiting cabinet as 0 with no number and no count, and a lost one as FF |
| RingVsync.VInvStep | src/runtime/comm_board.cpp:204-237 | every step keeps the books of vsync tokens taken, passed on and under way |
| RingVsync.AtMostOneVsync | src/runtime/comm_board.cpp:204-237 | with frame sync on, at most one vsync token is in the whole ring, in every reachable state |
| RingVsync.NextVsyncAfterLastCameBack | src/runtime/comm_board.cpp:214-237 | when the master may tick again, its last token has been passed on by every cabinet and has come back, and no token is on any wire |
| RingVsync.CabinetsInStep | src/runtime/comm_board.cpp:214-237 | with frame sync on, in every state of every run, no cabinet has ticked more than once oftener than the master, nor the master more than once oftener than any cabinet has passed a vsync on |
| RingData.DataInvStep | src/runtime/comm_board.cpp:189-235 | every step keeps every block of every window and message what block 0 of the right cabinet was at a recorded moment of the run, the moments in order along every wire, and moves no window's moment back |
| RingData.ShiftRegister | src/runtime/comm_board.cpp:189-235 | in every state of every run block j of a numbered cabinet is what block 0 of the numbered cabinet j hops before was at some moment of the run, relays not counted, and block 0 is its own now |
| RingData.NeverBack | src/runtime/comm_board.cpp:189-235 | as the run goes on no block of a window ever comes from an earlier moment than before |
| RingRace.PassesOn | src/runtime/comm_board.cpp:195-203 | on a data message of a link that is up: its payload is blocks 1 to 8 of the window and block 0 stays; a slave sends one message, its number and blocks 0 to 7 as they are then, a relay the message as it came, the master nothing |
| RingRace.RaceBooks | src/runtime/comm_board.cpp:189-235 | over any run the messages taken from a wire and on it are those that were on it and were sent, in order; a slave has sent as many data messages as it has taken, a relay the very same |
| RingRace.GoesRoundAgain | src/runtime/comm_board.cpp:189-235 | every run in which no cabinet has lost the link can be gone on with so that every block of every numbered cabinet's window comes from a moment after its end, with no message under way and no cabinet waiting for a vsync |
| CommBoard.Transport.Read | src/runtime/comm_board.cpp:291-297 | a read moves bytes from the line to the reader in order, or breaks the line |
| CommBoard.CommBoard.ReadFrame | src/runtime/comm_board.cpp:282-302 | a frame comes whole or not at all; what has come is kept, nothing is lost or repeated, and without a frame the line has nothing more |
| CommBoard.CommBoard.SendFrame | src/runtime/comm_board.cpp:310-319 | all the frame's bytes are sent in order, or the line breaks |
| CommBoard.CommBoard.SendData | src/runtime/comm_board.cpp:304-308 | what goes out is the cabinet's number and its first eight blocks |
| CommBoard.CommBoard.StoreWindow | src/runtime/comm_board.cpp:200-200 | the loop's effect on shared RAM, and on nothing outside the window's blocks 1 to 8 |
| CommBoard.CommBoard.TakeLinkId | src/runtime/comm_board.cpp:111-125 | the 0xFF branch is the node's step for master, slave and relay, bytes sent included |
| CommBoard.CommBoard.TakeLinkSize | src/runtime/comm_board.cpp:127-153 | the 0xFE branch is the node's step for each role |
| CommBoard.CommBoard.TakeUp | src/runtime/comm_board.cpp:195-209 | the message branch of a link that is up is the node's step for each role, which `RingRace.PassesOn` gives in numbers |
| CommBoard.CommBoard.MasterTail | src/runtime/comm_board.cpp:159-185 | the master's turn while waiting is the node's step: token (`RingStart.TokenStarts`), count, or countdown |
| CommBoard.CommBoard.UpTail | src/runtime/comm_board.cpp:223-234 | the end of a tick is the node's step: data and vsync from the master, the vsync wait for all |
| CommBoard.CommBoard.Establish | src/runtime/comm_board.cpp:101-186 | a waiting link's tick: messages until none is left or the link is up, then the master's turn exactly when it is still waiting |
| CommBoard.CommBoard.Exchange | src/runtime/comm_board.cpp:191-221 | the receive loop takes messages until none is left and no vsync is due, or declares the link lost |
| CommBoard.CommBoard.CommTick | src/runtime/comm_board.cpp:76-238 | until a line breaks a tick adds to the log exactly the steps a tick has, in their order, keeps the account of state and bytes, and leaves nothing unread |
| CommBoard.CommBoard.ReadFg | src/runtime/comm_board.cpp:240-277 | a poll counts down the delay, and past it takes messages as a tick does, without the cabinet's turn |
| CommBoard.CommBoard.WriteRace | src/runtime/comm_board.h:15-20 | the block the game leaves for send_data is a step of the log and keeps the account |
| CommBoard.CommBoard.InitCommand | src/runtime/comm_board.cpp:38-61 | initialisation leaves the node's first state and takes one whole tick from it |
| CommBoard.AccountStep | src/runtime/comm_board.cpp:282-319 | one more step keeps the account: state, bytes sent, and bytes read as messages and a remainder |
| BoardInRing.LastStep | src/runtime/comm_board.cpp:76-238 | the last step of a board's log is enabled in the ring and has the same effect there |
| BoardInRing.LogIsRun | src/runtime/comm_board.cpp:76-277 | a legal log of one board whose messages are on its wire is a run of the ring that takes from its incoming wire and adds to its outgoing wire what the log says |
| BoardInRing.LogsAreRun | src/runtime/comm_board.cpp:76-277 | the logs of all boards, cut and interleaved in any way in which a message is sent before it is taken, are a run of the ring that leaves every board and every wire as the logs say |
| BoardInRing.BoardsAreReachable | src/runtime/comm_board.cpp:38-61 | from boards that have been initialised every such schedule leads to a reachable ring |
| BoardInRing.BoardsNumbered | src/runtime/comm_board.cpp:95-187 | once all boards are up their ids and counts are the right ones and distinct |
| BoardInRing.SlaveOrRelay | src/runtime/comm_board.cpp:111-153 | a waiting slave and a waiting relay do the same with a message if and only if it carries no number and no count |
| BoardInRing.FirstTick | src/runtime/comm_board.cpp:50-61 | the tick inside the init command, run as a slave's, is one of a relay too if it reads no number and no count |
| TcpLink.TcpLink.Flush | platform/vita/link.h:152-164 | what is accepted stays the bytes on the wire, then the bytes held; it stops early only if told to wait, and closes only with cause |
| TcpLink.TcpLink.Compact | platform/vita/link.h:113-114 | compaction keeps the held bytes, overlapping or not |
| TcpLink.TcpLink.Write | platform/vita/link.h:107-120 | all bytes are accepted in order or the line is closed, and it is closed only if it already was, for want of room, or because of the socket |
| TcpLink.TcpLink.Disconnect | platform/vita/link.h:147-151 | a closed line holds nothing |
| TcpLink.CutAtFrames | src/runtime/comm_board.cpp:290-300 | a prefix of frames laid end to end, cut at data_size, gives a prefix of those frames |
| TcpLink.FramesCross | platform/vita/link.h:107-164 | what the two ends' books say together: delivered frames and the bytes in between are the accepted frames end to end |
| TcpLink.Across | platform/vita/link.h:107-164 | over any run of frames written, polls, deliveries of any size and reads, frames got are a prefix of those accepted; while the line holds, got, arrived, under way and held bytes are all that was accepted, in order |
| TcpLink.CutLineDeliversPrefix | platform/vita/link.h:147-151 | after a broken line only whole accepted frames have been delivered, in order |
| PlainStack.FloorKept | src/runtime/cpu.cpp:248-338 | a run that never returns below a depth leaves every frame below it as it was |
| PlainStack.PushFacts | src/runtime/cpu.cpp:248-298 | a call goes to its address: r2 is the way back, PFP the old frame with the call's type, FP the first multiple of 64 from the stack pointer on; every other register is kept, r3 to r15 and the globals but FP |
| PlainStack.ReturnRestores | src/runtime/cpu.cpp:248-338 | after a call and any balanced body that keeps its frame, the return restores the sixteen locals, FP and IP, and keeps the globals |
| PlainStack.FramePointerBack | src/runtime/cpu.cpp:300-304 | after a call, a balanced body that keeps its frame, and the return, FP is the caller's if and only if that was a multiple of 64 |
| PlainStack.FramePointerLost | src/runtime/cpu.cpp:300-304 | a machine whose FP is not a multiple of 64 loses it over a call that returns at once |
| PlainStack.InterruptTransparent | src/runtime/cpu.cpp:133-166 | on the plain machine, after an interrupt and any balanced handler the type-7 return restores PC, AC, IP, FP and the locals, r2 holding the resume address |
| PlainStack.EnterFacts | src/runtime/cpu.cpp:133-166 | an interrupt goes to its handler at its level's priority, in a frame above the padding line |
| PlainStack.HandlerPcFacts | src/runtime/cpu.cpp:163-165 | the handler runs at the interrupt's priority, supervisor and interrupted; all other PC bits but the two trace bits are kept |
| PendingTable.PostCorrect | src/runtime/cpu.cpp:426-436 | posting keeps "level set iff one of its vectors is", and makes exactly that vector pending |
| PendingTable.RemoveCorrect | src/runtime/cpu.cpp:204-222 | delivery keeps the table well formed and removes exactly that vector |
| PendingTable.ScanCorrect | src/runtime/cpu.cpp:180-233 | on a well-formed table the recovery branch is never taken; the vector taken is the highest the priority allows, its level above the priority or 31; if none is taken every pending vector's level is at most the priority and not 31 |
| PendingTable.FindVector | src/runtime/cpu.cpp:201-210 | the inner loop finds the highest set bit of the level's byte, or that there is none |
| PendingTable.HighestInLevel | src/runtime/cpu.cpp:192-224 | that bit is the level's highest pending vector |
| I960Cpu.Cpu.CopyFrame | src/runtime/cpu.cpp:266-268 | the one copy into work RAM leaves memory as sixteen bus writes do |
| I960Cpu.Cpu.LoadFrame | src/runtime/cpu.cpp:314-320 | the locals read back are the sixteen words at FP, by either path |
| I960Cpu.Cpu.SaveFrame | src/runtime/cpu.cpp:263-285 | cached or spilled, the frame is on the plain stack afterwards |
| I960Cpu.Cpu.DoCall | src/runtime/cpu.cpp:248-298 | a call is the plain machine's push; IP is its address, r2 the old IP, PFP the old frame and the type, the registers r3 to r15 and r16 to r30 as they were; no memory outside the current frame's line is written |
| I960Cpu.Cpu.DoRet0 | src/runtime/cpu.cpp:300-338 | a return is the plain machine's pop, whether the frame was cached, spilled or flushed; with no frame saved it reads memory at PFP |
| I960Cpu.Cpu.FlushReg | src/refcore/i960_ref.cpp:1224-1239 | flushreg changes nothing the program can see, and no memory outside saved frames |
| I960Calls.RunProgram | src/runtime/cpu.cpp:248-338 | over any run of calls, returns, flushes, stores and other instructions the cached machine is the plain one |
| I960Cpu.Cpu.TakeInterrupt | src/runtime/cpu.cpp:133-166 | interrupt entry is the plain machine's; it goes to the word memory held at table + 36 + 4 * (vector - 8), in a frame above a padding line on the interrupted stack if PC has bit 13 and on the one at PRCB + 24 if not, and leaves PC, AC and the vector's number in the record below FP; it writes only the frame's line and the record's |
| I960Cpu.Cpu.ReturnFromInterrupt | src/runtime/cpu.cpp:354-360 | PC and AC become the words in memory below FP, read before the frame is popped |
| I960Cpu.Cpu.ResumedIsLeave | src/runtime/cpu.cpp:354-360 | at the handler's own frame those words are the interrupted code's PC and AC, whatever has been spilled since |
| I960Cpu.Cpu.CheckPendingIrqs | src/runtime/cpu.cpp:180-233 | the scan's outcome, the table in memory afterwards, and the interrupt entered are those of the specification; the priority after an entry is the vector's level, which is above the one before or is 31, and if none is entered no pending level is; nothing but the table and the entry's lines is written, and the table stays placed |
| I960Cpu.Cpu.ClearPending | src/runtime/cpu.cpp:204-222 | the words written to memory are the table with that vector removed |
| I960Cpu.Cpu.DoRet | src/runtime/cpu.cpp:340-369 | by return type, with a frame saved or none: a pop; a return to the PC and AC in memory and then at most one further delivery, of a level above the resumed priority or 31; or the fatal error with nothing changed |
| I960Cpu.Cpu.CheckImmediateIrqs | src/runtime/cpu.cpp:168-178 | the immediate interrupt is taken exactly when its level is above the priority or 31, which becomes the priority, and then leaves its slot; the pending table stays as it is |
| I960Cpu.Cpu.ExecuteSetInput | src/runtime/cpu.cpp:371-442 | a rising edge with a nonzero vector ends in the free immediate slot if its level is above the priority or 31, and in the table otherwise; nothing else changes either |
| I960Cpu.Cpu.PostPending | src/runtime/cpu.cpp:426-436 | the words in memory are the table with the vector posted: its level's bit and its own are set |
| I960Cpu.IcrBytes | src/runtime/cpu.cpp:388-405 | the four lines' vectors are the four bytes of ICR |
| I960Machine.OpenedAt | src/runtime/cpu.cpp:133-298 | in any state an act that opens a frame goes to the call's address, or the handler of the vector let in, whose level is above the priority or 31 and becomes it |
| I960Machine.RisingRun | src/runtime/cpu.cpp:168-233 | over any run whose code does not lower its own priority, code at a priority below 31 is only interrupted by higher levels, however deep the interrupts nest, and below 31 they nest no deeper than the priority |
| I960Machine.FloorStays | src/runtime/cpu.cpp:133-369 | whatever is called, interrupted or returned from above it, saved frames below a depth stay as they are |
| I960Machine.ReturnUndoes | src/runtime/cpu.cpp:133-369 | a call, or an interrupt from either queue, then any run inside it with interrupts nested to any depth: its return gives back locals, IP, frame and stack, and after an interrupt PC and AC |
| I960Stacks.EntryPlace | src/runtime/cpu.cpp:142-155 | a nested entry puts its record and its frame above the interrupted stack pointer, a first one at the bottom of the interrupt stack |
| I960Stacks.EntryHasRoom | src/runtime/cpu.cpp:142-161 | an entry into a disciplined program, nested or not, overwrites no saved frame, no record and nothing of the interrupt setup |
| I960Stacks.LeaveFits | src/runtime/cpu.cpp:354-363 | the code a type-7 return comes back to has room for the entry that may follow at once |
| I960Stacks.DisciplinedStep | src/runtime/cpu.cpp:133-369 | calls, returns and entries of a disciplined program find the room they need and keep its stacks in order |
| I960Stacks.DisciplinedRun | src/runtime/cpu.cpp:133-369 | over any run of it, entries nested to any depth included, no spill or entry touches a saved frame or a record |
| I960Stacks.DisciplinedInside | src/runtime/cpu.cpp:133-369 | a disciplined run inside a call or interrupt is one its return undoes |
| I960Stacks.NestedExists | src/runtime/cpu.cpp:142-155 | the discipline can be met: a handler on the interrupt stack with room for the interrupt that waits and is let in |
| I960Run.RunMachine | src/runtime/cpu.cpp:133-442 | over any run of calls, returns, flushes, stores, interrupt lines, checks of the slot and of the table, the class is the machine, its table in memory stays well formed, and the repair of a level without a vector never happens |
| I960Run.RoundTrip | src/runtime/cpu.cpp:133-369 | on the class, over a call or an interrupt, any run inside it and its return: locals, IP, frame and stack are back, and after an interrupt PC and AC from memory, up to the return's own next delivery |
| I960Run.RunDisciplined | src/runtime/cpu.cpp:133-442 | the same for any run of a disciplined program, with no assumption on what entries overwrite |
| I960Run.RoundTripDisciplined | src/runtime/cpu.cpp:133-369 | the round trip of a disciplined program's call or interrupt |
| Decode.Sext24Agrees | src/i960/decode.cpp:9-13 | (v ^ m) - m over 24 bits is the executor's arithmetic shift |
| Decode.Sext13Agrees | src/i960/decode.cpp:9-13 | the same over 13 bits |
| Decode.SextIs | src/i960/decode.cpp:9-13 | the extensions are the signed numbers of 24 and 13 bits that the fields hold |
| Decode.FieldsOf | src/i960/decode.cpp:62-96 | where a word holds its three register numbers |
| Decode.ScaledIs | src/refcore/i960_ref.cpp:93-130 | a scaled index is the register times two to the scale in 32 bits, for all eight scales |
| Decode.BranchesByName | src/refcore/i960_ref.cpp:510-669 | the twelve compare-and-branch opcodes branch on the comparison of their name, unsigned or signed |
| Decode.ConditionsByName | src/refcore/i960_ref.cpp:426-475 | which condition codes each branch on the condition, and faultno, is taken on |
| Executor.Executor.GetEa | src/refcore/i960_ref.cpp:83-136 | for every word and register file the effective address is the decoded one, IP ends after the decoded length, and it is fatal exactly for the reserved mode |
| Executor.Executor.ExecuteCtrl | src/refcore/i960_ref.cpp:407-508 | CTRL branches and faults end, to the bit, at the decoded target when taken (its low bits kept by b, call, bal and bno, cleared by the others) and after the instruction when not |
| Executor.Executor.ExecuteCobr | src/refcore/i960_ref.cpp:510-669 | COBR compares branch, to the bit of IP, when the comparison their name states holds, signed or unsigned, and leave its condition code |
| Executor.CodeTests | src/refcore/i960_ref.cpp:297-317 | testing the condition code a comparison left against a mask is testing the comparison |
| Executor.AcByName | src/refcore/i960_ref.cpp:510-669 | AC's low three bits after a compare or a bit test are the answer, the others are kept |
| Executor.FaultsByName | src/refcore/i960_ref.cpp:475-508 | a conditional fault is due exactly when the branch of its condition would be taken |
| Executor.FourAhead | src/refcore/i960_ref.cpp:287-295 | IP is four ahead and the displacement four short, so the target is the decoder's |
| Executor.Executor.ExecuteOne | src/refcore/i960_ref.cpp:1904-1912 | an executable CTRL, COBR or MEM instruction ends with exactly the IP its decoded form says, with the decoded address and link, and fails only on a fault that is due |
| Reach.NoteInsn | src/i960/reach.cpp:29-36 | noting an instruction, its target and what follows it keeps the worklist's progress |
| Reach.Finished | src/i960/reach.cpp:14-38 | an empty worklist means the answer is exact |
| Reach.ReachableIsLeast | src/i960/reach.cpp:9-43 | the addresses found are the least set that holds the seeds and is closed under fall-through and direct targets |
| I960Reach.Reach | src/i960/reach.cpp:9-43 | the worklist ends, and instructions, stops, unmapped addresses and indirect sites are exactly the reachable ones of each kind, each instruction the decoding of its address |
| I960Reach.FoundAligned | src/i960/reach.cpp:15-15 | everything found is at a multiple of four |
| I960Reach.GoesByOpcode | src/i960/reach.cpp:24-36 | from a found instruction reachability goes, by opcode, to the next one but for b, ret and bx, and to the target's word where there is one |
| I960Reach.ByOpcode | src/i960/decode.cpp:54-95 | by opcode, which instructions end a path, are indirect sites, have a target and which, and take two words |
| I960Reach.ByFlow | src/i960/reach.cpp:30-36 | a REG instruction has no target; calls goes on and is an indirect site |
| I960Reach.TakenHasTarget | src/i960/decode.cpp:54-73 | an executable transfer that is taken has its target noted if and only if it is not a faultno with the condition code clear |
| I960Reach.GotoFound | src/i960/reach.cpp:31-36 | from what was found, an instruction that goes somewhere directly goes to what was found |
| I960Reach.CarriesIff | src/refcore/i960_ref.cpp:406-431 | with low bits in IP the executor goes to the word the found instruction goes to if and only if they do not carry |
| I960Reach.StaysAligned | src/refcore/i960_ref.cpp:406-431 | IP at a word stays at a word if and only if no branch that keeps low bits is taken with a displacement that has them |
| I960Reach.Follow | src/i960/reach.cpp:9-43 | the reference executor, run from a found word through direct instructions whose low bits do not carry, never leaves what was found |
| I960Reach.FollowWords | src/i960/reach.cpp:9-43 | in a program none of whose branches has low bits, IP stays at words and nothing but the kind of instruction ends that run |
| I960Reach.FaultnoEscapes | src/refcore/i960_ref.cpp:468-473 | a one-word program on which the executor branches to an address reachability never finds |
| I960Reach.LowBitsEscape | src/refcore/i960_ref.cpp:406-409 | a program of two branches on which IP is 9 and then 0x14, whose word reachability never finds |
| M68kReach.Reach | src/m68k/reach.cpp:8-33 | the same exactness for the 68000 and any decoder |
| M68kReach.GoesByKind | src/m68k/reach.cpp:16-26 | from a found instruction reachability goes, by kind, to the next one but for bra, jmp, the returns and undefined words, and to the target of a branch or of a jump or call to a known address |
| M68kReach.UndefinedIsBoth | src/m68k/reach.cpp:19-20 | a stop is exactly a found instruction that is undefined, and nothing follows it |
| PolygonOrder.OrderUnique | platform/vita/polygon_order.h:27-32 | two strictly ordered lists of the same entries are the same list, so any sort of the short path gives it |
| PolygonOrder.DealtOrdered | platform/vita/polygon_order.h:50-52 | a stable pass over a list ordered by lower digits gives a list ordered by one digit more |
| PolygonOrder.DealtPermutes | platform/vita/polygon_order.h:50-52 | a pass loses and repeats nothing |
| PolygonOrder.SingleBucket | platform/vita/polygon_order.h:49-49 | a pass that is skipped would have changed nothing |
| PolygonOrder.BucketSize | platform/vita/polygon_order.h:33-36 | bucket sizes do not depend on the order, so counting once is enough for three passes |
| PolygonOrder.ThreeDigits | platform/vita/polygon_order.h:39-54 | ordered by three digits is the strict order, as keys have 24 bits |
| PolygonOrder.ComparisonSorts | platform/vita/polygon_order.h:27-32 | the comparison sort's list is strictly ordered and a permutation |
| PolygonOrder.CountDigits | platform/vita/polygon_order.h:33-36 | one traversal counts all three digits |
| PolygonOrder.ToOffsets | platform/vita/polygon_order.h:41-48 | the counts become the starts of the buckets, and a single full bucket is noticed |
| PolygonOrder.Scatter | platform/vita/polygon_order.h:50-51 | the loop deals the source into its buckets, stably |
| PolygonOrder.PolygonOrder.Sort | platform/vita/polygon_order.h:19-55 | for any list the result is strictly ordered, a permutation, and the comparison sort's list; said of the polygons, it has each index once, the higher window first, in it the lower depth, and of equals the newer |
| PolygonOrder.InPolygons | platform/vita/polygon_order.h:12-31 | a strictly ordered list of the entries is that order of the polygons |
| FlatIndex.FlatIndex.FreeSlot | platform/vita/flat_index.h:21-21 | the load limit always leaves a free slot, so probing ends |
| FlatIndex.FlatIndex.Find | platform/vita/flat_index.h:25-31 | a lookup is the map's |
| FlatIndex.FlatIndex.Insert | platform/vita/flat_index.h:33-40 | an insert is the map's, and is refused exactly at the limit |
| FlatIndex.FlatIndex.Clear | platform/vita/flat_index.h:41-47 | a clear empties the map, also when the epoch wraps |
| FlatIndex.NotFindable | platform/vita/flat_index.h:28-28 | a probe that meets a free slot before the key will not meet it behind |
| FlatIndex.Replay | platform/vita/flat_index.h:25-47 | over any sequence of fresh inserts, clears and lookups every lookup answers as a map would |
| TileRuns.FastTexels | platform/vita/system24_upload.h:97-134 | the masks of the fast form select the texels the reference's conditions select |
| TileRuns.TexelBytes | platform/vita/system24_upload.h:28-36 | a texel's bytes are twice the palette column, four times the row, 0 and 255, and give the pen back |
| TileRuns.PopCountIs | platform/vita/system24_upload.h:170-170 | popcount counts the set bits |
| TileRuns.RunLength | platform/vita/system24_upload.h:175-177 | the run found is of set bits and cannot be longer |
| TileRuns.CutRuns | platform/vita/system24_upload.h:171-182 | the runs cut from any mask are disjoint, ascending, maximal and cover exactly the set bits |
| TileUpload.UploadTiles | platform/vita/system24_upload.h:42-86 | the reference writes the texels of changed tiles, nothing else, and counts them |
| TileUpload.TexelsShow | platform/vita/system24_upload.h:65-75 | which pen a texel shows and when, by the bits of its flag; the texel to the right shows the next pen, the one below the pen 512 on |
| TileUpload.WhichTexels | platform/vita/system24_upload.h:50-64 | the texels rewritten are those of the 8 by 8 tiles, 64 to a row, changed since the last upload, or all |
| TileUpload.IndexRun | platform/vita/system24_upload.h:101-135 | a run of the fast form writes the reference's texels |
| TileUpload.UploadRuns | platform/vita/system24_upload.h:146-195 | the fast form writes the same texels, nothing else, and returns the same count |
| TileUpload.CountRow | platform/vita/system24_upload.h:170-170 | the bits of a row's mask count its changed tiles |
| TileUpload.BothForms | platform/vita/system24_upload.h:141-145 | from equal textures the two forms leave equal textures and return one count |
| DepthPainter.DepthFacts | platform/vita/gpu_gl.cpp:1329-1336 | depths fall strictly with rank and lie strictly between the layers' |
| DepthPainter.SamePicture | platform/vita/gpu_gl.cpp:91-111 | foreground, then polygons in any order with rank depths, then background without depth writes, gives every pixel the colour of the painter's order, for any fragments and discards |
| DepthPainter.PixelShows | platform/vita/gpu_gl.cpp:99-110 | a pixel shows the last visible fragment of the foreground, else of the first polygon that has one, else of the background, else the cleared colour |
| DepthPainter.BatchesHoldAll | platform/vita/gpu_gl.cpp:442-451 | batches hold the polygons, each once, whatever batch each is put in |
| DepthPainter.BatchedPicture | platform/vita/gpu_gl.cpp:479-480 | the order the batches are drawn in does not change the picture |
| DepthPainter.ListLimit | src/runtime/geo.cpp:510-514 | the geometrizer lets through exactly the lists of fewer than 32768 polygons |
| DepthPainter.FramePicture | platform/vita/gpu_gl.cpp:91-111 | every frame the geometrizer lets through, in whatever batches, is drawn as the painter would |
| QuadBatches.QuadsDrawFan | platform/vita/gpu_gl.cpp:464-477 | the quads of a fan expand to its triangles in order, and one degenerate triangle if it is odd |
| QuadBatches.FanAt | platform/vita/gpu_gl.cpp:464-466 | triangle k of a fan is vertex 0 and the neighbours k + 1 and k + 2 of it |
| QuadBatches.QuadCount | platform/vita/gpu_gl.cpp:491-491 | as many slots are written as were reserved for the polygon |
| QuadBatches.QuadsAreFans | platform/vita/gpu_gl.cpp:479-539 | apart from degenerate triangles, a batch's quads are the fans of its valid polygons |
| QuadBatches.BuildIndices | platform/vita/gpu_gl.cpp:805-812 | the index buffer holds two triangles a quad, and every index fits in 16 bits |
| QuadBatches.IndicesInside | platform/vita/gpu_gl.cpp:569-573 | an indexed draw only reads its own vertices |
| QuadBatches.DrawQuads | platform/vita/gpu_gl.cpp:569-573 | through the index buffer the vertices give the quads' triangles |
| QuadBatches.CmdThroughIndices | platform/vita/gpu_gl.cpp:569-573 | a recorded command drawn through the index buffer draws the triangles it stands for, from its own vertices |
| QuadBatches.Recorder.AppendQuads | platform/vita/gpu_gl.cpp:456-462 | reserved slots start at a multiple of 4 and stay under the index limit, or nothing is reserved |
| QuadBatches.Recorder.WriteFanQuads | platform/vita/gpu_gl.cpp:467-477 | the loop writes the fan's quads and nothing before them |
| QuadBatches.Recorder.WriteQuads | platform/vita/gpu_gl.cpp:496-518 | the valid polygons' quads lie one after the other, within the slots reserved |
| QuadBatches.Recorder.FlushQuads | platform/vita/gpu_gl.cpp:531-535 | the batch's command draws its fans, and unused slots are given back |
| QuadBatches.Recorder.FlushPlain | platform/vita/gpu_gl.cpp:520-535 | the fallback's command draws the same fans unless memory runs out |
| QuadBatches.Recorder.FlushBatches | platform/vita/gpu_gl.cpp:481-539 | all commands added draw the fans of all batches in order, earlier vertices and commands untouched |
| CommandQueue.InvStep | src/app/native_audio.h:77-130 | every step of either thread keeps the queue's invariant |
| CommandQueue.WrapSlot | src/app/native_audio.h:86-86 | an index that wraps at 2^32 stays on its slot |
| CommandQueue.QueueIsFifo | src/app/native_audio.h:77-130 | in every interleaving the bytes delivered are a prefix of the accepted packets end to end, and no unread byte is overwritten |
| CommandQueue.DrainIsComplete | src/app/native_audio.h:121-130 | a drain delivers everything up to the write index it saw before it releases any of it |
| CommandQueue.DrainDeliversAll | src/app/native_audio.h:121-130 | a whole drain with an idle producer delivers every accepted byte and releases it |
| CommandQueue.AllIsDelivered | src/app/native_audio.h:77-130 | from every reachable state the consumer can go on to deliver every byte accepted so far |
| CommandQueue.RefusedIffNoRoom | src/app/native_audio.h:80-85 | a packet is taken whole or refused whole, by the room there was when the read index was looked at |
| CommandQueue.QueuedCount | src/app/native_audio.h:94-95 | whatever the consumer does between the two loads of stats, the count is what was queued at the first, never below the bytes queued now nor above the queue's size |
| CommandQueue.CountedFrom | src/app/native_audio.h:94-95 | no step of the consumer between the two loads changes what the count starts from |
| SoundWorker.InvStep | platform/vita/sound_worker.h:88-226 | every step of owner and worker keeps the handshake's invariant, spurious wake-ups included |
| SoundWorker.OnceEach | platform/vita/sound_worker.h:161-226 | every dispatched job is run once and completed once, in order, with its own result |
| SoundWorker.CallsAreDispatched | platform/vita/sound_worker.h:161-183 | in every run the jobs dispatched are the jobs asked for, in order, but for those whose call rethrew the error of the job before |
| SoundWorker.AllDispatched | platform/vita/sound_worker.h:161-183 | if no job fails, every job asked for is dispatched |
| SoundWorker.FinishJoins | platform/vita/sound_worker.h:88-105 | when nothing is busy the worker holds no job and every dispatched job has been run |
| SoundWorker.FinishReturns | platform/vita/sound_worker.h:88-105 | the step by which finish returns finds the worker out of every job, and every dispatched job run and completed |
| SoundWorker.CloseDropsNothing | platform/vita/sound_worker.h:107-124 | the worker leaves only after every dispatched job is completed |
| SoundWorker.NeverStuck | platform/vita/sound_worker.h:88-226 | in the middle of a call some real step is always possible |
| SoundWorker.RealStepsRunOut | platform/vita/sound_worker.h:88-226 | every real step brings the call nearer its end, so every call returns |

## Left out

- Wall-clock timeouts: a lost link is a step that may come at any time, and the wait
  for a vsync lasts an arbitrary number of rounds.
- The ring's roles are fixed from the start; of the tick inside the init command, which
  runs before the role is known, only one that reads no number and no count is in the
  ring's runs (`BoardInRing.FirstTick`). The reset command, the frame flag `zfg` and a
  line that opens late or reopens are not in them.
- CommBoard.CommBoard.CommTick: nothing is promised of the log once a line has broken.
- Frame geometry other than 0xe00 and 0x1c0.
- RingVsync.AtMostOneVsync: only with frame sync on, since with it off the master does not wait.
- The receiving socket, connecting and reconnecting (`platform/vita/link.h:61-106`): the
  network is a stream that delivers a prefix of what it took.
- CommandQueue and SoundWorker are state machines over values, not classes over arrays:
  a Dafny method cannot be interrupted half way. Release and acquire are taken as
  sequentially consistent. The worker's opening handshake, its inline path without a
  thread, clocks and core masks are left out.
- The audio engine, rendering of sound and the other counters.
- IAC messages, `calls`, hooks that observe calls, and reset of the i960. Memory accesses
  of the context are whole words at multiples of four.
- I960Cpu.Cpu.DoRet0: with no frame saved it only says what is read from memory; such a
  return is not in the runs of `I960Machine`, which has no memory.
- I960Machine.RisingRun: code that lowers its own priority may be interrupted by a level it was above;
  what each single entry needs is in `I960Machine.OpenedAt` for any code.
- I960Run.RunMachine: programs that move the interrupt table, the PRCB or the interrupt
  stack during a run, and a program that moves to another stack by itself.
- The executor's arithmetic, loads and stores, and REG instructions: `calls` and the
  REG opcode table are a parameter of the decoder.
- Executor.Executor.ExecuteOne: ret, whose effect is in `I960Cpu.Cpu.DoRet`, is not part of it.
- The decoder's quirk flags other than the literal destination, and disassembly text.
- The m68k decoder is an arbitrary function of the address.
- The worklists' vectors of sites, sorted from sets, are the sets.
- `std::sort` of the short path stands as an insertion sort; by `PolygonOrder.OrderUnique`
  any correct sort gives the same list.
- FlatIndex: the hash is an arbitrary function to 32-bit words, so its mixing is not modelled.
- The NEON branch of the tile upload, the colour form (`upload_system24_layer`), palettes, and strides that are not a
  multiple of a texel.
- Depths and vertices are exact reals or opaque values: float rounding is not modelled.
- `batch_for`'s key and its table are not followed: `DepthPainter.BatchedPicture` holds
  for any assignment of polygons to batches.
- Materials, clipping rectangles, and merging of commands.
- User interface, archives, saves, logs, scripts and everything that only passes data on.
