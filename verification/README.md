# goc on movable stacks: a verified model

goc compiles C to run on goroutine stacks, which the Go runtime may copy to a
new place at any call. This project models the parts of goc that keep such a
program right and proves what they promise, for all inputs, all runs and all
stack moves.

| files | what they model |
|---|---|
| `Frame*.dfy` | the x86 pass that finds frame addresses by dataflow and repairs registers and spill slots after every call |
| `StackCheck.dfy`, `GcBitmaps.dfy` | the stack check at function entry, the cold block around morestack, the arm64 rebase; the pointer bitmap of every call |
| `CallLiveness.dfy`, `StackArguments.dfy`, `StackAddresses.dfy` | liveness of one value across safepoints with reload rewriting; which arguments and values may be stack addresses |
| `ParallelMove.dfy`, `Abi*.dfy`, `Thunk*.dfy` | the Go-to-C thunk compiler and the tables that describe a thunk to the runtime |
| `Heap*.dfy`, `ByteCopy.dfy` | the freestanding heap and the memory routines of the libc shim |
| `Varint.dfy`, `PcTable.dfy`, `StackMaps.dfy` | pc-value tables and stack maps |
| `RecordCodec.dfy`, `Func*.dfy`, `Object*.dfy` | the object file of the compiler: record sections, string table, header |
| `Relocations.dfy`, `RelocText.dfy` | the converter to Go objects: relocations of data and of text |
| `Go*.dfy` | the writer and the reader of Go objects: symbol numbers, records, the file, and the way back |
| `Options.dfy`, `ByteType.dfy`, `LittleEndian.dfy`, `Counting.dfy` | optional results, bytes and fixed-size numbers, sequences without repetition and sizes of finite sets |

`dafny verify dfyconfig.toml` checks everything.

## How to read the model

**Frame addresses.** A word of the program is symbolic: a coefficient times the
stack's position plus an offset, or undefined. The coefficient is kept in two
parts, what came from this function's RBP and RSP and what came from elsewhere.
`FrameMachine` runs this symbolic machine beside a 64-bit one; `FrameSound` gives
every kind of the lattice its meaning: Plain words hold nothing of this frame,
exact and shifting words hold it once, Maybe words at most once. `FrameStep`
proves this of every transfer rule; `FrameRepair`, `FrameCall` and
`FrameRestore` run the emitted repair on bits; `FrameRun` puts it together over
whole runs; `FrameExample` shows a run, for every stack move, on which all its
premises hold.

`FrameSharp` is the other half: the transfer is not only sound but says all that
is true of every machine a state allows, except in five cases where the code is
known to say less (`FrameSharp.Lossy`); the condition is that a state speaks of
one operand in one voice, through its own kind, its slot and its copy group.
`FrameLive` shows the liveness exact, `FrameReport` what is reported and when the
emission gives up.

What a run may assume of the world is `FrameRun.Fair` and `FrameRun.Starts`, and
it concerns only what comes from outside. Registers at entry, words from
untracked memory, results of calls and results of unlisted instructions on such
words hold nothing of this frame (for a real run this is bookkeeping: such a
word's coefficient is counted as foreign). A subtraction classed as a difference
has operands that count this frame equally often or move alike, which is a
premise only for Maybe operands and loaded roots. Stored members of a copy group
are defined. At a call, the runtime adjusts exactly the roots that hold stack
addresses; a live word that is neither a root nor a root's copy holds no foreign
stack address; a live Maybe word lies in the frame exactly when it is an address
of it; reserved registers hold no stack address. Live tainted words are what the
pass reports, so the theorems are about functions where it reports nothing
(`FrameRun.Unreported`, checked on the analysis alone). `FrameRestore` proves for
each word that the condition used there is also necessary.

One more condition turned out to be needed. Copy groups are named by instruction
addresses, so a second trip round a loop reuses a name that another location may
still carry. `FrameCopies` gives a loop, its stable analysis and a run on which
a live register ends up with another word although the stack never moved.
`FrameGroups.FreshGroup` says exactly when a reuse is harmless: each location
that keeps the name is already forced to hold the copied word (the same exact
address, the same slot, a common group) or holds nothing; `FreshGroupIff` proves
both directions for one step, and `FrameRun.FreshGroups` asks it of every copy
and reload. A comment in the pass says that writing RSP or RBP taints the
addresses relative to it; the code makes them "moves by delta", and the model
follows the code.

**The heap.** Block headers are a map from address to header. A store to a
header also wipes the payload bytes under it, so "no call writes into a live
payload" is a statement about addresses and follows from the tiling.
`Heap.Heap.Valid` holds before and after every operation, so it holds on every
sequence of them. mmap's answer is a parameter: any failure, or any aligned
range that overlaps neither the arena nor an earlier mapping.

**Thunks.** Narrow register writes leave arbitrary upper bytes: the machine
takes the rule as a parameter and the theorem holds for all rules, hence for
both architectures. Register names are hardware numbers.

**Tables.** `StackMaps.SafepointLookup` covers both quanta. With a quantum above
one the encoder divides distances that are not multiples of it, and the last
instruction of the function is left without an index, so a call there finds no
maps. `StackMaps.Pctab` shows that rows sharing a pc may also end a table early
and says exactly when; `gocobj.Verify` refuses such tables before the converter
runs, so this is about callers that skip it.

**Relocations.** A placement gives every Go symbol any address at all, and a
field is right when it is right for all placements. `RelocText.TextRelocs` and
`Relocations.DataRelocs` are the converter's loops; what they refuse is said by
predicates on the input alone. Three properties one might expect do not hold and
have their exact condition: GOT words are found by name and addend without the
ABI, so a reference may read another one's word (`RelocText.OwnTargetIff`); they
are named without the addend, so two addends on one symbol cannot be translated
(`RelocText.TwoAddendsClash`); and an addend that leads out of a function is
resolved against its neighbour (`Relocations.DistanceKeptIff`).

**Go objects.** `GoSymbols.Link` is what the converter has built: symbols with
their relocations, contents and functions. `GoNumbers` gives each its block and
number, `GoWrite` says what is recorded and what is refused, `GoFile` lays the
blocks out behind a header with their offsets and reads them back from that
header, and `GoRead.WriteThenRead` is the whole way: what a reader gets for a
defined symbol is what the link has, and each pair of package word and number in
it leads to the record of the symbol it was written for, or to its builtin. The
premises are on the link and the release: references stay inside the link, pc
tables that are not content-addressable bring no relocations (the writer would
stop at their targets, which no traversal numbers), numbers fit their fields,
package words differ, and the file is smaller than 4 GB.

**Stack addresses.** `StackRuns` and `ArgumentRuns` give the two analyses a
meaning: words that move with the stack, instructions executed in any order and
number, calls that may return what they were handed. What is listed can move, and
what moves is listed exactly if the function has none of the instructions the
analyses do not follow (`StackRuns.Leaks`, `ArgumentRuns.TooDeep`). Frame slots
are written by the stores that name them; stores through other pointers do not
reach them.

**Arithmetic.** Integers are unbounded; wrap-around is written out where the
source has it (`FrameMachine.W`, `Varint.Wrap`, sizes against `SIZE_MAX`).
Shifts and masks by powers of two are written as division and remainder.

## Model

| member | source | states |
|---|---|---|
| `FrameLattice.JoinSemilattice` | llvm/lib/Target/X86/GocX86FrameAddrFix.h:73-119 | `join` is associative, commutative and idempotent with Bot as identity, on canonical values, alias and copy-id resets included |
| `FrameLattice.BelowRaisesRank` | llvm/lib/Target/X86/GocX86FrameAddrFix.h:98-119 | going strictly up the join order raises a rank bounded by six levels |
| `FrameLattice.RankAlongChain` | llvm/lib/Target/X86/GocX86FrameAddrFix.h:98-119 | along an ascending chain the rank grows by at least one per element |
| `FrameLattice.ChainsHaveAtMostSix` | llvm/lib/Target/X86/GocX86FrameAddrFix.h:73-119 | no strictly ascending chain of values has more than six elements |
| `FrameTransfer.MutableState.ReadReg` | llvm/lib/Target/X86/GocX86FrameAddrLattice.cpp:59-73 | the in-place read agrees with the value specification: frame bases are exact, Bot reads as not-a-frame-address |
| `FrameTransfer.MutableState.WriteReg` | llvm/lib/Target/X86/GocX86FrameAddrLattice.cpp:75-80 | the new state is the specified write; frame bases are never written |
| `FrameTransfer.MutableState.WriteDefs` | llvm/lib/Target/X86/GocX86FrameAddrLattice.cpp:319-321 | all defined registers receive the value, and only they |
| `FrameTransfer.MutableState.InvalidateBase` | llvm/lib/Target/X86/GocX86FrameAddrLattice.cpp:82-91 | exactly the addresses relative to that base, in registers and slots, become "moves by delta" |
| `FrameTransfer.MutableState.InvalidateDefs` | llvm/lib/Target/X86/GocX86FrameAddrLattice.cpp:125-132 | a definition of RSP or RBP invalidates that base before the instruction's value is computed |
| `FrameTransfer.MutableState.ForgetAlias` | llvm/lib/Target/X86/GocX86FrameAddrLattice.cpp:272-279 | exactly the aliases of that slot are dropped, everywhere |
| `FrameTransfer.MutableState.MarkCopies` | llvm/lib/Target/X86/GocX86FrameAddrLattice.cpp:301-309 | every register in the copy group, and only those, aliases the slot |
| `FrameTransfer.MutableState.AnyFrameOperand` | llvm/lib/Target/X86/GocX86FrameAddrLattice.cpp:104-119 | true exactly when some value operand reads as frame-derived |
| `FrameTransfer.MutableState.StoreSlot` | llvm/lib/Target/X86/GocX86FrameAddrLattice.cpp:293-309 | a whole-slot store leaves the specified state: old aliases gone, slot holds the value, the register or its copy group aliases it |
| `FrameTransfer.MutableState.StorePartial` | llvm/lib/Target/X86/GocX86FrameAddrLattice.cpp:310-316 | a partial store taints the slot exactly when it or an operand was frame-derived |
| `FrameTransfer.MutableState.ComputeLea` | llvm/lib/Target/X86/GocX86FrameAddrLattice.cpp:138-161 | the branches of an address computation give the specified value |
| `FrameTransfer.MutableState.ComputeAdd` | llvm/lib/Target/X86/GocX86FrameAddrLattice.cpp:195-210 | the branches of an addition give the specified value |
| `FrameTransfer.MutableState.ComputeSub` | llvm/lib/Target/X86/GocX86FrameAddrLattice.cpp:225-242 | the branches of a subtraction give the specified value |
| `FrameTransfer.MutableState.ComputeCmov` | llvm/lib/Target/X86/GocX86FrameAddrLattice.cpp:211-224 | a conditional move gives the join of its operands |
| `FrameTransfer.MutableState.Compute` | llvm/lib/Target/X86/GocX86FrameAddrLattice.cpp:134-271 | the value of every instruction kind is the specified one |
| `FrameTransfer.MutableState.Advance` | llvm/lib/Target/X86/GocX86FrameAddrLattice.cpp:121-322 | updating the state in place computes the specified transfer of every instruction kind |
| `FrameTransfer.MutableState.AdvanceCall` | llvm/lib/Target/X86/GocX86FrameAddrLattice.cpp:324-335 | a call resets clobbered registers to Bot and results to not-a-frame-address, in operand order |
| `FrameMachine.StepKeepsCorrect` | llvm/lib/Target/X86/GocX86FrameAddrFix.cpp:127-157 | one instruction keeps every word that matters equal to the word the program meant, given the operands that liveness says it uses |
| `FrameMachine.CorrectShrinks` | llvm/lib/Target/X86/GocX86FrameAddrFix.cpp:158-175 | agreement on a live set carries over to any smaller live set |
| `FrameSound.JoinSound` | llvm/lib/Target/X86/GocX86FrameAddrFix.h:98-119 | a machine that fits either state fits the join: every kind of the join, Maybe and Plain included, still says how often this frame enters the word |
| `FrameSound.InvalidateSound` | llvm/lib/Target/X86/GocX86FrameAddrLattice.cpp:82-91 | moving a base weakens exact addresses soundly |
| `FrameGroups.MovSound` | llvm/lib/Target/X86/GocX86FrameAddrLattice.cpp:162-171 | copies keep every claim when each location that still carries the group's name is known to hold the copied word |
| `FrameGroups.LoadSound` | llvm/lib/Target/X86/GocX86FrameAddrLattice.cpp:243-262 | so do reloads of a slot |
| `FrameGroups.StaleNameBreaksSoundness` | llvm/lib/Target/X86/GocX86FrameAddrLattice.cpp:162-171 | otherwise some machine that fits the state does not fit the transfer's result: two different words are claimed to be one |
| `FrameGroups.FreshGroupIff` | llvm/lib/Target/X86/GocX86FrameAddrLattice.cpp:162-262 | for copies and reloads the transfer is sound on all machines that fit the state if and only if `FreshGroup` holds, a condition on the state alone |
| `FrameSound.StoreWholeSound` | llvm/lib/Target/X86/GocX86FrameAddrLattice.cpp:293-309 | after a whole-slot store every alias it records is a true copy of the slot |
| `FrameStep.LeaFits` | llvm/lib/Target/X86/GocX86FrameAddrLattice.cpp:138-161 | the kind given to an address computation is true of the computed word, for every combination of base, index and scale |
| `FrameStep.AddFits` | llvm/lib/Target/X86/GocX86FrameAddrLattice.cpp:195-210 | the same for additions with a register, a slot or untracked memory |
| `FrameStep.SubFits` | llvm/lib/Target/X86/GocX86FrameAddrLattice.cpp:225-242 | the same for subtractions: a difference holds nothing of this frame |
| `FrameStep.CmovFits` | llvm/lib/Target/X86/GocX86FrameAddrLattice.cpp:211-224 | a conditional move is described by the join, whichever operand it takes |
| `FrameStep.AddImmFits` | llvm/lib/Target/X86/GocX86FrameAddrLattice.cpp:172-194 | adding a constant keeps or drops exactly the claims it may |
| `FrameStep.OtherSound` | llvm/lib/Target/X86/GocX86FrameAddrLattice.cpp:263-318 | an instruction without a rule gives a word of this frame only where the pass says tainted, in every definition and in the slot it stores to |
| `FrameStep.StepSound` | llvm/lib/Target/X86/GocX86FrameAddrLattice.cpp:121-322 | the transfer of any instruction is sound: after it Plain words hold nothing of this frame, Shifts words hold it once, Maybe words at most once, exact words are base plus offset, and aliases and groups are true copies |
| `FrameStep.CallSound` | llvm/lib/Target/X86/GocX86FrameAddrLattice.cpp:324-335 | the transfer of a call is sound whatever the call returns or clobbers |
| `FrameRepair.CollectRegs` | llvm/lib/Target/X86/GocX86FrameAddrFix.cpp:280-305 | the register repair list: live, not reserved, frame-derived, repairable and not a copy of a root |
| `FrameRepair.CollectSlots` | llvm/lib/Target/X86/GocX86FrameAddrFix.cpp:306-319 | the slot repair list: live spill slots that are not roots and hold a repairable value |
| `FrameRepair.CollectReloads` | llvm/lib/Target/X86/GocX86FrameAddrFix.cpp:320-337 | the reload list: live registers that copy a root, or copy a slot and cannot be rebased |
| `FrameRepair.CollectFree` | llvm/lib/Target/X86/GocX86FrameAddrFix.cpp:362-381 | the scratch registers: clobbered by the call, not results, dead after it |
| `FrameRepair.EmitRepair` | llvm/lib/Target/X86/GocX86FrameAddrFix.cpp:338-472 | the emitted instruction list is the planned one, or the pass reports that scratch registers or displacements do not suffice |
| `FrameRepair.FixRegEffect` | llvm/lib/Target/X86/GocX86FrameAddrFix.cpp:438-454 | running one register fix gives that register its repaired word and disturbs nothing but temporaries |
| `FrameRepair.FixRegsEffect` | llvm/lib/Target/X86/GocX86FrameAddrFix.cpp:438-456 | running all register fixes in sequence gives each listed register the word its own fix gives |
| `FrameRepair.FixSlotsEffect` | llvm/lib/Target/X86/GocX86FrameAddrFix.cpp:457-472 | the same for spill slots, through a temporary |
| `FrameRepair.PreambleEffect` | llvm/lib/Target/X86/GocX86FrameAddrFix.cpp:391-437 | the preamble computes delta and the frame's extent into temporaries and disturbs nothing else |
| `FrameRepair.ReloadsEffect` | llvm/lib/Target/X86/GocX86FrameAddrFix.cpp:342-355 | each reload puts the slot's word in its register and changes nothing else |
| `FrameCall.CallEffect` | llvm/lib/Target/X86/GocX86FrameAddrFix.cpp:277-303 | what a call that moves the stack does to every register, slot and base |
| `FrameCall.BodyEffect` | llvm/lib/Target/X86/GocX86FrameAddrFix.cpp:382-472 | the guarded part of the repair leaves every location with the word planned for it |
| `FrameRestore.RangeCheck` | llvm/lib/Target/X86/GocX86FrameAddrFix.cpp:425-452 | in 64-bit arithmetic the emitted unsigned compare asks exactly whether the old word lay in the old frame |
| `FrameRestore.MaybeRestoredIff` | llvm/lib/Target/X86/GocX86FrameAddrFix.cpp:446-453 | a range-checked word is restored if and only if it moves exactly when it lies in the frame |
| `FrameRestore.WordRestoredIff` | llvm/lib/Target/X86/GocX86FrameAddrFix.cpp:439-454 | a repaired word is the intended one if and only if `Restorable` holds: always for exact words, for shifting words when they move by delta, for Maybe words when they do so exactly inside the frame |
| `FrameRestore.RegisterRestoredIff` | llvm/lib/Target/X86/GocX86FrameAddrFix.cpp:283-305 | a live callee-saved register holds its pre-call value shifted as it should be, if and only if it copies a root or is `Restorable` |
| `FrameRestore.SlotRestoredIff` | llvm/lib/Target/X86/GocX86FrameAddrFix.cpp:306-319 | the same for a live spill slot that is not a root |
| `FrameRestore.SpillReadBack` | llvm/lib/Target/X86/GocX86FrameAddrFix.cpp:342-355 | a word that cannot be rebased is right again after it is read back from the slot it copies |
| `FrameRestore.OwedIsRestorable` | llvm/lib/Target/X86/GocX86FrameAddrFix.cpp:283-319 | what the analysis claims of a word, with no foreign stack address in it and the frame test right for Maybe words, makes it one that the repair restores |
| `FrameRestore.RepairKeepsCorrect` | llvm/lib/Target/X86/GocX86FrameAddrFix.cpp:233-484 | after a call and its repair every live word is again the word the program meant, if nothing was reported and no live word that is not a root's copy holds a stack address from outside the frame |
| `FrameRestore.PlanRepairs` | llvm/lib/Target/X86/GocX86FrameAddrFix.cpp:277-472 | running the emitted plan is a repair in that sense |
| `FrameProgram.BlockLiveness` | llvm/lib/Target/X86/GocX86FrameAddrFix.cpp:161-174 | one block's backward pass computes its specified live-in set |
| `FrameProgram.ComputeLiveness` | llvm/lib/Target/X86/GocX86FrameAddrFix.cpp:127-175 | the liveness loop terminates with the least solution of the live-in equations |
| `FrameProgram.Dataflow.Sweep` | llvm/lib/Target/X86/GocX86FrameAddrFix.cpp:208-230 | a round over the blocks that changes nothing leaves every block stable: its in-state is the merge of its visited predecessors, its out-state the transfer of that |
| `FrameProgram.Dataflow.Analyze` | llvm/lib/Target/X86/GocX86FrameAddrFix.cpp:193-231 | when the forward loop stops by itself, the states it leaves are stable for every block |
| `FrameProgram.EntrySound` | llvm/lib/Target/X86/GocX86FrameAddrFix.cpp:208-218 | the entry block's state is sound for every machine whose slots are undefined and whose registers hold nothing of the frame to come |
| `FrameProgram.JoinFromSound` | llvm/lib/Target/X86/GocX86FrameAddrFix.cpp:211-217 | along an edge, soundness of the predecessor's out-state gives soundness of the successor's in-state |
| `FrameRun.StepKeepsInv` | llvm/lib/Target/X86/GocX86FrameAddrFix.cpp:193-484 | every step of the repaired function, call or not, keeps: abstract state sound and every live word correct |
| `FrameRun.EveryRunIsSafe` | llvm/lib/Target/X86/GocX86FrameAddrFix.cpp:193-484 | on every run of any control-flow graph on which nothing was reported, with every call moving the stack by any delta, each location's claim is true and every live word is the one the program meant, at every point |
| `FrameRun.MovesAreInvisible` | llvm/lib/Target/X86/GocX86FrameAddrFix.cpp:193-484 | two runs that differ only in where calls put the stack go through the same points, and each live word is the same symbolic word placed on the one stack or the other |
| `FrameSharp.SharpIff` | llvm/lib/Target/X86/GocX86FrameAddrLattice.cpp:121-322 | every kind that is true of the written word on all machines the state allows follows from the kind the transfer gives -- except exactly for an exact index without base, an address less a plain word, an unknown word less itself, a store covering a frame-derived slot, and partial stores that leave garbage |
| `FrameSharp.JoinSharp` | llvm/lib/Target/X86/GocX86FrameAddrFix.h:73-119 | a merge is the strongest claim that both sides imply |
| `FrameSharp.CallSharp` | llvm/lib/Target/X86/GocX86FrameAddrLattice.cpp:324-335 | results of a call are plain and nothing more is true of all of them |
| `FrameSharp.OthersRemembered` | llvm/lib/Target/X86/GocX86FrameAddrLattice.cpp:121-322 | whatever an instruction does not concern is remembered, kind, slot and copy group; exact addresses on a written base are still known to shift |
| `FrameSharp.CopiesKnown` | llvm/lib/Target/X86/GocX86FrameAddrLattice.cpp:255-322 | a reload is known to copy its slot, a copy its source, a stored register and its group the slot |
| `FrameLive.LivenessIsExact` | llvm/lib/Target/X86/GocX86FrameAddrFix.cpp:127-175 | a location is live into a block exactly if some path reaches a use of it and overwrites it nowhere before |
| `FrameReport.ReportedIff` | llvm/lib/Target/X86/GocX86FrameAddrFix.cpp:280-337 | reported are exactly live tainted words: callee-saved registers that copy no root, and slots that are no roots |
| `FrameReport.NoRepair` | llvm/lib/Target/X86/GocX86FrameAddrFix.cpp:338-472 | no computation from the stale word and the distance would be right for all tainted words |
| `FrameReport.PlanFailsIff` | llvm/lib/Target/X86/GocX86FrameAddrFix.cpp:362-400 | the emission fails exactly if something is to be repaired and scratch registers, the saved RBP or the immediate's range do not suffice |
| `FrameExample.MovedRun` | llvm/lib/Target/X86/GocX86FrameAddrFix.cpp:193-484 | a function with a live frame address across a call: for every place of the stack and every move of it there is a run on which all premises of the theorem hold, and the address comes out moved |
| `FrameCopies.ReusedGroupsBreakTheRepair` | llvm/lib/Target/X86/GocX86FrameAddrLattice.cpp:301-309 | a loop, its stable analysis and a run without any stack move after which a live register holds the wrong word: group names are instruction addresses |
| `Heap.Heap.constructor` | ports/quickjs/host/libc_shim.c:36-38 | the empty heap satisfies the invariant |
| `Heap.Heap.UnlinkFree` | ports/quickjs/host/libc_shim.c:58-67 | taking a block off the free list keeps tiling, lists and neighbours; only that block changes state |
| `Heap.Heap.LinkFree` | ports/quickjs/host/libc_shim.c:69-76 | putting a block on the free list keeps them too; one live block fewer |
| `Heap.Heap.SplitBlock` | ports/quickjs/host/libc_shim.c:78-93 | the block shrinks to the request exactly when a header and 16 bytes are left; the rest becomes a free block; other live blocks are untouched |
| `Heap.Heap.FindFit` | ports/quickjs/host/libc_shim.c:109-116 | the walk finds the first listed block that is large enough, and none exactly when every free block is too small |
| `Heap.Heap.TakeCached` | ports/quickjs/host/libc_shim.c:99-108 | a cached block of the class is reused as it is |
| `Heap.Heap.TakeFree` | ports/quickjs/host/libc_shim.c:112-115 | the block found is cut to size and becomes live |
| `Heap.Heap.TakeSlab` | ports/quickjs/host/libc_shim.c:119-142 | a mapped slab becomes a region of its own, tiled by the new block and a free rest |
| `Heap.Heap.Bump` | ports/quickjs/host/libc_shim.c:143-154 | the arena grows by exactly one block |
| `Heap.Heap.Malloc` | ports/quickjs/host/libc_shim.c:95-155 | NULL exactly in the stated cases, and then nothing changed; otherwise one new aligned live block at least as large as asked, from the cache, the first fit, the arena or a new slab in that order; no byte of a live payload changes |
| `Heap.Heap.Absorb` | ports/quickjs/host/libc_shim.c:171-187 | merging a block with its successor keeps tiling, lists and the arena's last block |
| `Heap.Heap.MergePrev` | ports/quickjs/host/libc_shim.c:171-179 | merged with the free block before it, if any |
| `Heap.Heap.MergeNext` | ports/quickjs/host/libc_shim.c:180-187 | merged with the free block after it, if any; then no neighbour is free |
| `Heap.Heap.Free` | ports/quickjs/host/libc_shim.c:157-191 | traps exactly on a second free; otherwise the live blocks lose exactly this one, which is cached by class or merged with both free neighbours; no byte of another live payload changes |
| `Heap.Heap.Calloc` | ports/quickjs/host/libc_shim.c:196-205 | the overflow test is exact; the new block's bytes are zero |
| `Heap.Heap.Realloc` | ports/quickjs/host/libc_shim.c:207-228 | in place when it fits; otherwise a new block that holds all of the old capacity's bytes, the old one freed; on failure nothing changes |
| `Heap.Heap.Resize` | ports/quickjs/host/libc_shim.c:215-218 | a block that fits keeps place, capacity and contents |
| `Heap.Heap.UsableSize` | ports/quickjs/host/libc_shim.c:230-232 | the capacity, never less than the size asked for |
| `HeapSteps.LivePayloads` | ports/quickjs/host/libc_shim.c:26-38 | live payloads are 16-aligned, as large as asked for, inside a region, and disjoint from each other and from every header |
| `HeapSteps.NothingIsLost` | ports/quickjs/host/libc_shim.c:39-51 | every address of the arena's used part and of every slab lies in exactly one block, which is live, on the free list or on its class's list, exactly one of them |
| `HeapSteps.PayloadsSafe` | ports/quickjs/host/libc_shim.c:95-191 | header stores of the heap before or after never fall into a payload that is live in both |
| `HeapSteps.MovedContents` | ports/quickjs/host/libc_shim.c:219-227 | what a moving realloc leaves: the old block's bytes in the new one, all others as they were |
| `HeapMoves.CarvedTiled` | ports/quickjs/host/libc_shim.c:78-93 | splitting keeps the tiling |
| `HeapMoves.AbsorbedTiled` | ports/quickjs/host/libc_shim.c:171-187 | merging keeps the tiling |
| `HeapMoves.AppendedTiled` | ports/quickjs/host/libc_shim.c:143-154 | appending to the arena keeps the tiling |
| `HeapMoves.SlabTiled` | ports/quickjs/host/libc_shim.c:134-141 | a new slab keeps the tiling |
| `HeapMoves.RegionsAreCovered` | ports/quickjs/host/libc_shim.c:27-34 | following the physical chain from a region's start reaches every address of it |
| `HeapShape.UnlinkedFreeListed` | ports/quickjs/host/libc_shim.c:58-67 | unlinking node i leaves a doubly linked list of the other free blocks, in order |
| `HeapShape.LinkedFreeListed` | ports/quickjs/host/libc_shim.c:69-76 | linking puts the block first and keeps the others in order |
| `ByteCopy.CopySmall` | ports/quickjs/host/libc_shim.c:246-271 | up to 64 bytes: equal to one simultaneous copy for every overlap |
| `ByteCopy.CopySse2` | ports/quickjs/host/libc_shim.c:274-300 | the 64-byte chunk loop and its tail equal one simultaneous copy when the destination does not run ahead into the source |
| `ByteCopy.RepForward` | ports/quickjs/host/libc_shim.c:314-314 | so does the forward byte copy |
| `ByteCopy.RepBackward` | ports/quickjs/host/libc_shim.c:324-328 | the backward byte copy does when the destination is at or above the source |
| `ByteCopy.Memcpy` | ports/quickjs/host/libc_shim.c:302-316 | one simultaneous copy, for every overlap up to 64 bytes and every forward-safe one beyond |
| `ByteCopy.Memmove` | ports/quickjs/host/libc_shim.c:318-335 | one simultaneous copy for every length and every overlap; no byte outside the destination changes |
| `ByteCopy.BigOrder` | ports/quickjs/host/libc_shim.c:401-405 | after a byte swap the order of words is the order of their first differing bytes |
| `ByteCopy.WordDecides` | ports/quickjs/host/libc_shim.c:398-406 | the first pair of words that differ decides the comparison |
| `ByteCopy.Memcmp` | ports/quickjs/host/libc_shim.c:395-411 | the word-at-a-time comparison is the lexicographic order of the bytes |
| `ParallelMove.Blocked` | internal/lower/goabi_x86.go:25-35 | when no move is ready the sources are exactly the targets, each read once: so the scratch is free and one rename is enough |
| `ParallelMove.ReadyHolds` | internal/lower/goabi_x86.go:36-41 | a ready move destroys no value a pending move still needs |
| `ParallelMove.BlockedHolds` | internal/lower/goabi_x86.go:42-48 | saving one source in the scratch keeps every pending value |
| `ParallelMove.Sequence` | internal/lower/goabi_x86.go:16-98 | for any moves with distinct targets and a scratch outside them, the emitted sequence has the effect of all moves at once, for every width mix, and changes nothing else but the scratch; the loop ends |
| `AbiLayout.AggregateLayout` | internal/lower/goabi_layout.go:56-107 | accepts exactly the layable structs; each field is at the next multiple of its size, the size is rounded up to the largest |
| `AbiLayout.CRuleOnce` | internal/lower/goabi_layout.go:56-107 | the C rule leaves no choice of layout |
| `AbiLayout.LayableIff` | internal/lower/goabi_layout.go:56-107 | accepted are exactly structs whose fields have an eightbyte each by the C rule, and results of at most 16 bytes |
| `AbiLayout.AlignedStaysInside` | internal/lower/goabi_layout.go:90-98 | no field crosses an eightbyte, so that refusal never happens |
| `AbiAssign.TablesAreOk` | internal/lower/goabi_parse.go:50-82 | the amd64 and arm64 tables are free of repeats and of the scratch registers |
| `AbiAssign.PlaceScalar` | internal/lower/goabi_layout.go:273-295 | a scalar takes the next register of its bank, or an aligned slot exactly when there is none |
| `AbiAssign.PlaceGoStruct` | internal/lower/goabi_layout.go:208-233 | on the Go side a struct goes whole to registers exactly when it fits, else whole to memory |
| `AbiAssign.PlaceCStruct` | internal/lower/goabi_layout.go:234-259 | on the C side the same, for structs of at most 16 bytes |
| `AbiAssign.AssignParams` | internal/lower/goabi_layout.go:192-301 | accepts exactly the supported signatures; on each side a scalar is in the next register of its table exactly if one is left, a struct is in registers exactly if all its fields fit (in C also only up to 16 bytes), a stack argument starts at the end of the one before, aligned to its size or in C to 8, and the area ends with the last one rounded to 8 |
| `AbiAssign.PlacedOnce` | internal/lower/goabi_layout.go:192-301 | these rules leave one assignment for each supported signature |
| `Thunk.AssignedIsUsable` | internal/lower/goabi_layout.go:192-301 | so no two arguments share a register or a stack byte, and none uses a scratch |
| `Thunk.StoresRun` | internal/lower/goabi_x86.go:100-123 | the stack arguments arrive and no input is disturbed |
| `Thunk.LoadsRun` | internal/lower/goabi_x86.go:125-135 | register arguments that come from the stack arrive, each in its own register |
| `Thunk.CodeMarshals` | internal/lower/goabi_x86.go:169-197 | stores, then moves, then loads put into every C location the bytes its Go location held on entry |
| `Thunk.EmitThunk` | internal/lower/goabi_x86.go:140-222 | the emitted code does that for every machine state, every frame with room, and whatever narrow writes do to upper bytes; only C argument registers, scratches and the outgoing area change |
| `Thunk.CompileThunk` | internal/lower/goabi_a64.go:170-249 | the same from a signature, for both architectures' tables; the locations are those both ABIs ask for |
| `ThunkTables.TwoFieldsAtMost` | internal/lower/goabi_layout.go:86-105 | a struct result has at most two fields, so result registers are indexed in range |
| `ThunkTables.ReturnAssignment` | internal/lower/goabi_layout.go:308-351 | accepts exactly void, scalars and layable structs of at most 16 bytes; results take the tables' registers in order |
| `ThunkTables.ResultsArrive` | internal/lower/goabi_x86.go:205-207 | the result moves, one after the other, deliver every result |
| `ThunkTables.GoArgsLayout` | internal/lower/goargs.go:19-47 | spill slots are exactly the register arguments', in order, each right after the one before, the first right after the stack arguments; stack pointers are exactly the pointer arguments on the stack |
| `ThunkTables.ArgsBitmap` | internal/lower/goabi.go:350-365 | a bit is set exactly for the words of the argument area that hold pointers; the refusals never happen |
| `ThunkTables.PointerSlots` | internal/lower/goabi.go:295-312 | the slots are exactly the outgoing pointer arguments, plus the saved X29 on arm64 |
| `ThunkTables.LocalsBitmap` | internal/lower/goabi.go:355-374 | a bit is set exactly for the words of the frame that hold pointers at the call; the refusals never happen |
| `ThunkTables.OutgoingBytes` | internal/lower/goabi_layout.go:353-358 | the area is a multiple of 16 that holds the C stack arguments |
| `ThunkTables.SpDeltaIsTrue` | internal/lower/goabi.go:323-347 | at every instruction of a thunk the recorded SP displacement is the true one |
| `Varint.UlebRoundTrip` | internal/convert/pctab.go:50-51 | every 64-bit number is read back from its encoding, whatever follows |
| `Varint.UlebFormat` | internal/gocobj/codec.go:108 | groups of seven bits, lowest first, bit 7 set on all bytes but the last |
| `Varint.ZigRoundTrip` | internal/goobj/diff.go:167-167 | zigzag round-trips |
| `Varint.WrapRoundTrip` | internal/convert/pctab.go:50-52 | a wrapped difference added back with wrap-around is exact, and zero only for equal values |
| `PcTable.Build` | internal/convert/pctab.go:24-39 | the segments agree with the step function below size and start exactly where some entry leaves the value in force |
| `PcTable.PcBytes` | internal/convert/pctab.go:16-55 | the bytes are the segments' encoding; no code, no bytes |
| `PcTable.DecodePcValue` | internal/goobj/diff.go:150-178 | the decoder's loop computes its specification, malformed input included |
| `PcTable.DecodeBytes` | internal/convert/pctab.go:40-54 | decoding the bytes gives the segments back, widths cut to whole quanta |
| `StackMaps.Pctab` | internal/convert/pctab.go:12-55 | for entries in pc order on instruction boundaries the decoded spans tile [0, size) and equal "value of the last entry at or before pc, else -1" if and only if the entries settle: where the rows at one pc end with the value in force before it, none of them strays from it |
| `StackMaps.Dedup` | internal/convert/pctab.go:79-93 | each safepoint's index names its own pair of bitmaps; pairs are kept once |
| `StackMaps.BlobHolds` | internal/convert/pctab.go:94-110 | index i of a blob reads bitmap i |
| `StackMaps.BlobHead` | internal/convert/pctab.go:94-110 | a blob begins with the count of bitmaps and the count of bits, four bytes each |
| `StackMaps.SafepointLookup` | internal/convert/pctab.go:76-93 | a lookup at a safepoint's return address less one finds its own index if and only if the quantum is 1 or the call is not the function's last instruction |
| `StackMaps.Stackmaps` | internal/convert/pctab.go:79-112 | so that lookup and the blobs give exactly the safepoint's own bitmaps in those cases, and nothing otherwise |
| `CallLiveness.SeedBlocks` | llvm/include/Goc/Internal/StackMap.h:60-71 | the starting blocks are the ones with a use that is not satisfied locally |
| `CallLiveness.LiveBlocks` | llvm/include/Goc/Internal/StackMap.h:58-82 | the worklist ends with sets that are closed, and every member has a path to a use that avoids the definition |
| `CallLiveness.LiveAcrossIsExact` | llvm/include/Goc/Internal/StackMap.h:84-93 | live across an instruction if and only if a use is reachable from just after it without executing the definition |
| `CallLiveness.LiveMeansDefined` | llvm/include/Goc/Internal/StackMap.h:49-52 | where the value is live across an instruction, every path from the entry has executed the definition |
| `CallLiveness.UsesReadTheSlot` | llvm/lib/Analysis/StackMap/SafepointAnalysis.cpp:493-578 | after reload rewriting, on every run and whatever each safepoint does to the slot, every use reads what the slot holds at that moment |
| `PcTable.ChangingIff` | internal/convert/pctab.go:31-38 | neighbouring segments differ if and only if the entries settle |
| `PcTable.DecodeStops` | internal/goobj/diff.go:163-165 | a segment that does not change the value reads as the end of the table |
| `PcTable.IncreasingSettles` | internal/convert/pctab.go:25-39 | entries at distinct pcs always settle |
| `PcTable.RepeatedPcBreaksTheTable` | internal/convert/pctab.go:31-34 | three entries, two of them at one pc, that do not settle (`gocobj.Verify` refuses such tables, so they reach the encoder only without it) |
| `StackMaps.UnchangedTable` | internal/convert/pctab.go:40-54 | and then the table is cut short: it does not reach the function's end |
| `StackArguments.Scan` | llvm/lib/Analysis/StackMap/SafepointAnalysis.cpp:306-320 | marking from one function's calls keeps every other function settled or waiting |
| `StackArguments.KnownIsLocal` | llvm/lib/Analysis/StackMap/SafepointAnalysis.cpp:268-295 | whether an operand is a stack address depends only on its own function's arguments, so rescanning the function of a new mark is enough |
| `StackArguments.StackPointerArguments` | llvm/lib/Analysis/StackMap/SafepointAnalysis.cpp:297-338 | the result is the least set of arguments closed under the marking rule, whatever the order |
| `ArgumentRuns.KnownIff` | llvm/lib/Analysis/StackMap/SafepointAnalysis.cpp:268-295 | the search finds exactly the allocas and marked arguments below at most four phis and selects |
| `ArgumentRuns.ListedCanReceive` | llvm/lib/Analysis/StackMap/SafepointAnalysis.cpp:297-338 | every listed argument is passed a stack address on some run |
| `ArgumentRuns.CoversIff` | llvm/lib/Analysis/StackMap/SafepointAnalysis.cpp:297-338 | on every run all arguments that receive stack addresses are listed, if and only if no such leaf lies deeper than the search goes |
| `StackCheck.HugeTier` | llvm/lib/Target/X86/GocX86StackCheck.cpp:68-88 | with the borrow tested the body is reached if and only if the frame ends above the guard, over the integers |
| `StackCheck.SmallTier` | llvm/lib/Target/X86/GocX86StackCheck.cpp:68-88 | the body is reached if and only if the largest frame of the tier would fit |
| `StackCheck.RoomIsEnough` | llvm/lib/Target/X86/GocX86StackCheck.cpp:68-88 | in every tier a frame that fits above the guard reaches the body |
| `StackCheck.BigTier` | llvm/lib/Target/X86/GocX86StackCheck.cpp:62-67 | without it the check is safe exactly when SP covers the overhang or the wrapped value fails the compare |
| `StackCheck.BigTierWraps` | llvm/lib/Target/X86/GocX86StackCheck.cpp:62-67 | an SP below the overhang that slips through |
| `StackCheck.CheckIsSafe` | llvm/lib/CodeGen/GocStackCheck.cpp:78-101 | in every tier the body is reached only with enough stack, given SP at least the big limit in the big tier |
| `StackCheck.RecordChanges` | llvm/lib/Target/X86/GocX86StackCheck.cpp:96-102 | a displacement is recorded after exactly the instructions that move SP, and it is the running sum |
| `StackCheck.DeltaIsTrue` | llvm/lib/Target/X86/GocX86StackCheck.cpp:92-134 | the recorded displacement is the true one after every instruction |
| `StackCheck.Balanced` | llvm/lib/Target/X86/GocX86StackCheck.cpp:92-134 | the cold block leaves no displacement |
| `StackCheck.EmitStub` | llvm/lib/Target/X86/GocX86StackCheck.cpp:103-134 | the emitted pushes, saves, restores and pops are the block the lemmas are about; no register is saved twice |
| `StackCheck.StubRestores` | llvm/lib/Target/X86/GocX86StackCheck.cpp:92-134 | after morestack moved the stack by any amount and lost all registers, SP is the moved entry SP and every saved register holds what the runtime made of its word |
| `StackCheck.StubKeepsRegisters` | llvm/lib/Target/X86/GocX86StackCheck.cpp:92-134 | which is its own value wherever that word was copied unchanged |
| `StackCheck.StubSlotsNameTheirWords` | llvm/lib/Target/X86/GocX86StackCheck.cpp:136-145 | each stub slot names the word its argument register was pushed to |
| `GcBitmaps.FrameWords` | llvm/lib/Object/GocObjTablesWriter.cpp:62-66 | the bitmap covers the frame and the deepest pushed argument, and no more |
| `GcBitmaps.SetWord` | llvm/lib/Object/GocObjTablesWriter.cpp:68-74 | exactly the bit of that word is set, in its byte; distances outside the frame or off word alignment set none |
| `GcBitmaps.SiteBitmap` | llvm/lib/Object/GocObjTablesWriter.cpp:83-114 | a call's bitmap has exactly the bits of its declared slots and roots, a morestack call's those of the pushed pointer arguments and roots |
| `GcBitmaps.GcMap` | llvm/lib/Object/GocObjTablesWriter.cpp:53-118 | one such bitmap for every call of the function |
| `GcBitmaps.BelowIsAddress` | llvm/lib/Object/GocObjTablesWriter.cpp:95-113 | the distance the writer computes for a root is the address its stack map gives it, on both architectures |
| `GcBitmaps.BitsNameTheirWords` | llvm/lib/Object/GocObjTablesWriter.cpp:55-114 | a bit is set if and only if the word it stands for, at varp - 8 * words + 8 * bit, is a declared slot, a pushed pointer argument or a root |
| `GcBitmaps.PushedPointersAreNamed` | llvm/lib/Object/GocObjTablesWriter.cpp:62-91 | at the morestack call, for every frame size, the bit of each pointer argument is set and names the word its register was pushed to |
| `StackCheck.RebaseChecksTheOldStack` | llvm/lib/Target/AArch64/GocAArch64Frame.cpp:363-384 | the arm64 compare chain adds delta if and only if the old address lay between the old SP and the old top, in 64-bit arithmetic |
| `RecordCodec.SlebRoundTrip` | internal/gocobj/codec.go:44-67 | every signed 64-bit number is read back from its encoding, whatever follows |
| `RecordCodec.Enc.PutSleb` | internal/gocobj/codec.go:110-120 | the encoder's loop appends the specified bytes |
| `RecordCodec.Enc.AddRecord` | internal/gocobj/codec.go:122-128 | a record is its length and its body; the offset returned is where it starts |
| `RecordCodec.Buf.GetUleb` | internal/gocobj/codec.go:33-42 | a number and the bytes after it, or a sticky error and nothing left |
| `RecordCodec.Buf.GetSleb` | internal/gocobj/codec.go:44-67 | the reader's loop computes its specification, truncation and overflow included |
| `RecordCodec.Buf.GetBytes` | internal/gocobj/codec.go:69-78 | exactly n bytes, or a sticky error |
| `RecordCodec.Records` | internal/gocobj/codec.go:80-102 | the section loop computes its specification, bad lengths included |
| `RecordCodec.SplitCat` | internal/gocobj/codec.go:80-128 | reading a section gives back every record at the offset the writer returned for it |
| `RecordCodec.FindsRecord` | internal/gocobj/codec.go:80-128 | so an offset finds the record it was returned for, and no other |
| `RecordCodec.Strtab.Intern` | internal/gocobj/write.go:24-34 | equal strings share an offset, and every offset ever handed out keeps reading as its string |
| `FuncSections.BackPcv` | internal/gocobj/read.go:118-144 | a pc-value record decodes to its tables, line tables with repeated rows collapsed |
| `FuncSections.CollapsedIff` | internal/gocobj/read.go:131-137 | tables come back unchanged if and only if no line table has two rows in a row at one pc |
| `FuncSections.CollapsedReads` | internal/gocobj/read.go:131-137 | dropping repeated rows changes no lookup: the last row at a pc wins |
| `FuncSections.BackGc` | internal/gocobj/read.go:149-168 | a GC-map record decodes to itself |
| `FuncSections.BackInl` | internal/gocobj/read.go:170-185 | an inline-tree record decodes to itself |
| `FuncRecords.BackStub` | internal/gocobj/read.go:190-206 | a function record decodes to its fields, those newer than the minor version dropped |
| `FuncRecords.WriteFunc` | internal/gocobj/write.go:55-117 | one function's tables, GC map and inline tree go to their sections, its own record with their offsets plus one |
| `FuncRecords.WriteSections` | internal/gocobj/write.go:49-117 | the writer's loop produces the specified sections |
| `FuncRecords.SectionsRoundTrip` | internal/gocobj/read.go:118-222 | reading what was written gives back every function with its own tables, GC map and inline tree through the three cross references |
| `FuncRecords.RestoredIff` | internal/gocobj/read.go:131-206 | a function comes back unchanged if and only if the minor version carries its fields, its line tables repeat no pc and no list it has is empty (an empty list reads back as none) |
| `HeapCopy.PayloadsApart` | ports/quickjs/host/libc_shim.c:26-38 | two live payloads do not overlap, so a copy between them is forward-safe |
| `HeapCopy.CopyPayload` | ports/quickjs/host/libc_shim.c:219-227 | the memcpy of a moving realloc, whichever strategy its length selects, does to memory what the heap's specification says |
| `StackAddresses.Collect` | llvm/lib/Analysis/StackMap/SafepointAnalysis.cpp:340-367 | each slot's stores and loads are exactly the pointer stores and loads of that alloca word |
| `StackAddresses.Test` | llvm/lib/Analysis/StackMap/SafepointAnalysis.cpp:384-454 | the per-instruction test is the propagation rule |
| `StackAddresses.Pass` | llvm/lib/Analysis/StackMap/SafepointAnalysis.cpp:384-454 | a pass adds only values every closed set contains, and a pass without change leaves a propagated set |
| `StackAddresses.Close` | llvm/lib/Analysis/StackMap/SafepointAnalysis.cpp:380-457 | the inner loop ends with a propagated set |
| `StackAddresses.Round` | llvm/lib/Analysis/StackMap/SafepointAnalysis.cpp:461-486 | a round over the slots in any order adds only such values, and a round without progress leaves every slot done |
| `StackAddresses.StackAddresses` | llvm/lib/Analysis/StackMap/SafepointAnalysis.cpp:340-488 | the result is the least set that contains the static allocas and the given arguments and is closed under propagation and under the slots |
| `StackRuns.ListedCanMove` | llvm/lib/Analysis/StackMap/SafepointAnalysis.cpp:340-488 | every listed value is a stack address on some run of the function |
| `StackRuns.StepListed` | llvm/lib/Analysis/StackMap/SafepointAnalysis.cpp:384-454 | whatever an instruction computes from listed words, a stack address among its results is listed: through GEPs, casts, phis, selects, calls that were handed one, and loads |
| `StackRuns.RunListed` | llvm/lib/Analysis/StackMap/SafepointAnalysis.cpp:340-488 | on every run on which no unfollowed instruction gives a stack address, every stack address is listed and every slot that holds one is fed |
| `StackRuns.CoversIff` | llvm/lib/Analysis/StackMap/SafepointAnalysis.cpp:340-488 | everything that is ever a stack address is listed, if and only if the function has no dynamic alloca, no phi or select that mixes listed with other values, no inline assembly handed a listed value and no pointer load from elsewhere |
| `StackAddresses.LeastIsUnique` | llvm/lib/Analysis/StackMap/SafepointAnalysis.cpp:340-488 | so it does not depend on the order of slots or instructions |
| `Relocations.TextTargetStands` | internal/convert/convert.go:179-206 | the function that holds the byte, else the next function with a negative offset; none exactly when neither exists |
| `Relocations.ResolveText` | internal/convert/convert.go:179-206 | both searches give that place |
| `Relocations.StandsOnce` | internal/convert/convert.go:179-206 | for functions in order there is only one such place |
| `Relocations.TargetRefers` | internal/convert/convert.go:256-289 | the target found is the place of the byte the relocation refers to, and there is none exactly when that byte has no place |
| `Relocations.ResolveTarget` | internal/convert/convert.go:256-289 | the source's branches give that target |
| `Relocations.DistanceKeptIff` | internal/convert/convert.go:273-280 | a reference keeps its distance from its function under every placement if and only if it ends in that function or in the padding right before it |
| `Relocations.ImageWidth` | internal/convert/relocmap.go:40-53 | the bytes the linker writes are those of the ELF field, eight or four, and no other byte changes |
| `Relocations.DataReloc` | internal/convert/data.go:186-220 | refused exactly if its target has no place or its type is a GOT form or unknown; else the bytes of the field, eight or four, are those of S + A - P or S + A for every placement, and no other byte changes |
| `Relocations.Locate` | internal/convert/data.go:172-175 | the search finds the last table at or before the entry |
| `Relocations.TableEntry` | internal/convert/data.go:171-204 | refused exactly if no table starts before it or its case is outside the table's function; else table plus entry is the case's address for every placement if and only if table and entry are in one data symbol |
| `Relocations.DataRelocs` | internal/convert/data.go:166-220 | a data section gets one Go relocation per ELF relocation, in order, each right; none at all exactly if one is refused |
| `RelocText.Got.Slot` | internal/convert/convert.go:291-307 | refused exactly if the references so far and this one clash over names; else the word of the target, holding the first target of that name and addend |
| `RelocText.TextReloc` | internal/convert/write.go:170-200 | refused exactly if the relocation is bad or its word clashes; else the four bytes the Go linker writes are those of S + A - P or S + A for every placement, or reach its GOT word, and it is a call exactly where the tables list one |
| `RelocText.FnRelocs` | internal/convert/write.go:159-200 | a function gets exactly one Go relocation per ELF relocation it holds, in order; none exactly if one is bad or the words clash |
| `RelocText.TextRelocs` | internal/convert/write.go:149-200 | the same over all text sections and functions; every GOT reference reads its own target if and only if no two agree in name and addend and differ in ABI |
| `RelocText.ClashGrows` | internal/convert/convert.go:298-301 | a clash of GOT names does not go away with more references |
| `RelocText.AddressHeld` | internal/convert/convert.go:303-305 | a GOT word holds all eight bytes of its target's address |
| `RelocText.OwnTargetIff` | internal/convert/convert.go:291-307 | every reference gets its own target if and only if no two agree in name and addend and differ in ABI |
| `RelocText.OwnWords` | internal/convert/convert.go:291-307 | so it is for the words the relocations of a whole translation go through |
| `RelocText.SharedSlot` | internal/convert/convert.go:294-297 | two ABIs of one name: the second reference gets the first one's word |
| `RelocText.TwoAddendsClash` | internal/convert/convert.go:294-301 | two addends on one symbol cannot be translated: keys differ and the words' names do not |
| `RelocText.GotAddend` | internal/convert/convert.go:256-262 | the slot holds the symbol's own address if and only if the addend is -4 |
| `GoSymbols.Traverse` | internal/goobj/write.go:24-55 | the loop visits text then data, each with its relocations, auxiliary symbols and pc tables as the flags ask |
| `GoSymbols.RootVisited` | internal/goobj/write.go:24-55 | the two traversals visit every root, every relocation target and every pc table |
| `GoSymbols.FuncVisited` | internal/goobj/write.go:57-88 | and every funcdata, DWARF and inlined symbol, with the targets of DWARF relocations |
| `GoNumbers.Numbering.Define` | internal/goobj/write.go:118-141 | a definition gets the next number of the block its own fields ask for: content-addressable and small, content-addressable, exported or static; refused exactly if it is content-addressable and no pc table |
| `GoNumbers.Numbering.Refer` | internal/goobj/write.go:145-160 | a numbered symbol keeps its number; else it gets its builtin's exactly if it has one, and else the next number after all definitions without package; refused exactly if content-addressable |
| `GoNumbers.BuiltinIdx` | internal/goobj/write.go:97-111 | the last builtin of the name, if its ABI matches where wrappers exist |
| `GoNumbers.Numbering.Number` | internal/goobj/write.go:113-162 | both traversals, as one function of the link |
| `GoNumbers.NumberedExactly` | internal/goobj/write.go:113-162 | each block holds its definitions in the order of the visits; which block, builtin or number each symbol has; numbering is refused exactly for an undefined content-addressable reference or a content-addressable definition that is no pc table |
| `GoNumbers.BlocksByFields` | internal/goobj/write.go:118-141 | exported symbols are the definitions without package, static ones the package's own, content-addressable ones go by size, relocations and kind |
| `GoNumbers.Numbering.FuncInfos` | internal/goobj/write.go:163-208 | FuncInfo contents with the numbers known at that point; FuncInfo and DWARF symbols become definitions of the package |
| `GoNumbers.InformedOwns` | internal/goobj/write.go:163-208 | exactly those are added, after all other definitions, and every other number stays |
| `GoNumbers.InfosWritten` | internal/goobj/write.go:163-208 | FuncInfo k says what function k has |
| `GoNumbers.FinalResolves` | internal/goobj/write.go:113-208 | every number leads to its own symbol, repeated visits and renumbering included |
| `GoNumbers.ReaderFinds` | internal/goobj/diff.go:60-90 | the position a reader computes from a reference holds the symbol's own record |
| `GoNumbers.ReferencesAreOwn` | internal/goobj/write.go:113-162 | two symbols share a reference only as the same builtin |
| `GoObject.WriteIndex` | internal/goobj/write.go:349-376 | the index block holds the running counts |
| `GoObject.WriteRecords` | internal/goobj/write.go:377-410 | the records of all symbols stand one after another |
| `GoObject.RelocBack` | internal/goobj/read.go:136-145 | a relocation record decodes to itself |
| `GoObject.AuxBack` | internal/goobj/read.go:148-156 | an auxiliary record decodes to itself |
| `GoObject.InfoBack` | internal/goobj/read.go:201-235 | a FuncInfo with its files and inline tree decodes to itself in both layouts |
| `GoObject.RecordsBack` | internal/goobj/read.go:130-156 | an index block finds exactly symbol i's records |
| `GoFile.WriteFile` | internal/goobj/write.go:265-425 | strings, blocks, and offsets patched into the header give exactly the specified file; refused exactly if the end is not the last block |
| `GoFile.EmitBlocks` | internal/goobj/write.go:314-412 | each block's offset is where its contents begin |
| `GoFile.OffBack` | internal/goobj/read.go:74-82 | the header gives every block's offset back |
| `GoFile.SizesBack` | internal/goobj/read.go:83-86 | differences of offsets give the number of symbols in each of the five blocks |
| `GoFile.SymBack` | internal/goobj/read.go:109-113 | symbol record i, through all blocks, is read back with its name |
| `GoFile.RelocsBack` | internal/goobj/read.go:130-145 | the relocations of symbol i are read back from the header on |
| `GoFile.AuxsBack` | internal/goobj/read.go:148-156 | so is its auxiliary list |
| `GoFile.ContentsBack` | internal/goobj/read.go:159-163 | so are its contents |
| `GoFile.FilesBack` | internal/goobj/read.go:122-128 | so is the file table |
| `GoFile.OpenBack` | internal/goobj/read.go:51-76 | the reader finds the object behind the text header |
| `GoOrder.StableSorted` | internal/goobj/write.go:380-382 | sorting puts offsets in order and keeps relocations of one offset in their order |
| `GoWrite.WriteLink` | internal/goobj/write.go:263-425 | an object is refused exactly if it cannot be numbered, a record has no kind, a content-addressable symbol has relocations or a relocation type is unknown; else the bytes are the specified file |
| `GoRead.TargetNumbered` | internal/goobj/write.go:210-218 | every relocation target written has a number |
| `GoRead.AuxNumbered` | internal/goobj/write.go:432-460 | every auxiliary reference written has a number |
| `GoRead.InlNumbered` | internal/goobj/write.go:185-193 | every inlined function has a number when its FuncInfo is written |
| `GoRead.NameAdded` | internal/goobj/write.go:303-332 | every name that is referred to was put into the string table |
| `GoRead.ResolveFinds` | internal/goobj/diff.go:73-90 | package word and number lead through the block sizes to the symbol's position, or to its builtin |
| `GoRead.SymbolComesBack` | internal/goobj/read.go:109-163 | every defined symbol returns with record, data, relocations and auxiliary list, and every reference in them leads to the record of the symbol it was written for, or to its builtin |
| `GoRead.InfoComesBack` | internal/goobj/read.go:201-235 | every FuncInfo decodes to what its function says, inlined functions resolved |
| `GoRead.LinkComesBack` | internal/goobj/read.go:109-235 | all of this for every symbol, number, function and file of the link |
| `GoRead.WriteThenRead` | internal/goobj/write.go:263-425 | writing then reading an object is faithful, from the link to the resolved references |
| `GoLinker.NamedIff` | internal/goobj/write.go:133-135 | a reference from another object by name and ABI finds a definition if and only if the link exports one |
| `GoLinker.RecordSays` | internal/goobj/write.go:462-530 | every symbol record says what the symbol has, field by field; static symbols have the hidden ABI |
| `GoLinker.ContentsAre` | internal/goobj/write.go:405-410 | every defined symbol has its own contents |
| `GoLinker.AuxByType` | internal/goobj/write.go:432-460 | a function has of each auxiliary type exactly its own symbols, empty ones left out where the source does |
| `GoLinker.ReferredOnly` | internal/goobj/write.go:24-88 | the traversal of references visits nothing else than what the roots mention |
| `GoLinker.MarkerTrimmed` | internal/goobj/write.go:567-577 | a name loses its inline marker and nothing else |
| `GoLinker.OtherKept` | internal/goobj/write.go:567-577 | any other name stays |
| `GoFormat.RelocLayout` | internal/goobj/read.go:136-145 | offset and width of every field of a relocation record |
| `GoFormat.AuxLayout` | internal/goobj/read.go:148-156 | of an auxiliary record |
| `GoFormat.InfoLayout` | internal/goobj/read.go:201-235 | of a FuncInfo |
| `GoFormat.InlLayout` | internal/goobj/read.go:201-235 | of a node of its inline tree |
| `GoFormat.RecLayout` | internal/goobj/read.go:109-113 | of a symbol record |
| `GoFormat.HeaderLayout` | internal/goobj/read.go:74-82 | of the file header and the block offsets |
| `ObjectFile.BackRow` | internal/gocobj/read.go:109-262 | file, relocation, stack-map and data records decode to themselves |
| `ObjectFile.RowsRoundTrip` | internal/gocobj/read.go:109-262 | so do whole sections of them |
| `ObjectWrite.TableReads` | internal/gocobj/write.go:24-34 | the table of all names, in the order the writer meets them, reads every one of them |
| `ObjectWrite.HeaderBack` | internal/gocobj/read.go:45-74 | the 28-byte header is read back with its two names |
| `ObjectWrite.HeaderLayout` | internal/gocobj/read.go:45-60 | offset and width of every field of the header |
| `ObjectWrite.ObjectRoundTrip` | internal/gocobj/read.go:25-264 | reading the file of an object gives back the header and every file, function, relocation, stack map and data record with its names as strings |
| `ObjectWrite.WriteObject` | internal/gocobj/write.go:23-166 | the bytes written, as a function of the object: every name replaced by its offset in the one table of all names |

## Left out

- The forward dataflow loop of the frame pass need not stop, since its transfers are not monotone: `FrameProgram.Dataflow.Analyze` takes a number of rounds, and the theorems are about stable states.
- Register units: each 64-bit register is one cell, so writes to part of a register are "other" instructions here.
- Diagnostics of the frame pass: origins of tainted values, the text and mode of its reports, statistics and traces. What it reports is `FrameRepair.Reported`.
- Block splitting and insertion points of the frame pass: the repair is a list of instructions after the call.
- SSAUpdater: reload rewriting is taken to read the most recent definition on the path, which is what SSA construction provides.
- Frame-address rematerialisation and root recording.
- The stack check's choice of nosplit leaves, its trap after the last block and the arm64 check.
- Concurrent use of the heap: the shim is single-goroutine by its own statement.
- memset, string and file functions of the libc shim; calloc's clearing is a specification on bytes.
- A second free of a block that was merged away in between: its header is no longer part of the heap.
- C-to-Go stubs: they use another move order, and the theorem is about the Go-to-C direction.
- Parsing of LLVM IR, Go type names, assembler text and JSON: types and tables are data here.
- AbiLayout.AggregateLayout: the refusal of a field that crosses an eightbyte is not in the method, because `AbiLayout.AlignedStaysInside` shows it cannot happen.
- ThunkTables.LocalsBitmap: bitmaps are sequences of bits, not of bytes.
- PcTable.PcBytes: entries are in pc order; what the encoder does with entries out of order has no meaning as a step function.
- ObjectWrite.WriteObject: sections are sequences of bytes, not parts of an ELF file; symbols and relocations of the ELF file and the wrapper section, which this writer does not write, are not in it.
- RelocText.TextReloc: amd64 only; the arm64 forms patch instruction halves. How C names map to Go names is a parameter, and so are the call lists of the tables.
- Relocations.DataRelocs: the table starts are given in order with their owners; a relocation is a table entry by its own type, while the source goes by offset, so two relocations at one offset are not covered.
- GoWrite.WriteLink: a symbol's kind, flags, alignment, its content hash and the contents of DWARF symbols are given; the release's list of blocks names every block once.
- Everything that runs processes or touches files.
