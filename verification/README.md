# embwasm: verified model

embwasm interprets WebAssembly on microcontrollers. Its interpreter loop makes no bounds checks of its own: it trusts
numbers and tables that the loader computed, and everything it allocates comes from one static pool. This project models
the parts that trust rests on and proves that it is justified, or says exactly when it is not.

**Loader and interpreter** (`leb128.dfy` to `safety.dfy`, `values.dfy`, `programs.dfy`). `Bytecode` has the syntax of function bodies as a tree and as
bytes; immediates keep any legal LEB128 form. `Structured` is the reference semantics in the style of section 4.4.8 of
the WebAssembly Core Specification 2.0: each block runs on operands of its own, a branch is an outcome, and nothing is
known of bytes, labels or offsets. `Flat` is the interpreter as a transition system over bytes, with one value stack for
all frames, label slots, and a jump table; an access the code makes without a test is a `Fault` when it leaves its
buffer. `Loader` is the code of the two validation passes, `Interpreter` the code of the dispatch loop on its arrays. The
chain of results is: the code of the passes computes `ScanBody` (`ValidateFunctionBody`), also on bytes that encode nothing as
long as no immediate is too long (`Lockstep`), which on well-encoded bodies is the tree's own nesting depth, jump table and stack height (`PassesAgree`, `AcceptedExactly`); an accepted, valid program is
therefore laid out as the machine expects (`AcceptedIsLoaded`); the machine simulates the structured semantics step for
step, in good states only (`InvocationSimulated`), and, being deterministic, ends nowhere else (`MachineEndsAsStructured`,
`ReachableStatesAreGood`); the loop on arrays, interrupted at any yield, does what the machine does (`RunLoop`,
`RunThrough`); `RunFunction` is the whole chain in one contract. Validity is section 3.3 of the WebAssembly Core Specification 2.0 on the level of
stack heights, since heights are all the code looks at. The instructions are nop, unreachable, block, loop, if, else, end,
br, br_if, br_table, return, call of local and host functions, drop, select, the local and global variable instructions,
i32.const, i32.eqz, the ten comparisons of 32-bit integers, and i32.add, sub, mul, div_s, div_u, rem_s and rem_u. `Values` says in
plain arithmetic what they compute; `Programs` runs two programs of the test suite, in 32 bits, for every argument. A host is any function from the calls made so far to
an answer; it may answer, fail, or, without results, yield.

**Memory pool** (`blocks.dfy`, `pool.dfy`, `rawfree.dfy`, `strayfree.dfy`). A heap is a sequence of blocks; the class keeps size words, physical
predecessors and free-list links in arrays indexed by header address, and each method ties them to that sequence. The
header size, the alignment and the width of the size word are parameters. `RawFree` is the release on any words and any
pointer; the class's `Free` computes it, and `StrayFree` says what it does to a pointer that starts no block.

**Shared memories and tables** (`sharing.dfy`, `requests.dfy`). Every module has its own copy of pointer, size and capacity; the invariant
speaks of all copies, all live buffers, what was written in them and all buffers ever freed, over every run of loads, links,
instantiations, growths and unloads. `Requests` says what room an array has whose size wraps in the machine's word.

**Scheduler** (`rings.dfy`, `schedule.dfy`, `rounds.dfy`, `wakeups.dfy`, `scheduler.dfy`). `Schedule` has the operations on values and their
properties, `Rounds` how the run loop ends and what one round does, `Wakeups` what whole runs of dispatches do to one thread; the class `Scheduler` has the thread table and the
intrusive circular lists as link arrays and refines it. A dispatch, from the ready list to the requeue, is one step; what the thread does meanwhile is an arbitrary list of actions
followed by the way it gives up the processor.

**Guest heap** (`guestheap.dfy`). malloc, free and realloc over one byte array that holds headers and payloads alike.

**Tools** (`callgraph.dfy`, `stackpath.dfy`, `wit.dfy`, `hostslots.dfy`, `witparser.dfy`, `witreader.dfy`, `hostlookup.dfy`). The worst-case
stack analyser, the WIT parser, the dispatch generator as functions from types to lists, the meaning of each operand slot of a
host call, and the generated lookup.

**Module sections** (`sectionbuffers.dfy`, `sections.dfy`, `refusals.dfy`, `overreads.dfy`, `moduleparser.dfy`). The counting pass, the
requests for the buffers, and the filling pass over a module's type, import, function, table, memory, global, export, element,
code and data sections. Bytes that the filling pass reads without a test are the next ones of the binary, also behind the end
of a section, and an `Overrun` behind the binary; so is a write behind the room that a buffer really has. Word width, alignment
and element sizes are parameters; the pool is taken to grant every request that does not come out empty.

## What does not hold

Fifteen promises fail in the code; the model keeps the code's behaviour and says when they hold, in both directions unless a
line says otherwise.

- A branch to a function's own label jumps behind the last byte of the body and the next opcode is fetched there
  (`Safety.BranchOutRunsOff`). The machine does this exactly when the structured run takes such a branch
  (`Execution.MachineEndsAsStructured`), and never in a program whose branches stay inside blocks
  (`Safety.InvokeStays`), which can be read off the bodies.
- A callee's locals are zeroed before its capacity is tested. The machine overruns exactly when the structured run finds too
  little room for the locals; for programs as above that is the only fault left (`Safety.OnlyLocalsOverrun`).
- The first frame is not tested against its operand depth: it is started although a call would refuse it if and only if that
  depth does not fit and everything else does (`Safety.FirstFrameTest`). The safety theorems start from frames that fit, which
  are the started ones with room (`Safety.LaunchableIsRoom`).
- The validator forgets at every `end` that the enclosing code is unreachable, so it rejects some valid bodies
  (`Acceptance.DeadBlockRejected`); and it counts too few operands for some instructions, so it accepts some invalid ones
  (`Acceptance.UnderfedAccepted`). Which bodies it accepts is decided exactly, for all well-encoded ones
  (`Acceptance.AcceptedExactly`) and for those the specification types (`Acceptance.StrictAccepted`): the limits, and what
  follows blocks nested in dead code. Which accepted ones are valid is not characterised; the safety theorems ask for both.
- The validator sizes its buffers in a first pass that skips an immediate up to its terminator, while the main pass decodes at
  most five bytes. As long as no longer immediate is met the buffers suffice (`Lockstep.BuffersSuffice`), and at each opcode
  with one immediate the passes stay aligned if and only if it is not longer (`Lockstep.StepAligned`); behind one the main pass
  can write more entries than were counted (`Lockstep.OverlongOverruns`).
- The filling pass reads behind the binary if and only if an entry that it reaches starts too close to the binary's end
  (`Overreads.FillingOverruns`), for instance on the three bytes of `Overreads.EmptyMemoryOverruns`; a memory section does if
  and only if it announces more entries than it has and than bytes follow (`Overreads.MemorySectionOverruns`). Well-formed
  modules never do (`Overreads.WellFormedStays`). Behind a section but inside the binary foreign bytes are taken for entries.
- The sizes of arrays are products in the machine's word, and the array has room if and only if neither product nor rounding
  wrap (`Requests.RoomExact`, `SectionBuffers.AllExact`). With words of 32 bits seven bytes of a function section or twelve of
  an element section make the filling pass write behind a buffer (`Overreads.WrappedFunctionsOverrun`,
  `Overreads.WrappedElementOverruns`), and `table.grow` by 2^30 + 1 does too (`Sharing.WrappedGrowthSpills`). It cannot happen
  to well-formed modules whose length times the largest element fits the word.
- Rounding a request up wraps, in the pool (`Pool.RoundingCovers`, `Pool.PayloadCovers`) and in the guest heap
  (`GuestHeap.Round8Bounds`): the request is covered if and only if the sum does not pass the word. The guest's payloads are
  aligned to 4 bytes; to 8 exactly behind an odd number of blocks of odd size (`GuestHeap.PayloadAlignment`).
- The pool's only tests of a released pointer are its range and the flag in front of it. A release that they ignore changes
  nothing and one of a used block keeps the heap (`Pool.MemoryPool.Free`). Any other leaves the pool or its heap broken, except
  perhaps when the bytes in front of the pointer name a free block as their predecessor (`StrayFree.StrayBreaks`); then it can
  even succeed (`StrayFree.ImitationSucceeds`), and no exact condition is given. One allocation and a cleared payload are enough
  to break it (`StrayFree.StrayRun`).
- A notification that wakes the dispatched thread between its wait and its requeue puts it on the ready list twice, and only
  that one does (`Schedule.NotifyBeforeRequeue`). A new guest thread's waits go by the id in its slot. Its first wait blocks if
  and only if the slot was empty and the memory granted for it clear, or the slot has an id and no pending notification
  (`Wakeups.NewThreadWaits`, `Wakeups.FirstWaitOfNewThread`). A notification of a thread that has ended leaves one there
  (`Wakeups.StaleNotification`); destroying a host thread takes the id away, and the next guest thread in its slot is told the
  id 0 and never waits for anything (`Wakeups.DestroyedSlotHasNoId`, `Scheduler.Scheduler.CreateThread`).
- A memory declared with maximum 0 grows as if it had none (`Sharing.ZeroMaximumIsNone`). Growing a memory that has no buffer
  gives the new one to every module without a memory buffer; the invariant survives if and only if there is no other
  (`Sharing.GrowMemorySafe`, `Sharing.UninstantiatedGrowthAliases`). Such a memory is left behind when instantiation stops at an
  error of an earlier module, after which the module can still be executed.
- A table import that guest code has grown before it was linked is overwritten by the link, and its buffer loses its owner
  (`Sharing.LateExporterOverwrites`); a table that is grown before it is instantiated keeps entries that nobody wrote
  (`Sharing.EarlyGrowthUnset`). These, the shared growth above and a buffer that is too small are all that can go wrong in a run
  (`Sharing.RunKeeps`).
- The generator does not declare the memory base when only options, tuples and results need it
  (`HostCodegen.UndeclaredMemory`).
- It pushes one value for a result. That is what the checked signature says if and only if the result has one slot, which is a
  number or a 32-bit integer (`HostSlots.ResultFits`); a string has two (`HostSlots.StringResultDoesNotFit`).
- The variables it declares for one parameter have different names (`HostSlots.VariablesDiffer`), but two parameters can share
  one (`HostSlots.ParametersCollide`); when they do is not characterised.

## Model

| member | source | states |
|---|---|---|
| Leb128.DecodeVarUint32 | src/wasm_engine.cpp:162-183 | on any bytes, the value is the group sum modulo 2^32 of exactly the bytes up to a terminator, the limit or five bytes |
| Leb128.DecodeVarInt32 | src/wasm_engine.cpp:185-215 | the same, sign-extended from the last byte's bit 6, as a 32-bit two's complement value |
| Leb128.DecodeVarInt64 | src/wasm_engine.cpp:217-248 | the same for 64 bits and ten bytes |
| Leb128.DecodeVarUint32Fast | src/wasm_engine.cpp:251-263 | with a terminator or five bytes in reach, value and length are those of the bounds-checked decoder |
| Leb128.DecodeVarInt32Fast | src/wasm_engine.cpp:265-281 | the same for signed 32-bit values |
| Leb128.DecodeVarInt64Fast | src/wasm_engine.cpp:283-314 | the same for signed 64-bit values and ten bytes |
| Leb128.TakenIgnoresRest | src/wasm_engine.cpp:162-314 | both kinds of decoder stop at the same byte whenever a terminator or the maximum length lies before the limit |
| Leb128.SkipLebBytes | src/wasm_engine.cpp:1246-1249 | the cursor ends behind the first terminator, or at the limit |
| Leb128.SkipMatchesDecoders | src/wasm_engine.cpp:1246-1249 | on a legal encoding the skipper and the decoders stop at the same byte, its end |
| Leb128.RoundTripU32 | src/wasm_engine.cpp:162-183 | every unsigned 32-bit integer has a legal encoding of at most five bytes that decodes to it |
| Leb128.RoundTripS32 | src/wasm_engine.cpp:185-215 | the same for every signed 32-bit integer |
| Leb128.RoundTripS64 | src/wasm_engine.cpp:217-248 | the same for every signed 64-bit integer in ten bytes |
| Bytecode.EmitEncodes | src/wasm_engine.cpp:1380-1934 | every well-formed instruction tree has bytes that are a well-encoded body for it, so theorems on well-encoded bodies speak of all trees |
| Validity.InvokeSound | src/wasm_engine.cpp:1386-1934 | a call of a valid program with the right number of arguments never gets stuck and returns as many results as its type says |
| Loader.CountLabels | src/wasm_engine.cpp:1300-1367 | the counting loop yields the maximum nesting and the number of block and if opcodes of the first pass, or rejects |
| PreScan.PreCounts | src/wasm_engine.cpp:1300-1367 | on a well-encoded body the first pass finds one more than the tree's nesting depth and exactly its jump table's length, and rejects exactly when that depth passes the limit |
| PreScan.SkipsOthers | src/wasm_engine.cpp:1300-1367 | the first pass skips exactly the legal immediates of the opcodes that are not followed otherwise: two, one, a vector, or a fixed number of bytes |
| PreScan.SkipsBulk | src/wasm_engine.cpp:1352-1362 | the same for the instructions behind 0xFC, by their second number |
| ScanProof.ScanCode | src/wasm_engine.cpp:1401-1484 | the main pass over any nested sequence stays inside its buffers, lands behind the sequence with the same labels, and appends exactly the tree's table |
| ScanProof.TableSorted | src/wasm_engine.cpp:1947-1957 | the tree's jump table is strictly increasing in body offset |
| ScanProof.LookupSorted | src/wasm_engine.cpp:2909-2921 | in a strictly increasing table each body offset finds its own entry |
| PreScan.PassesAgree | src/wasm_engine.cpp:1300-1957 | for every well-encoded body the first pass's counts are the main pass's label depth and entry count, and the recorded table is the tree's: each `end` and `else` offset one past its matching opcode |
| Loader.BodyScanner.Scan | src/wasm_engine.cpp:1380-1934 | the scanning loop on its arrays computes the pass, never leaving buffers that fit it |
| Loader.ValidateFunctionBody | src/wasm_engine.cpp:1266-1957 | wherever the buffers sized by the first pass suffice it succeeds exactly when both passes do, and records the pass's label and stack depth and as many table entries as were counted; on well-encoded bodies these are one more than the nesting and the tree's table |
| Loader.WhenBuffersHold | src/wasm_engine.cpp:1300-1934 | they suffice on every well-encoded body and on all other bytes on which no immediate met is too long; on one body with such an immediate they do not |
| Lockstep.StepAligned | src/wasm_engine.cpp:1300-1367 | at every opcode the main pass gets over, both passes go on at the same byte if no immediate is longer than five bytes; for opcodes with one immediate only then |
| Lockstep.BuffersSuffice | src/wasm_engine.cpp:1300-1934 | on any bytes in which the main pass meets no such immediate it stays within the label and jump buffers, and fills the table when it accepts |
| Lockstep.OverlongOverruns | src/wasm_engine.cpp:1300-1484 | on `02 40 0B 41 80 80 80 80 80 02 40 0B 0B` the first pass counts one entry and the main pass writes two |
| Acceptance.AcceptedExactly | src/wasm_engine.cpp:1266-1957 | every well-encoded body, valid or not, is accepted if and only if all indices are in scope, operands suffice wherever the pass takes the code for alive, and nesting and greatest height keep the limits; the recorded depths are the tree's |
| Acceptance.StrictIsValid | src/wasm_engine.cpp:1252-1265 | bodies typed by section 3.3 also in dead code are valid where they can be reached, and all their indices are in scope |
| Acceptance.StrictAccepted | src/wasm_engine.cpp:1266-1957 | such a body is accepted if and only if it keeps the limits and what follows blocks nested in dead code finds its operands, counted from the block's entry and results; without such blocks the limits alone decide |
| Acceptance.DeadBlockRejected | src/wasm_engine.cpp:1473-1484 | `unreachable block end drop` is typed by section 3.3 and within the limits, and is rejected because it fails exactly that condition |
| Acceptance.UnderfedAccepted | src/wasm_engine.cpp:1723-1800 | the body `i32.eqz`, which has no operand, is accepted and not valid |
| Acceptance.OperandsWanted | src/wasm_engine.cpp:1386-1934 | a body of k constants and one instruction is accepted if and only if k is at least one for drop, the variable sets, binary instructions, br_if and br_table, two for select, the parameters for a call, and anything for the others |
| Acceptance.BlockOperandsWanted | src/wasm_engine.cpp:1401-1472 | the same for blocks and loops, which want their parameters, and an if, which wants its condition |
| LoadedBody.ScanLaid | src/wasm_engine.cpp:1386-1484 | every offset the pass visited carries the height and label depth that validity gives it, and every block and if finds its entry |
| PreScan.AcceptedIsLaid | src/wasm_engine.cpp:1935-1957 | a valid, accepted body is laid out as the interpreter expects it |
| Loader.FindBlockJump | src/wasm_engine.cpp:2909-2921 | binary search finds the entry of a body offset exactly when a strictly increasing table has one |
| Loader.AcceptedIsLoaded | src/wasm_engine.cpp:1935-1957 | a program of valid, well-encoded, accepted bodies satisfies everything the simulation assumes |
| Simulation.CloseNest | src/wasm_engine.cpp:3259-3270 | `end` of a block, or `else` reached from the then arm, drops the label and leaves the results on what lies under the block |
| Simulation.BranchEffect | src/wasm_engine.cpp:2925-2935 | unwinding in place keeps everything under the target and moves the branch values down |
| Simulation.SimJump | src/wasm_engine.cpp:3271-3353 | an opcode that takes a branch simulates the structured branch: values, locals, target label and pc |
| Simulation.SimBlock | src/wasm_engine.cpp:3175-3213 | from a block opcode to behind its `end`, all outcomes of the structured block are reached |
| Simulation.SimIterate | src/wasm_engine.cpp:3175-3213 | all iterations of a loop, restarted through its label, reach the structured loop's outcome |
| Simulation.SimArm | src/wasm_engine.cpp:3214-3258 | an if whose condition picks an arm runs that arm on no operands and reaches the structured outcome |
| Simulation.CallEffect | src/wasm_engine.cpp:2939-2994 | the tests of a call in the code's order: frames, locals (an overrun), operands, labels; else the callee's frame with arguments in place and zeroed locals |
| Simulation.SimCall | src/wasm_engine.cpp:3391-3433 | a call, to its return, trap or overrun, reaches the structured call's outcome in the caller |
| Simulation.Sim | src/wasm_engine.cpp:3165-3389 | for every valid, loaded sequence and every structured outcome, the machine reaches the corresponding state through good states only |
| Execution.InvocationSimulated | src/wasm_engine.cpp:3012-3095 | an invocation whose first frame fits is simulated from its first opcode to the empty call stack |
| Execution.ReachableStatesAreGood | src/wasm_engine.cpp:2939-2994 | in every reachable state that can go on or traps, operand height and label depth are the scan's at that ip, sp is within the stack, labels within the frame's slice, and the label pool's top is the sum of the live frames' capacities |
| Execution.MachineEndsAsStructured | src/wasm_engine.cpp:3165-3433 | when the machine stops, it returned, trapped or faulted exactly as the structured run does, with the same values, code or cause |
| Execution.MachineRefinesSpecification | src/wasm_engine.cpp:3165-3433 | whatever the machine returns, the unbounded specification returns, above the caller's untouched slots |
| Values.Compares | src/wasm_engine.cpp:3730-3777 | the ten comparisons leave 1 if the signed or unsigned relation holds, else 0 |
| Values.Wraparound | src/wasm_engine.cpp:3903-3925 | i32.add, sub and mul leave the 32-bit value congruent to sum, difference and product |
| Values.DivisionTraps | src/wasm_engine.cpp:3926-3944 | a division or remainder traps for a zero divisor exactly, and i32.div_s for overflow exactly with -2^31 and -1 |
| Values.Divides | src/wasm_engine.cpp:3926-3935 | i32.div_s is the quotient that leaves less than the divisor with the dividend's sign; i32.rem_s is what it leaves |
| Values.DividesUnsigned | src/wasm_engine.cpp:3936-3944 | i32.div_u and i32.rem_u are quotient and remainder of the unsigned readings |
| Values.Unique | src/wasm_engine.cpp:3903-3944 | these conditions are met by one value only |
| Values.MachineBinary | src/wasm_engine.cpp:3730-3960 | a binary opcode takes the two top slots in order and leaves its result on what lies under them, or traps |
| Values.MachineValues | src/wasm_engine.cpp:3507-3727 | i32.eqz, drop, select and i32.const on the stack |
| Values.MachineVariables | src/wasm_engine.cpp:3533-3553 | a local reads what was last set in it, other locals keep theirs, and local.tee is a set that leaves its operand |
| Values.MachineGlobals | src/wasm_engine.cpp:3554-3568 | the same for globals |
| Values.StructuredBinary | src/wasm_engine.cpp:3730-3960 | the structured semantics computes the same binary results |
| Values.StructuredValues | src/wasm_engine.cpp:3507-3727 | and the same for i32.eqz, drop and select |
| Values.BlockTypes | src/wasm_engine.cpp:3178-3190 | a block type written as a value type has one result, the empty one none, and an index the type's parameters and results |
| Programs.WhileIsFactorial | test/core/official_test_wasm/core/loop.wast:356-368 | the loop, in 32 bits and for every argument, returns the factorial of its unsigned reading, or the fuel was less than that |
| Programs.MachineWhile | test/core/official_test_wasm/core/loop.wast:492-497 | the machine, if it ends on that function, leaves that factorial on the caller's slots |
| Programs.RecursiveIsFactorial | test/core/official_test_wasm/core/fac.wast:3-10 | the same for the recursion |
| Programs.MachineRecursive | test/core/official_test_wasm/core/fac.wast:102-107 | and for the machine on it |
| Bounded.InvokeAgrees | src/wasm_engine.cpp:2939-2994 | with bounded stacks a run has the specification's outcome unless it stops for lack of frames, slots or labels or leaves a buffer |
| Safety.InvokeStays | src/wasm_engine.cpp:2986-2993 | no call of a program without branches to function labels runs past the end of a body |
| Safety.OnlyLocalsOverrun | src/wasm_engine.cpp:2966-2972 | for such programs the only fault of any reachable state is the zeroing of a callee's locals, and it occurs exactly when the structured run lacks room for them |
| Safety.BranchOutRunsOff | src/wasm_engine.cpp:2986-2993 | the accepted, valid body `br 0` returns in the specification and fetches behind its code in the machine |
| Safety.FirstFrameTest | src/wasm_engine.cpp:3040-3085 | for all functions and stacks: the first frame is started although a call would refuse it if and only if the operand depth does not fit and everything else does; with room both start the same frame |
| Safety.LaunchableIsRoom | src/wasm_engine.cpp:3040-3085 | of a loaded program exactly the started frames with room are those from which runs are safe |
| Safety.FirstFrameNotTested | src/wasm_engine.cpp:3040-3065 | an accepted body of that kind, started on a stack without a slot, writes past it |
| Interpreter.StackUnwind | src/wasm_engine.cpp:2925-2934 | the slots under the target stay and the carried values follow them, also when the ranges overlap |
| Interpreter.ThreadContext.PushCallFrame | src/wasm_engine.cpp:2939-2994 | the new state is the machine's after a call, or its trap with the stacks restored |
| Interpreter.ThreadContext.If | src/wasm_engine.cpp:3214-3258 | the effect of `if`: condition popped, label pushed, and the jump to else or end taken from the table |
| Interpreter.ThreadContext.Branch | src/wasm_engine.cpp:3271-3308 | a taken branch unwinds the stack, drops the inner labels and jumps |
| Interpreter.ThreadContext.ChooseTarget | src/wasm_engine.cpp:3309-3353 | the decoding loop of br_table yields the machine's target for every operand |
| Interpreter.ThreadContext.CallHost | src/wasm_engine.cpp:3409-3424 | arguments popped and logged; answer pushed, or registers written back on a yield, or the host's error |
| Interpreter.ThreadContext.Dispatch | src/wasm_engine.cpp:3165-3433 | one opcode on the arrays and cached registers is one step of the machine |
| Interpreter.ThreadContext.RunFrame | src/wasm_engine.cpp:3155-3166 | the inner loop follows the machine until the frame changes or the run is done |
| Interpreter.ThreadContext.RunLoop | src/wasm_engine.cpp:3098-3166 | the loop finishes, suspends or traps exactly as the machine's run to its next yield, in the same state |
| Interpreter.ThreadContext.ExecuteInternal | src/wasm_engine.cpp:3012-3095 | a new call starts from the machine's first frame, a suspended one resumes where it yielded |
| Completion.YieldIsTransparent | src/wasm_engine.cpp:3409-3424 | stopping at a yield and going on from the state left behind reaches what the uninterrupted run reaches |
| Completion.OutcomeRuns | src/wasm_engine.cpp:3165-3433 | every structured return or trap is reached after finitely many machine steps |
| Completion.RunThrough | src/wasm_engine.cpp:3155-3163 | re-entering after every yield ends as the uninterrupted run |
| Completion.RunFunction | src/wasm_engine.cpp:3012-3166 | from accepted bytes to values: the code returns the specification's values on the caller's slots with all stacks given back, or the same trap code, whatever yields occur |
| Blocks.AllocateKeeps | src/wasm_memory_pool.cpp:146-173 | handing out a block keeps the tiling and the absence of free neighbours and accounts for its bytes |
| Blocks.FreeKeeps | src/wasm_memory_pool.cpp:200-231 | releasing and merging keeps the tiling and the absence of free neighbours, and gives back exactly the block's bytes |
| Blocks.FreeUndoesAllocate | src/wasm_memory_pool.cpp:117-232 | releasing a block right after its allocation restores the whole heap |
| Blocks.EmptyHeapIsOneBlock | src/wasm_memory_pool.cpp:117-232 | no byte is used if and only if the heap is one free block of full capacity |
| Blocks.Apart | src/wasm_memory_pool.cpp:117-232 | distinct blocks, hence live payloads, do not overlap |
| Blocks.AllocatedExactly | src/wasm_memory_pool.cpp:146-173 | the block handed out is cut to the request exactly when the rest has the least size, and then the rest follows as a free block; all other blocks stay |
| Blocks.FreedExactly | src/wasm_memory_pool.cpp:200-231 | the released block is one with its free neighbours, and all other blocks stay |
| Pool.RoundingCovers | src/wasm_memory_pool.cpp:127-130 | the rounded request covers the request if and only if rounding does not pass the word, and is then the least multiple of the unit that does; otherwise it is 0 |
| Pool.PayloadCovers | src/wasm_memory_pool.cpp:127-173 | a successful allocation is an aligned payload inside its own used block; it covers the request by less than a unit and a header unless rounding wrapped, when it is empty |
| Pool.MemoryPool.Init | src/wasm_memory_pool.cpp:93-108 | the buffer becomes one free block, or none when it cannot hold a header |
| Pool.MemoryPool.InsertFreeList | src/wasm_memory_pool.cpp:66-80 | the block becomes the list's head with all links in both directions consistent |
| Pool.MemoryPool.RemoveFreeList | src/wasm_memory_pool.cpp:66-80 | exactly that element leaves the list, links consistent |
| Pool.MemoryPool.NextBlock | src/wasm_memory_pool.cpp:54-64 | the physical successor, or none at the end of the pool |
| Pool.MemoryPool.Allocate | src/wasm_memory_pool.cpp:117-176 | keeps the invariant (headers and `prev` chain tile the buffer, the free list holds the free blocks once each, no free neighbours, `used_bytes_` exact); null if and only if nothing is asked, the size overflows, or no free block is large enough, and then nothing changes; else the first fit of the list is split as specified |
| Pool.MemoryPool.Free | src/wasm_memory_pool.cpp:178-232 | keeps the invariant; null, foreign pointers and pointers behind a size word that says free change nothing; otherwise the block is merged with both neighbours; afterwards the size word says free; on the words it is the release of `RawFree` |
| Pool.PayloadsFreed | src/wasm_memory_pool.cpp:178-232 | releasing removes exactly its own payload from the live ones |
| Pool.FreeAll | src/wasm_memory_pool.cpp:178-232 | freeing all live payloads in any order leaves one free block of full capacity and no used byte |
| StrayFree.StrayBreaks | src/wasm_memory_pool.cpp:178-232 | a release that is not ignored, of a pointer that starts no block, accesses memory outside the pool or leaves words that represent no heap, unless the bytes in front of the pointer name a free block as predecessor |
| StrayFree.StrayRun | src/wasm_memory_pool.cpp:178-232 | after one allocation whose caller clears its payload, releasing the middle of that payload does so |
| StrayFree.ImitationSucceeds | src/wasm_memory_pool.cpp:178-232 | a pointer whose bytes imitate the header of its own block releases that block |
| Sharing.GrowMemoryContent | src/wasm_engine.cpp:4222-4291 | memory.grow by some pages returns -1, changing nothing, if and only if the new number of pages passes 65536, the stored maximum unless that is 0, or 64 MB in bytes, or the bytes do not fit the buffer and the pool refuses; else it returns the old page count, the content is the old bytes and zeros, in the same buffer if they fit, and else in a new one of twice the capacity within size and engine maximum, the old one freed |
| Sharing.GrowTableContent | src/wasm_engine.cpp:4968-5033 | table.grow with a buffer of the right size fails exactly for a negative count, a size above the maximum or a refusal, changing nothing; else it appends the entries to those it had, unwritten ones without a buffer, and returns the old size |
| Sharing.GrowMemorySafe | src/wasm_engine.cpp:4222-4291 | memory.grow keeps the invariant if and only if the memory has a buffer, or nothing grows, or no other module is without one; then every sharing module sees what the growing one sees, and no other view changes |
| Sharing.MemoryRequestFits | src/wasm_engine.cpp:793-806 | requests for memories are too small to wrap |
| Sharing.GrowTableKeeps | src/wasm_engine.cpp:4968-5033 | table.grow keeps the invariant if and only if the buffer granted is not too small and no declared entry lacks a buffer; then all views of the table agree and no other changes |
| Sharing.LinkKeeps | src/wasm_engine.cpp:607-692 | an import that has no view yet takes over the exporter's exactly when that has a buffer of at least the wanted size and, if a maximum is wanted, one that is not larger; this keeps the invariant if and only if it does not overwrite a table that has a buffer of its own; a refusal changes nothing |
| Sharing.InstantiateKeeps | src/wasm_engine.cpp:791-829 | allocating a module's own memory or table keeps the invariant if and only if the buffer granted for a table is not too small; then it has the initial content and no other view changes |
| Sharing.UnloadKeeps | src/wasm_engine.cpp:1115-1131 | after unloading everything the invariant holds again with nothing loaded or live |
| Sharing.RunKeeps | src/wasm_engine.cpp:607-1131 | over every run of loads, links, instantiations, growths and unloads the invariant (nothing written behind a buffer or left unwritten in one, views agree, one owner per live buffer, nothing freed twice) holds all through if and only if no memory without a buffer is grown while another module is without one, no table with a buffer of its own is linked over, no table with declared entries but no buffer is grown, and no buffer granted for a table is too small |
| Sharing.ZeroMaximumIsNone | src/wasm_engine.cpp:4222-4291 | a memory of no pages with stored maximum 0 grows |
| Sharing.UninstantiatedGrowthAliases | src/wasm_engine.cpp:4222-4291 | a run from the empty engine in which it does not: two loads and a growth before instantiation |
| Sharing.LateExporterOverwrites | src/wasm_engine.cpp:607-652 | another: the importer of a table is loaded and grows it, then the exporter is loaded and linked |
| Sharing.EarlyGrowthUnset | src/wasm_engine.cpp:4987-5018 | another: a table with declared entries is grown before it is instantiated |
| Sharing.WrappedGrowthSpills | src/wasm_engine.cpp:4988-5015 | another, with words of 32 bits: a table grows by 2^30 + 1 entries |
| Sharing.Engine.MemoryGrow | src/wasm_engine.cpp:4222-4291 | the code's loop over the modules computes the specified growth |
| Sharing.Engine.TableGrow | src/wasm_engine.cpp:4968-5033 | the code's loops over modules and tables compute the specified growth, also without a buffer or with one that is too small |
| Sharing.Engine.UnloadAllModules | src/wasm_engine.cpp:1115-1131 | the loop computes the specified unloading; each buffer ever handed out was freed exactly once |
| Sharing.Engine.FreeModule | src/wasm_engine.cpp:909-1066 | one module gives up its tables, then its memory, freeing exactly the buffers it owns |
| Rings.Added | include/wasm_types.hpp:109-114 | linking a new node in front of the sentinel appends it to the circle |
| Rings.Removed | include/wasm_types.hpp:123-127 | unlinking a node takes exactly that element out of the circle |
| Schedule.SignalWakesAll | src/wasm_engine.cpp:5213-5229 | a signal leaves the flag set and the wait list empty, and every waiter ready, in order |
| Schedule.PollExact | src/wasm_engine.cpp:5300-5314 | polling readies exactly the expired sleepers, in order, and leaves the others |
| Schedule.TimeoutWakes | src/wasm_engine.cpp:5288-5314 | after the computed timeout a poll readies at least one sleeper, all expired ones and no other |
| Schedule.BoundedWaiting | src/wasm_engine.cpp:5469-5519 | the thread at position k of the ready list is at the front after k dispatches, whatever the dispatched threads do |
| Schedule.NotifyIsSemaphore | src/wasm_engine.cpp:5249-5273 | wait and notify refine a one-token semaphore; a passing wait leaves the thread ready, a notified waiter is on the ready list, other threads are unaffected |
| Wakeups.RunIsSemaphore | src/wasm_engine.cpp:5249-5273 | over every run of dispatches of all threads, the token and the blocked state of a live thread are those of a one-token semaphore under its notifications and waits in order, the waits of a thread without id left out |
| Wakeups.NotifiedIsNotBlocked | src/wasm_engine.cpp:5249-5273 | in every such run a live thread whose last event was a notification does not wait for one |
| Schedule.NoLostWakeup | src/wasm_engine.cpp:5249-5273 | the semaphore behind it: in all its runs nobody is blocked while the token is there, nobody after a release, and a release before an acquire lets it pass |
| Wakeups.SignalServesOneMore | src/wasm_engine.cpp:5213-5247 | a signal wakes all waiters and stays set for exactly one more: the next wait passes and clears it, the one after blocks |
| Wakeups.SleepLasts | src/wasm_engine.cpp:5275-5314 | a thread that sleeps is ready after a poll if and only if its time has passed or it has no id |
| Schedule.NotifyBeforeRequeue | src/wasm_engine.cpp:5502-5508 | between a wait and the requeue, a notification keeps the invariant if and only if it is for another thread; otherwise the thread is queued twice |
| Wakeups.NewThreadWaits | src/wasm_engine.cpp:5169-5202 | a created thread is live with its slot's id and token; a wait blocks it if and only if the slot was empty and its memory clear, or has an id and no pending notification |
| Wakeups.FirstWaitOfNewThread | src/wasm_engine.cpp:5169-5273 | the same for its first wait in any run in which it has not been notified |
| Wakeups.StaleNotification | src/wasm_engine.cpp:5169-5273 | notifying a thread that has ended and creating one in its slot leads to a first wait that does not block |
| Wakeups.DestroyedSlotHasNoId | src/wasm_engine.cpp:5574-5621 | a host thread created in an empty slot and destroyed, and a guest thread created there: it is queued, and no wait, for whatever, blocks it |
| Schedule.RequeueKeeps | src/wasm_engine.cpp:5502-5519 | the end of a dispatch restores the invariant: every thread exactly where its state says, nobody running |
| Schedule.IdleListsAreEmpty | src/wasm_engine.cpp:5434-5466 | when no thread is active every list is empty |
| Schedule.DoneMeansIdle | src/wasm_engine.cpp:5434-5466 | the run loop keeps the invariant over every run, and ends well only with nobody active and every list empty |
| Rounds.LoopExact | src/wasm_engine.cpp:5434-5466 | the loop fails if and only if a round that it reaches with a busy thread dispatches one that ends with an error, and ends well if and only if it reaches a state with no busy thread, no dispatched thread having failed before; the state left is that after exactly those rounds |
| Rounds.IdleRound | src/wasm_engine.cpp:5453-5459 | a round without a ready thread waits exactly if nobody's time has come, and then readies exactly the sleepers whose time has come; nothing else changes |
| Rounds.TimeoutIsLeast | src/wasm_engine.cpp:5288-5298 | after the computed timeout some sleeper's time has come, after any shorter one nobody's |
| Rounds.LeaveMeans | src/wasm_engine.cpp:5469-5519 | state, lists, flag and token after a dispatch that ends by a yield, by each kind of wait, or by the thread's end |
| Rounds.FirstSlot | src/wasm_engine.cpp:5171-5173 | a new thread gets the first slot that is empty or whose thread has ended, a host none that a host still owns |
| Rounds.HostThread | src/wasm_engine.cpp:5574-5640 | a host's thread is on no list until it is started, then last of the ready ones; destroyed, its slot is free for all |
| Rounds.Ignored | src/wasm_engine.cpp:5213-5273 | which starts, destructions, notifications and signals change nothing |
| Scheduler.Scheduler.AddLast | include/wasm_types.hpp:109-114 | the node is appended to that list; all other circular lists stay well formed and unchanged |
| Scheduler.Scheduler.Remove | include/wasm_types.hpp:123-127 | the node is taken out of its list and is on no list |
| Scheduler.Scheduler.SignalEvent | src/wasm_engine.cpp:5213-5229 | the loop over the wait list computes the specified signal |
| Scheduler.Scheduler.WaitEvent | src/wasm_engine.cpp:5231-5247 | a set flag is consumed and the thread stays ready, else it joins the event's list |
| Scheduler.Scheduler.ThreadWait | src/wasm_engine.cpp:5249-5260 | a pending token is consumed, else the thread waits on no list |
| Scheduler.Scheduler.ThreadNotify | src/wasm_engine.cpp:5262-5273 | a waiter is readied, anyone else gets the token |
| Scheduler.Scheduler.ThreadSleep | src/wasm_engine.cpp:5275-5282 | the thread joins the timeout list with its wake time |
| Scheduler.Scheduler.PollSleeps | src/wasm_engine.cpp:5300-5314 | the loop that unlinks while it walks computes the specified poll |
| Scheduler.Scheduler.ComputeMinSleepTimeout | src/wasm_engine.cpp:5288-5298 | the exact least remaining sleep, or the maximum without sleepers |
| Scheduler.Scheduler.CreateThread | src/wasm_engine.cpp:5169-5202 | the first usable slot gets a ready thread at the end of the ready list; no change without a slot or, for an empty slot, without memory; the id returned is 0 exactly then and for a slot left by a destroyed host thread |
| Scheduler.Scheduler.CreateHostThread | src/wasm_engine.cpp:5574-5603 | the first usable slot gets a created thread on no list; 0 and no change without a slot or memory |
| Scheduler.Scheduler.SetupMainThread | src/wasm_engine.cpp:5154-5167 | an unlinked main thread becomes ready at the end of the ready list, the others unchanged; 0 and no change exactly when the engine has no context for it |
| Scheduler.Scheduler.Step | src/wasm_engine.cpp:5469-5519 | pop, run, requeue is the specified dispatch and restores the invariant |
| Scheduler.Scheduler.RunInternal | src/wasm_engine.cpp:5434-5466 | the loop computes the specified rounds; when it reports success every list is empty |
| GuestHeap.CoalesceIsFreeAt | demo/common/wasm/stdlib.c:30-40 | on a heap without free neighbours the whole merging pass after a release merges exactly the released block with its two neighbours |
| GuestHeap.GrownExactly | demo/common/wasm/stdlib.c:112-132 | growing in place leaves a block of at least the size asked for and less than 20 bytes more; a larger rest follows as a free block that covers exactly it, and all other blocks stay |
| GuestHeap.ShrunkExactly | demo/common/wasm/stdlib.c:93-108 | the same for shrinking, the rest joined with a free successor |
| GuestHeap.FirstRequest | demo/common/wasm/stdlib.c:5-27 | the first request is served if and only if, rounded up, it and the header fit 16384 bytes |
| GuestHeap.PayloadAlignment | demo/common/wasm/stdlib.c:43-73 | payloads are multiples of 4, and of 8 if and only if the blocks in front whose size is no multiple of 8 are odd in number |
| GuestHeap.Round8Bounds | demo/common/wasm/stdlib.c:46-47 | the rounded size is a multiple of 8 that covers the request by less than 8 bytes exactly when the sum stays in the word; otherwise it is 0 |
| GuestHeap.Heap.Coalesce | demo/common/wasm/stdlib.c:30-40 | the in-memory chain still tiles the heap, no two neighbours are free, live payloads unchanged |
| GuestHeap.Heap.Malloc | demo/common/wasm/stdlib.c:43-73 | null if and only if nothing is asked or no free block fits; else the first fit, split when 8 payload bytes remain; all live payloads keep their bytes |
| GuestHeap.Heap.Free | demo/common/wasm/stdlib.c:76-84 | the block is released and merged; other live payloads keep their bytes; a free block is left alone |
| GuestHeap.Heap.Realloc | demo/common/wasm/stdlib.c:87-147 | which of shrink, grow and move is taken and the resulting heap; the first min(old, new) bytes and all other live payloads are kept; null leaves everything intact and only when no choice fits |
| CallGraph.BuildCallGraph | tools/analyze_wasm_stack.py:232-242 | callees and callers are each other's inverse, exactly the given edges, over exactly their end points |
| CallGraph.TopologicalSort | tools/analyze_wasm_stack.py:245-269 | it fails if and only if some call chain returns to its start; else all nodes once each, callers before callees |
| StackPath.FindMaxStackPath | tools/analyze_wasm_stack.py:272-315 | None exactly when the graph has a cycle; else the path follows real edges, its frames sum to the cost, and no chain costs more |
| HostCodegen.PopsAreReversed | tools/codegen/embwasm_util.py:826-897 | a parameter's pops consume the reverse of its flattened signature, slot kinds included |
| HostCodegen.ArgsFit | tools/codegen/embwasm_util.py:900-936 | one argument for every prototype parameter, named after it, and every variable used was popped |
| HostCodegen.DispatchMatchesSignature | tools/codegen/embwasm_util.py:1044-1209 | the same for whole parameter lists against the checked signature, with the handle of a method popped last |
| HostSlots.EverySlotFits | tools/codegen/embwasm_util.py:646-936 | for every type, signature, pops, arguments and prototype have an entry for each slot, and those of slot i belong together: kind, variable named after value and role, pointers passed into the memory, C++ types; pointer lies before length, flag before value, tag before payload |
| HostSlots.EveryCallFits | tools/codegen/embwasm_util.py:1044-1209 | the same for whole parameter lists: argument i reads slot i of the checked signature |
| HostSlots.Numbers | tools/codegen/embwasm_util.py:596-605 | the C++ type of a number has its width and sign, also as an element of a list |
| HostSlots.ResultFits | tools/codegen/embwasm_util.py:943-975 | the value pushed for a result is what the signature says if and only if the result has one slot, which is a number or a 32-bit integer |
| HostSlots.StringResultDoesNotFit | tools/codegen/embwasm_util.py:943-975 | a string as a result does not |
| HostSlots.VariablesDiffer | tools/codegen/embwasm_util.py:826-897 | no two variables declared for one parameter have the same name |
| HostSlots.ParametersCollide | tools/codegen/embwasm_util.py:826-897 | a string `a` and a number `a_len` declare the same variable |
| HostCodegen.PointerTestIsExact | tools/codegen/embwasm_util.py:681-690 | per parameter, the test holds if and only if the call uses the memory base and the type is not an option, tuple or result |
| HostCodegen.UndeclaredMemory | tools/codegen/embwasm_util.py:1044-1172 | a generated function uses the base without declaring it if and only if some option, tuple or result parameter uses it and no parameter passes the test |
| HostCodegen.OptionStringUsesUndeclaredMemory | tools/codegen/embwasm_util.py:681-690 | an option of a string uses the memory base although the test denies it |
| WitGrammar.TypeRoundTrip | tools/codegen/embwasm_util.py:457-533 | on the tokens of any printed type followed by any rest the parser returns the type, names normalised, and exactly the rest |
| WitGrammar.ParamsRoundTrip | tools/codegen/embwasm_util.py:416-430 | the same for parameter lists |
| WitGrammar.OtherResults | tools/codegen/embwasm_util.py:487-512 | `result` alone, empty brackets and parts left empty are read as missing parts |
| WitGrammar.TrailingComma | tools/codegen/embwasm_util.py:514-524 | a tuple may end in a comma |
| WitGrammar.ForeignToken | tools/codegen/embwasm_util.py:457-486 | a token that is no word is passed over as u32, and a constructor without brackets is refused |
| WitGrammar.Unclosed | tools/codegen/embwasm_util.py:473-486 | so is one whose bracket does not close behind its part |
| WitReader.Reader.ParseTypeRef | tools/codegen/embwasm_util.py:457-533 | the recursive reader on its cursor computes the grammar's parse, success, type and rest, and terminates |
| WitReader.Reader.ParamList | tools/codegen/embwasm_util.py:416-430 | the same for parameter lists |
| WitReader.Reader.Parse | tools/codegen/embwasm_util.py:219-236 | the document parser terminates on every token stream, with an error or at the end token |
| HostLookup.CompareNames | tools/codegen/embwasm_util.py:1600-1613 | the comparison of the common part and then the lengths is the order of the dictionary: 0 exactly for equal names, and its sign says which comes first |
| HostLookup.Lookup | tools/codegen/embwasm_util.py:1585-1637 | invalid exactly when no row answers; else an answering row's id, the only one when the rows are distinct up to `-` and `_` and the module is not the root; for the root the first exact spelling |
| Sections.EntryFilled | src/wasm_engine.cpp:2112-2470 | each section parser consumes exactly a well-encoded entry, bodies included, and writes it |
| Sections.PassesAgree | src/wasm_engine.cpp:2472-2724 | for every well-formed module with no more bodies than functions, whose length times the largest element fits the word, the counts are exactly the entries written, no capacity test fires, nothing is read behind the binary or written behind a buffer, and the type buffer reads back the signatures |
| Requests.RoomExact | src/wasm_engine.cpp:2541-2674 | an array has room for its elements if and only if product and rounding stay in the word |
| SectionBuffers.AllExact | src/wasm_engine.cpp:2541-2674 | all arrays of a module are granted with room for what was counted if and only if none of their sizes wraps |
| SectionBuffers.BuffersExact | src/wasm_engine.cpp:2541-2674 | the same in terms of the counts and the element sizes of each kind of buffer |
| SectionBuffers.SmallIsRoomy | src/wasm_engine.cpp:2541-2674 | counts whose largest array fits the word get buffers with room, and capacities that are the counts |
| Sections.SignatureEquals | src/wasm_engine.cpp:20-26 | comparing counts and packed words is equality of parameter and result lists |
| Refusals.TypeRefused | src/wasm_engine.cpp:2112-2146 | a type that does not begin with 0x60, or has more than 1000 parameters or results, or more than the section holds, is refused |
| Refusals.TableRefused | src/wasm_engine.cpp:2234-2238 | so is a table of other elements than references |
| Refusals.LocalsRefused | src/wasm_engine.cpp:2447-2461 | and a body with more than 65535 locals |
| Refusals.GlobalRefused | src/wasm_engine.cpp:2274-2318 | and a global initialized by another opcode, by a later global, or without an end |
| Refusals.OffsetRefused | src/wasm_engine.cpp:2335-2352 | and a segment whose offset is |
| Refusals.AcceptedWithin | src/wasm_engine.cpp:2676-2707 | whatever bytes the filling pass accepts, nothing exceeds its capacity |
| Refusals.TwiceRefused | src/wasm_engine.cpp:2483-2487 | the counting pass refuses a binary with two sections of the same number from 1 to 15, wherever they stand |
| Overreads.EntryOverruns | src/wasm_engine.cpp:2112-2470 | which untested reads of an entry leave the binary and which of its writes leave a buffer, for each kind of section |
| Overreads.FillingOverruns | src/wasm_engine.cpp:2676-2707 | on any bytes and for any buffers the filling pass leaves the binary or a buffer if and only if it reaches an entry that is short of the bytes or the room it takes for granted |
| Overreads.ParsingOverruns | src/wasm_engine.cpp:2709-2724 | counting, allocating and filling do, on any bytes, if and only if clearing a buffer does or such an entry is reached |
| Overreads.WellFormedStays | src/wasm_engine.cpp:2472-2724 | well-formed modules so small that no size wraps have no such entry |
| Overreads.MemorySectionOverruns | src/wasm_engine.cpp:2259-2272 | a memory section does if and only if it announces more entries than start in it plus one for every byte behind it |
| Overreads.EmptyMemoryOverruns | src/wasm_engine.cpp:2259-2272 | the binary `05 01 01` is read past its end |
| Overreads.OffsetsFit | src/wasm_engine.cpp:2330-2370 | when every buffer has room for what was counted, on any bytes, none is written past its end, not even that of the offsets of data segments, recorded before the capacity test: only bytes can be missing |
| Overreads.WrappedFunctionsOverrun | src/wasm_engine.cpp:2220-2232 | with words of 32 bits the binary `03 05 81 80 80 80 04` writes its second function behind the buffer |
| Overreads.WrappedElementOverruns | src/wasm_engine.cpp:2401-2426 | with words of 32 bits the binary `09 0A 01 00 41 00 0B 81 80 80 80 04` writes its second item behind the segment's array |
| ModuleParser.Parser.CountSectionEntries | src/wasm_engine.cpp:2472-2539 | on any bytes the counting pass computes the specified counts or rejects; it stays inside the binary |
| ModuleParser.Parser.AllocateSectionBuffers | src/wasm_engine.cpp:2541-2674 | the requests, one after the other, give the specified buffers, or refuse, unless clearing one leaves it |
| ModuleParser.Parser.FillSections | src/wasm_engine.cpp:2676-2707 | the filling pass, without tests where the source has none, computes the specified result or rejects on all inputs on which it does not overrun |
| ModuleParser.Parser.ParseModule | src/wasm_engine.cpp:2709-2724 | the three together compute the specified parse or reject |

## Left out

- Loader.ValidateFunctionBody: other opcodes are not modelled; bytes on which the buffers do not suffice are excluded, and beyond overlong immediates, with the example, which bytes these are is not characterised.
- Acceptance.UnderfedAccepted: which accepted bodies are valid is not characterised.
- Completion.RunFunction: acceptance is a hypothesis; `Execute` ignores the result of instantiation, so the engine may run functions that were never validated, and no theorem says which.
- Loader.CountLabels: LEB128 groups beyond the fifth shift by 32 or more in the source; the model adds them as the mathematical sum, which legal encodings never reach.
- Execution.InvocationSimulated: the first frame must fit, since the code does not test it; typing beyond heights is not modelled, as the code does not check it.
- Interpreter.ThreadContext.ExecuteInternal: a host function or an import chain as the entry point, the statistics of greatest depth and the platform's begin and end hooks are not modelled.
- Interpreter.ThreadContext.Branch: a target count of 2^32-1 makes the validator's `br_table` loop endless in the source; the model's loop ends, since such a body cannot be well encoded.
- Scheduler.Scheduler.RunInternal: the loop without the platform lock; true parallelism, the lifecycle hooks and the clock's wrap-around are left out, and the time waited is a parameter.
- Scheduler.Scheduler.CreateThread: the pool's answer, a refusal or a context with what is left in its memory when its stacks are refused, is a parameter; what the thread's own stacks hold is not modelled.
- Sharing.LinkKeeps: the element types of tables, which must agree, and the look-up of the export by name are left out.
- Sharing.GrowTableKeeps: the room in the buffer granted is a parameter (`Requests.Room` gives it); after a write behind a buffer nothing more is said of the state.
- Sharing.Engine.FreeModule: everything else a module owns (names, tables of functions, code) and the failed load that frees a half-built module are left out.
- Pool.MemoryPool.Free: a pointer in front of which a size word says used must start a block; `StrayFree` says what happens otherwise.
- StrayFree.StrayBreaks: when the bytes in front of the pointer name a free block as predecessor, the outcome is not decided.
- Pool.MemoryPool.Allocate: header fields are arrays indexed by header address rather than bytes inside the buffer; payload bytes are not modelled.
- GuestHeap.Heap.Free: the pointer must be the payload of a block, as the source assumes; a pointer into the middle of a block is not modelled.
- WitReader.Reader.Parse: for interfaces, worlds and type definitions termination and the end of the stream are stated, not the tree; `use`, documentation comments and the lexer are left out.
- HostCodegen.DispatchMatchesSignature: C++ type names are kept as written; the variables of results are left out.
- HostSlots.VariablesDiffer: names of different parameters are not compared, except in the example that collides.
- StackPath.FindMaxStackPath: parsing of compiler output, `opt` calls and the report are left out.
- Sections.PassesAgree: the start and custom sections are skipped by length; the pool is taken to grant every request for buffers, signatures and element arrays that does not come out empty.
- SectionBuffers.Allocate: a request that passes the rounding but wraps with the pool's header is taken to be granted like any other.
- ModuleParser.Parser.FillSections: inputs on which it overruns are excluded; `Overreads.FillingOverruns` says exactly which they are.
- Other instructions: bitwise operations and shifts, loads, stores, 64-bit and floating-point arithmetic, conversions, `call_indirect`, references and bulk memory add no control flow and are left out; so the two programs are run on 32 bits instead of the suite's 64.
- Calls through imports: a call resolves to a local or host function of the same module; the chain of modules is not modelled.
- Host stack allocation through `cabi_realloc` and completion callbacks run guest code and are left out.
- Sockets, stdio, startup, the platform adapters and the vendored kernel files are left out.
