# SpaceWasm verification

SpaceWasm compiles WebAssembly in a single pass into a compact code of 16-bit words and interprets that
code on one stack of 32-bit words, without checking a stack access at run time: validation is meant to
make the checks unnecessary. This project models that compiler and that interpreter in Dafny and proves
that validation does make them unnecessary, and that running the compiled code means what the WebAssembly
Core Specification 1.0 says. Four components around them, the streaming reader, the paged code store, the
page allocator and the linker, carry results of their own.

`dafny verify dfyconfig.toml` checks everything.

## How the parts fit together

**Semantics.** `Wasm` holds structured instruction sequences and their meaning (`Exec`), with values of
four types, a budget of stack words and a record of all host calls; what a host answers may depend on
everything it was asked before. `Values` and `Label` hold machine words and the packed branch slots.

**Compiler.** `Text` says what each operation of the text builder and each visitor method does to the state
of compilation: emitted words, control frames, operand types, high-water mark. `Builder`, `Compiler` and
`CodeStore` are the same operations as the source has them, on mutable objects and on pages of 256 words,
each proved against `Text`. `Bodies` is the decoding loop over a flat stream of instructions; it accepts
exactly the streams of structured bodies. `Validity` holds the typing rules of the specification, which know
no unknown types; `Room` says in numbers when each limit of the compiler is met; and `Accepts` proves that the
compiler accepts exactly the valid bodies that have room, and that the stack usage it reports is attained.

**Open slots.** A forward branch is emitted before its target is known. `Chains` and `Frames` describe the
linked lists of unresolved slots that run through the emitted words, and relate the code emitted so far to
the finished code: a *completion* (`Agree`) holds the same words outside the open slots, and in each open
slot a jump to where its label will be closed. `Extension` proves that every compile step keeps the lists
well formed and that a completion of the later code is one of the earlier code, so facts about the finished
code can be carried back to the point where an instruction was emitted.

**Machine.** `Machine` is the interpreter as a defensive machine: it knows the open calls and answers
`Unsafe` to every access outside the frame at hand, every fetch outside the code, every malformed return.
`Engine` is the interpreter as the source has it, handlers that write registers and stack words in place
and check nothing; it is proved to make every step the machine makes, unless that step is unsafe.
`Numerics` says what the numeric instructions compute in terms of numbers alone, and `Overflow` which calls
overflow the stack. `Activations` and `Runs` hold what is true of any code, compiled or not: the chain of saved frames, the
bracket of call and return, fuel and pauses.

**Main results.** `Typing`, `Locals`, `Simulation`, `Preservation`, `Blocks`, `Elses` and `Calls` build up to
`Correctness.CodeSims`, by induction over sequences and fuel. `Safety` draws the conclusions about
invocations, `Heights` adds that the code address alone determines the running function and the place of the
stack pointer, and `Pauses` when a paused engine may run on without a host's value. `Loading` and `Modules` prove
that loading a linked module into the pages gives a store that satisfies what these results require, and
`Driver` puts the imperative engine, the paged code and the semantics together in the loop an embedding runs.

**Around them.** `Ring`, `Leb128` and `Reader` prove that a chunked stream read through a 64-byte ring is the
flat sequence of its bytes, under nested limits, and that integers are read as section 5.2.2 of the
specification demands. `Paging` proves the safety of the page allocator over all histories. `Linking`
proves that import chains are one hop long, and `Names` which symbol a name leads to.

Preconditions that run through the contracts: code addresses stay below 2^31 (`OptionsOk` and the bounds on
the code's length), at least one control frame may be open, parameters of a loaded function take at most 255
words (the function section refuses more), and hosts answer with a value of the type they declare.

## Where the code and its documents differ

The model follows the code.

- docs/ir.md says that instructions take one to three words; a 64-bit constant takes five and a branch table
  any number.
- The comment in `return_` (src/interpreter.rs:1473-1474) describes another packing of the frame header than
  the `CallFrame` it reads: the frame length is the low half-word.
- The specification lets a function refer to every declared local. `get_local` counts groups in 16 bits
  (src/text.rs:603), so locals whose group ends beyond 65,535 entries, parameters included, are refused,
  with those of later groups; `Locals.GetLocalExact` gives the exact condition and `Locals.HiddenLocal` an
  example.
- `run` does not look at a pending host result (src/interpreter.rs:361-404). Called on a paused engine without
  `resume`, it goes on, and the result stays pending. `Pauses.RunOn` gives the exact condition under which that is
  harmless, `Pauses.DropUnderflows` a module for which it is not.
- An empty memory section removes an imported memory (src/module.rs:290-292); `MemorySection` states it.

## Model

| member | source | states |
|---|---|---|
| `Safety.NeverUnsafe` | src/interpreter.rs:76-116 | Every run, of any length, of an invocation of loaded code: no stack access leaves the bounds of its frame, no local access touches the frame header, no fetch leaves the code; and while it runs, the frame at hand has the parameters, locals and operand room of a function of the current module, and the machine stands at an address where the compiler emitted an instruction of that function, with exactly as many operand words as it counted there |
| `Safety.InvocationRealizes` | src/interpreter.rs:121-181 | An accepted invocation comes to what the structured semantics of sections 4.4.5 to 4.4.7 of the WebAssembly Core Specification 1.0 says: same results, trap and host calls, or the same stack overflow; if the semantics runs out of fuel the machine is still running after at least as many steps |
| `Safety.Agreement` | src/interpreter.rs:361-404 | From the machine to the semantics: a run that finishes or traps within n steps does so in the semantics too, with the same result words of the declared type, trap reason and host calls, and finishing leaves both registers at zero |
| `Safety.Reaches` | src/interpreter.rs:361-404 | From the semantics to the machine: every result or trap of the semantics is reached by some number of steps, and as long as the semantics has not ended, neither has the machine |
| `Driver.Drive` | crates/spacewasi/src/main.rs:266-280 | The whole stack of results on the imperative engine and the paged code: an invocation on an idle engine is refused only where the semantics overflows the stack; when the loop of portions ends, the stored result words, the trap and the host calls are those of the semantics and the engine is idle; until then every portion makes progress along the one run |
| `Driver.Portion` | src/interpreter.rs:191-225 | One portion on a running engine, and the answer to a pause: either the run has ended as the semantics says, or the engine is further along the same run |
| `Heights.OneHeight` | src/text.rs:789-819 | The program points of a loaded function lie between its own entry and its own end, and no code address has two operand heights |
| `Heights.OneFunction` | src/code.rs:22-50 | Across all loaded functions of all modules a code address is a program point of one function only, with one height |
| `Heights.AddressDetermines` | src/interpreter.rs:76-116 | In any two reachable states of any two invocations, at the same code address the same function of the same module runs, and the stack pointer is at the same distance from the frame pointer |
| `Heights.PointsPlaced` | src/text.rs:821-847 | The program points of any compiled sequence lie between the addresses where it starts and ends, one at each address |
| `Correctness.CodeSims` | src/compiler.rs:94-209 | Every accepted instruction sequence, from every typed state and for every completion of the code: running the emitted words leaves the same locals, operands, host calls and trap as the semantics, and leaves by the same label with the same operands |
| `Correctness.FuncBody` | src/compiler.rs:108-121 | A loaded function body from its entry state: however it ends, by falling off the end, by return or by a branch to its own label, the machine executes the return that carries its results |
| `Correctness.OpSims` | src/compiler.rs:156-209 | Every instruction without a body other than a call: one step or one branch of the machine does what the semantics says |
| `Correctness.FuncCallSims` | src/compiler.rs:211-269 | A call of a function of this or another module: with enough stack the callee runs and its results replace the arguments, otherwise both sides trap with a stack overflow |
| `Preservation.BrSims` | src/compiler.rs:156-162 | A compiled `br` takes the arity of its label from the top, drops the operands above the label and continues where the label leads, or returns for the function label |
| `Preservation.BrIfSims` | src/compiler.rs:164-171 | A compiled `br_if` branches exactly on a non-zero condition and otherwise goes on with the operands unchanged |
| `Preservation.BrTableSims` | src/compiler.rs:173-195 | A compiled `br_table` with any number of cases branches to the label of the index, or to the default |
| `Preservation.TablePrepared` | src/text.rs:722-787 | In the finished code the slot of every case and of the default holds its label's arity, depth and jump, at its own address, all labels with one type |
| `Preservation.TableStep` | src/interpreter.rs:1441-1465 | Dispatch fetches slot v if v < n and the default otherwise, and the branch offset is the exact address of that slot, in both encodings of n |
| `Preservation.ReturnSims` | src/compiler.rs:197-209 | A compiled `return` returns the topmost result words from any depth of nesting |
| `Preservation.FollowSplit` | src/interpreter.rs:370-404 | Runs that are checked to stay on program points can be cut anywhere |
| `Simulation.NumSim` | src/interpreter.rs:430-548 | The handlers compute on raw words what the specification computes on values, the division trap included |
| `Simulation.NumericSims` | src/compiler.rs:38-44 | A compiled numeric instruction replaces its operands by the result of the specification, or traps |
| `Numerics.Division` | src/interpreter.rs:866-872 | `i32.div_u` of u and v is the only q with u = v q + r and 0 <= r < v, or no value if v is zero |
| `Numerics.DivisionStep` | src/interpreter.rs:866-872 | The division handler on a stack that ends in u and v leaves that q in their place, or traps if v is zero |
| `Numerics.Meaning32` | src/interpreter.rs:430-548 | The 32-bit test is 1 exactly on zero, the sum is that of the numbers less 2^32 if it does not fit, extension keeps the number |
| `Numerics.Meaning64` | src/interpreter.rs:430-548 | The 64-bit tests are 1 exactly on zero and on equal numbers, the sum is that of the numbers less 2^64 if it does not fit |
| `Numerics.WordsOf64` | src/stack.rs:53-79 | A 64-bit number lies on the stack with its low word first, and wrapping keeps that word |
| `Simulation.SelectSims` | src/compiler.rs:85-92 | A compiled `select` of one-word or two-word operands keeps the value the condition asks for |
| `Simulation.LocalAt` | src/interpreter.rs:4-8 | The words at the compiled offset of a local are that local's words, inside the parameters or the declared locals, and writing them changes that local and nothing else of the frame |
| `Simulation.LocalGetSims` | src/compiler.rs:300-306 | A compiled `local.get` pushes the local of that index |
| `Simulation.LocalSetSims` | src/compiler.rs:308-314 | A compiled `local.set` pops into the local of that index, leaving every other local |
| `Simulation.LocalTeeSims` | src/compiler.rs:316-323 | A compiled `local.tee` writes the local and leaves the operands |
| `Simulation.BranchSim` | src/interpreter.rs:304-340 | Taking a branch through a resolved slot keeps the label's operands, drops exactly those above the label, and lands on the label's target; a zero jump returns |
| `Simulation.ReturnAt` | src/interpreter.rs:1467-1515 | Returning from any operand height reads the saved frame: results move to where the arguments started, and the caller's frame pointer, module and code address are back |
| `Simulation.Fetch` | src/ir_reader.rs:67-491 | Where the compiler emitted an instruction, the machine decodes and dispatches that instruction, whatever was patched or appended later |
| `Blocks.LeaveSims` | src/compiler.rs:102-106 | Leaving a block in every possible way: by its end, by a branch to its own label, by a branch further out, by return, trap or exhaustion |
| `Blocks.LoopAgain` | src/compiler.rs:123-128 | A branch to a loop's label is back at the loop's first instruction with the operands outside it, and the loop runs again |
| `Blocks.IfStep` | src/interpreter.rs:1414-1425 | The emitted `if` goes on behind itself on a non-zero condition and otherwise to where its patched placeholder leads |
| `Blocks.SkippedIf` | src/text.rs:1063-1077 | An `if` without an else part is accepted only without results, and skipping it leaves the operands |
| `Blocks.EndOperands` | src/text.rs:1023-1040 | At a live `end` exactly the results of the block lie above its start, of the declared types |
| `Elses.ThenEnds` | src/compiler.rs:139-154 | At the end of the then part the branch emitted by `else` is taken to the end of the block with the results |
| `Elses.ThenLeaves` | src/compiler.rs:139-154 | The then part, left in every possible way, comes to what the semantics says of the whole `if` |
| `Elses.ElseLeaves` | src/text.rs:957-1006 | The else part likewise; it is entered through the cut-off placeholder only |
| `Calls.CallEnters` | src/interpreter.rs:59-116 | A matched call builds the callee's frame: header, return address, zeroed locals, the arguments as its parameters, the code address of its entry, in its module |
| `Calls.CallerFrame` | src/code.rs:155-161 | The frame a caller leaves behind always fits the 16 bits of its header, and the arguments are its topmost words |
| `Calls.CallOverflows` | src/interpreter.rs:78-83 | Where the semantics counts too few free words the call traps with a stack overflow; `Overflow.CallOverflowsExactly` says how many words that are |
| `Overflow.CallOverflowsExactly` | src/interpreter.rs:78-83 | A call traps with a stack overflow if and only if the stack so far, two header words, the declared locals (one or two words each, by type) and the usage pass the end of the stack; otherwise that is where the limit of the frame it opens lies |
| `Overflow.InvokeOverflowsExactly` | src/interpreter.rs:134-144 | The same for an invocation with its arguments, on the machine and in the checks of the engine, which accept every well-typed invocation that fits |
| `Overflow.OverflowsForSomeHeight` | src/code.rs:84-91 | A call of a loaded function overflows if and only if, at some step of compiling it, the operands counted there would not fit on top of the stack so far, the header and the locals: a function that fits at every step is never refused |
| `Overflow.LocalsStartZero` | src/interpreter.rs:103-110 | The new frame leaves everything below it alone and has as many zero words above its header as the declared locals take, and the semantics starts the locals at zero |
| `Calls.CallFinished` | src/interpreter.rs:1467-1515 | After the callee the caller goes on behind its call with the results in place of the arguments, or shares the callee's trap or exhaustion |
| `Calls.HostCallSims` | src/interpreter.rs:1521-1600 | A host call pops its arguments in order and pushes the answer, at once or by a later resumption, or traps |
| `Calls.CallTyped` | src/compiler.rs:211-269 | An accepted call finds its arguments on the operand stack with the declared types, and the results fit what the function was found to use |
| `Extension.CompileExtends` | src/text.rs:722-787 | Every compile step and every accepted sequence keeps the chain invariant: each open block or if owns a chain of unresolved slots at strictly decreasing addresses that ends at a zero link, an if keeps its placeholder, chains of different frames share no word, and each frame keeps its slots in order behind new ones; code in front of the function is untouched; and every completion of the later code is a completion of the earlier code |
| `Extension.LabelMeaning` | src/text.rs:722-787 | What the finished code holds in a branch slot: the label's arity, the operand words to drop, and a jump that is zero exactly for the function label and otherwise leads to the loop's start or to the address where the block was closed |
| `Extension.LabelLinked` | src/text.rs:755-787 | A forward branch puts its slot, with arity and depth, at the head of the label's chain |
| `Extension.EmittedAt` | src/text.rs:375-388 | Emitted words that are not open slots are the same in every completion |
| `Extension.EnterIfOpens` | src/text.rs:931-951 | `if` starts its chain with the placeholder of the false branch, holding the zero link |
| `Extension.ElseSplits` | src/compiler.rs:139-154 | `else` first puts its own branch on the chain and then cuts off the tail alone |
| `Extension.ElseCutsPlaceholder` | src/text.rs:931-951 | The slot that `else` cuts off is the one the `if` emitted as its placeholder, at the word behind its opcode, whatever branches the then part added |
| `Extension.ElseGoals` | src/text.rs:957-1006 | After the `else` every slot of the if leads to the end of the block, except the placeholder, which leads to the first word of the else part |
| `Extension.ExitCloses` | src/text.rs:1023-1080 | `end` sends every slot of the closed chain to the closing address and changes no other word |
| `Chains.BackpatchSlots` | src/text.rs:292-327 | Backpatching sends every slot of a chain to the target, keeps its arity and depth, and changes no other word |
| `Chains.BackpatchLimit` | src/text.rs:238-327 | Backpatching succeeds exactly when every slot is within -2^21 and 2^21 - 1 words of the target and the chain has no more links than the iteration limit; it fails with LabelJumpTooLarge exactly when a slot out of that range is met before the limit, and otherwise with PossibleBackpatchCycle; the limit never changes what a successful backpatch does |
| `Chains.SplitTailLimit` | src/text.rs:957-1006 | Cutting off the tail fails exactly when the chain has more links than the limit, or else when the tail is out of the range of a signed 22-bit jump, each with its own error |
| `Chains.ChainTail` | src/text.rs:138-144 | Only the last slot of a chain holds the zero link |
| `Chains.SplitTailSlots` | src/text.rs:957-1006 | Splitting a chain redirects its tail, makes the slot before it the new tail, keeps arity and depth, and changes nothing else |
| `Chains.ChainCut` | src/text.rs:957-1006 | The slots that remain are those of the old chain without its tail, in the same order |
| `Frames.LinkOk` | src/text.rs:755-787 | Putting a slot on one frame's chain keeps the invariant of all frames |
| `Frames.CloseSlots` | src/text.rs:1023-1080 | Closing a frame leaves the chains of all other frames, slot for slot |
| `Frames.SplitInner` | src/text.rs:957-1006 | After `else` the chain of the frame is the old one without its placeholder |
| `Frames.SplitEnd` | src/text.rs:957-1006 | The cut-off slot is the one with the zero link, and it jumps to the start of the else part |
| `Frames.SplitWords` | src/text.rs:957-1006 | `else` changes words of the if's own chain only, and never an arity or depth |
| `Frames.SplitBack` | src/text.rs:957-1006 | A completion of the code after `else` completes the code before it, with the false branch led to the else part |
| `Label.FitsJumpRange` | src/text.rs:51-75 | The bit test on a distance accepts exactly the signed 22-bit numbers |
| `Label.PackFields` | src/text.rs:107-116 | Packing arity, depth and jump into a slot loses none of them, the jump sign-extended |
| `Label.WithJumpFields` | src/text.rs:122-128 | Re-targeting a slot keeps its arity and depth |
| `Label.PackOnto` | src/text.rs:130-161 | Every 32-bit slot is the packing of its three fields |
| `Ir.DecodeEncode` | src/ir_reader.rs:67-491 | Decoding where an instruction was emitted gives that instruction and the address behind it, for inline and extended immediates |
| `Ir.DecodeEncodeTable` | src/ir_reader.rs:146-188 | The same for branch tables of every length up to 65,535 cases |
| `Ir.DecodeEncodeAll` | src/text.rs:1082-1185 | Reading on from the start of any emitted sequence finds the same instructions, each at its own start |
| `Typing.CompileOk` | src/text.rs:821-892 | Every accepted sequence keeps the operand types under its frame and the frames below, never counts below a frame's start, and keeps the high-water mark above every height, in dead code too |
| `Typing.OpOk` | src/text.rs:849-892 | The same for one instruction |
| `Typing.ExitValues` | src/text.rs:1023-1040 | After `end` the operands are those from before the block and its results, also when the end was dead |
| `Typing.ElseValues` | src/text.rs:957-990 | After `else` the operands are those from before the if, in a fresh live frame |
| `Typing.PopTypesLive` | src/text.rs:866-892 | In live code a successful pop of some types removed exactly these types from the top, above the frame's start |
| `Validity.CodeExplains` | src/compiler.rs:94-209 | An accepted sequence is valid for some types which fit the operands before it, whatever fitting types are wanted behind it |
| `Validity.OpExplains` | src/compiler.rs:73-269 | The same for each instruction without a body |
| `Validity.ExitFits` | src/text.rs:1023-1040 | Behind `end` the operands fit exactly the types around the frame followed by its results |
| `Accepts.AcceptsExactly` | src/code.rs:22-50 | The compiler accepts a function body if and only if sections 3.3 and 3.4.1 of the WebAssembly Core Specification 1.0 call it valid and there is room for it: the words before it, its own words (counted from the body alone) and its return fit the pages; its nesting and the function frame fit the control stack; every step it comes to has the room `Room` states in numbers; and two header words, the locals and the operands stay within 65,535 words at every step |
| `Accepts.CodeAcceptsExactly` | src/compiler.rs:94-209 | The same for any sequence from any state of compilation: valid for types which fit the operands, it is accepted if and only if its words fit the pages, its nesting fits the control stack and there is room at every step, and then it leaves operands that fit the types behind it |
| `Accepts.OpAcceptsExactly` | src/compiler.rs:73-269 | The same for each instruction without a body, in live and in dead code |
| `Accepts.CodeRoom` | src/compiler.rs:73-269 | An accepted sequence has taken exactly the words and the nesting counted from it, and had room at every step; a sequence with that room is not refused for a limit |
| `Accepts.UsageExactly` | src/text.rs:821-829 | The stack usage reported for a function is the greatest operand height met in compiling its body: it covers the height at every step and is attained at one |
| `Accepts.CodePeak` | src/text.rs:821-829 | Over any accepted sequence the high-water mark covers every height met, and where it has risen it is one of them or the height at the end |
| `Accepts.FrameErrorsExactly` | src/code.rs:133-160 | TooManyLocals exactly when the declared locals alone take over 65,535 words; StackTooLarge exactly when they do not, the body compiles, and at some step header, locals and operands together take over 65,535 |
| `Accepts.DeclaredAccepted` | src/code.rs:95-171 | A declared function is accepted if and only if every count of locals fits 16 bits and its instructions are, up to the end of the declared size, those of a structured body that is valid and has room |
| `Room.OpRoomExactly` | src/compiler.rs:73-269 | Each instruction, accepted, has taken its number of words and had room, and refused with room, was not refused for a limit: room being one operand more than those left after it took its own, at most 255 operand words above a label's frame, a target within signed 22 bits, at most 65,535 cases, a local the 16-bit counter reaches with a 16-bit offset |
| `Room.LabelErrorsExactly` | src/text.rs:722-787 | Each error of a branch slot exactly in its case: no such label; for a label other than the function's, more than 255 operand words above its frame; fewer, but its target farther than a signed 22-bit jump; or no two words left in the pages |
| `Room.AboveWords` | src/text.rs:783-819 | The drop depth is the number of operand words from the frame's start to the first operand of unknown type, counted without the height function, and zero when such an operand lies under the frame |
| `Room.ExitRoom` | src/text.rs:1023-1080 | `end` needs exactly that the open slots are in reach of it, no more links than the limit, and one operand for a result |
| `Room.ElseRoom` | src/text.rs:917-1006 | `else` needs exactly room for its branch, one link more, and a placeholder in reach of the else part |
| `Room.TableRoom` | src/compiler.rs:173-195 | The cases of a table need exactly the depth of each label, and the reach of each loop and of the first case of every other label: the chain brings later cases within reach by itself |
| `Room.LocalExactly` | src/text.rs:563-627 | LocalIdxOutOfRange exactly when the local does not exist, its group ends beyond the 16-bit counter, or its offset does not fit; no other error |
| `Room.OpErrors` | src/compiler.rs:164-195 | IdxTooLarge exactly for a table of over 65,535 cases behind an i32, LocalIdxOutOfRange exactly for a local there is no room for, the errors of slots for branches only, the errors of whole frames and of backpatching for no instruction |
| `Locals.GetLocalExact` | src/text.rs:563-627 | An index is accepted exactly when it names a parameter, or a local whose group ends within the 16-bit counter and whose offset fits a signed 16-bit number; then offset and type are those of that local |
| `Locals.FindLocalExact` | src/text.rs:590-627 | The same for the search through the declared groups from any position |
| `Locals.HiddenLocal` | src/text.rs:603-603 | A local the specification allows and the code refuses: four parameters and one group of 65,532 locals make the 16-bit counter wrap |
| `Locals.LayoutRange` | src/text.rs:563-627 | Parameters lie in the words just below the frame pointer, declared locals behind the two header words and below the operands |
| `Locals.LayoutDisjoint` | src/text.rs:563-627 | No two locals of a function share a word |
| `Machine.HeaderFields` | src/interpreter.rs:10-32 | Frame length, module delta and parameter size survive the packing into one word |
| `Machine.ModuleThereAndBack` | src/interpreter.rs:59-73 | The 8-bit module delta of a call leads back to the caller's module, for any two of 256 modules |
| `Activations.StepKind` | src/interpreter.rs:1467-1515 | Every step of any code that is not unsafe stays inside its frame, calls, or returns; it changes no word below the frame's arguments and no header of a frame that stays |
| `Activations.StepFrames` | src/interpreter.rs:76-116 | The saved frames stay a finite chain down to the entry frame, each header giving the distance to the one before |
| `Activations.RunFrames` | src/interpreter.rs:361-404 | The same over whole runs of any code |
| `Activations.InvokeFrames` | src/interpreter.rs:121-181 | An invocation starts the chain with its one entry frame |
| `Activations.CallRunReturn` | src/interpreter.rs:59-116 | A call, any balanced run and the matching return: frame pointer, module and open frames are the caller's again, execution goes on two words behind the call, every word below the arguments is as it was, and the results stand where the arguments stood |
| `Activations.RunUntouched` | src/interpreter.rs:1467-1515 | A run that stays above a frame leaves that frame's header and everything below its arguments alone |
| `Activations.StepIdles` | src/interpreter.rs:1495-1508 | Only a return of the entry frame finishes a run, and then stack pointer and frame pointer are zero |
| `Activations.FinishIdles` | src/interpreter.rs:1495-1508 | Finishing happens with one open frame, at zero |
| `Machine.RunSplit` | src/interpreter.rs:361-404 | Running a and then b instructions is running a + b instructions |
| `Runs.PortionsJoin` | src/interpreter.rs:361-404 | The same for runs that stop at pauses: out of fuel and running on is one run |
| `Runs.FuelCounts` | src/interpreter.rs:361-404 | Fuel counts instructions: a run that is out of fuel n has gone through exactly n steps, one by one, and one that ends otherwise ends with the step behind fewer than n |
| `Runs.UnpausedRun` | src/interpreter.rs:361-404 | A run that does not pause is the run in which pauses are resumed |
| `Runs.PausedRun` | src/interpreter.rs:191-225 | A pause, a resumption with the host's value and the rest of the fuel make up that run |
| `Runs.PauseIsContinue` | src/interpreter.rs:1557-1600 | Replacing every pause by an immediate answer changes no run of any code |
| `Runs.MismatchKeeps` | src/interpreter.rs:191-225 | A resumption changes nothing exactly when the value has another type than the host function declares |
| `Pauses.RunOn` | src/interpreter.rs:361-404 | Running on a paused invocation of loaded code without a resumption: the engine is in a state of the specified run if and only if the paused host function declares no result; then running on, for any fuel, is that run and never unsafe |
| `Pauses.DropUnderflows` | src/interpreter.rs:1584-1594 | A module the compiler accepts for which it goes wrong otherwise: `call; drop` with a pausing host function of type i32 takes a word off an empty operand stack |
| `Runs.PortionsSafe` | src/interpreter.rs:361-404 | An embedding that runs loaded code in portions of any size and resumes its pauses only meets states of the one uninterrupted run: no portion is unsafe and no resumption fails |
| `Bodies.StructuredIsRead` | src/code.rs:192-260 | The stream of a structured body is read as compiling that body, and reading stops behind its closing end |
| `Bodies.AcceptedIsStructured` | src/code.rs:192-260 | Only streams of structured bodies are accepted: a depth counter and the compiler's frames suffice to refuse every mismatched bracket |
| `Bodies.ReadParsed` | src/code.rs:192-260 | The loop compiles the sequence at the front of a stream and goes on behind it |
| `Bodies.ReadBroken` | src/code.rs:192-260 | A stream with mismatched brackets is refused |
| `Bodies.DeclaredCompiles` | src/code.rs:95-171 | An accepted function is its structured body, compiled, and its stream ends with the body |
| `Bodies.ParseStreams` | src/code.rs:192-260 | A parsed stream is the stream of what was parsed |
| `Bodies.StreamParses` | src/code.rs:192-260 | The stream of a sequence parses as that sequence |
| `Modules.LoadModule` | src/module.rs:933-955 | From a linked module and the streams of its functions to a store that runs: if all functions are accepted, the store with the module, the code in the pages and the linkage satisfy everything the results about invocations require, and each stored entry, local size and stack usage is the function's; too many parameter words and a wrong count of bodies are refused, and otherwise exactly what the code section refuses, with its error |
| `Modules.ReadCodeSection` | src/module.rs:935-955 | The loop over the bodies compiles each function behind the one before, with the result, error and code of the specified section |
| `Modules.IndexReady` | src/module.rs:351-390 | Every entry of the index space of a module read against a linked store leads to an earlier module, a host or the module itself, with the type calls are checked against |
| `Modules.StillMirrors` | src/store.rs:69-72 | The linked store and the store of compiled modules stay alike when both get the module |
| `Loading.ReadModuleKeeps` | src/module.rs:935-955 | Reading a code section against an index space that resolves keeps everything the main results require, for all modules, and only appends code |
| `Loading.ReadAllLoads` | src/module.rs:935-955 | Reading an accepted code section is compiling its functions in order |
| `Loading.LoadModuleKeeps` | src/code.rs:95-171 | Compiling the functions of a module whose index space resolves keeps everything the main results require of a store, among it that no two functions share code |
| `Loading.LoadFuncsOk` | src/code.rs:22-50 | All functions of a module are compiled in the resulting code, each behind the one before, and nothing in front of it changed |
| `Loading.EmptyLoaded` | src/store.rs:19-33 | The empty store satisfies the requirements of the main results |
| `CodeStore.CodeBuilder.Pc` | src/text.rs:343-363 | The current address is the number of words emitted, also on a full last page |
| `CodeStore.CodeBuilder.AddPage` | src/text.rs:366-372 | A new page changes no emitted word; it fails exactly at the page limit |
| `CodeStore.CodeBuilder.Push` | src/text.rs:375-388 | A push appends one word to the flat sequence and fails exactly when all pages are full |
| `CodeStore.CodeBuilder.Read` | src/text.rs:410-419 | Reading gives the word at that address of the flat sequence, and fails exactly outside the pages |
| `CodeStore.CodeBuilder.Write` | src/text.rs:390-400 | Writing changes that one word of the flat sequence |
| `CodeStore.CodeBuilder.Read32` | src/text.rs:422-427 | A slot is read as its two words, across page boundaries |
| `CodeStore.CodeBuilder.Write32` | src/text.rs:403-408 | Writing a slot changes its two words only, across page boundaries; outside the pages it fails, with the first word written if that lies inside |
| `CodeStore.CodeBuilder.Backpatch` | src/text.rs:292-327 | The loop along a chain in the pages does, for every chain and iteration limit, what the recursive definition does on the flat sequence, and terminates |
| `CodeStore.CodeBuilder.SplitTail` | src/text.rs:957-1006 | The loop that cuts off the tail does what the definition does on the flat sequence |
| `Builder.TextBuilder.constructor` | src/text.rs:488-511 | A new builder has the one implicit frame of the function |
| `Builder.TextBuilder.InstrImm8Or16` | src/text.rs:1099-1119 | Inline or extended 16-bit operand, refused above 65,535 |
| `Builder.TextBuilder.InstrImm8Or32` | src/text.rs:1138-1154 | Inline or extended 32-bit operand |
| `Builder.TextBuilder.InstrImm8Or64` | src/text.rs:1156-1167 | Inline or extended 64-bit operand |
| `Builder.TextBuilder.StackHeightFor` | src/text.rs:804-819 | The loop over the operand types computes the word height, up to an unknown type |
| `Builder.TextBuilder.PushStack` | src/text.rs:821-829 | Push, depth limit and high-water mark, as in the specification state |
| `Builder.TextBuilder.PopStackT` | src/text.rs:831-847 | Pop of any type, unknown below a dead frame's operands |
| `Builder.TextBuilder.PopStack` | src/text.rs:866-892 | Pop of a wanted type |
| `Builder.TextBuilder.PopStackTypes` | src/compiler.rs:221-223 | The loop over the parameters of a call, last one first |
| `Builder.TextBuilder.MarkDead` | src/text.rs:681-687 | Marking a frame dead truncates the operands to its start |
| `Builder.TextBuilder.FindVariable` | src/text.rs:563-588 | The two searches of `get_local` find what the definition says |
| `Builder.TextBuilder.FindDeclared` | src/text.rs:590-627 | The loop over the groups with its wrapping 16-bit counter |
| `Builder.TextBuilder.WriteLabel` | src/text.rs:722-787 | One slot of a branch and the frame's new chain head |
| `Builder.TextBuilder.CheckBrTableResult` | src/text.rs:533-544 | All labels of a table must have one type |
| `Builder.TextBuilder.PopFrame` | src/text.rs:1023-1080 | Closing a frame and patching its chain in place |
| `Builder.TextBuilder.PopFrameAndPatchIf` | src/text.rs:957-1006 | Closing a then part and cutting off the tail in place |
| `Compiler.Plain` | src/code.rs:205-260 | Any instruction without a body on the mutable builder has the result, error and new state of the specified step, and on success keeps the chain and operand invariants |
| `Compiler.EnterBlock` | src/compiler.rs:94-100 | `enter_block` on the mutable builder has the result, error and new state of the specified step, and on success keeps the chain and operand invariants |
| `Compiler.ExitBlock` | src/compiler.rs:102-106 | `exit_block` on the mutable builder has the result, error and new state of the specified step, and on success keeps the chain and operand invariants |
| `Compiler.Finish` | src/compiler.rs:108-121 | `finish` on the mutable builder has the result, error and new state of the specified step |
| `Compiler.EnterLoop` | src/compiler.rs:123-128 | `loop_` on the mutable builder has the result, error and new state of the specified step, and on success keeps the chain and operand invariants |
| `Compiler.EnterIf` | src/compiler.rs:130-137 | `if_` on the mutable builder has the result, error and new state of the specified step, and on success keeps the chain and operand invariants |
| `Compiler.Else` | src/compiler.rs:139-154 | `else_` on the mutable builder has the result, error and new state of the specified step, and on success keeps the chain and operand invariants |
| `Compiler.Br` | src/compiler.rs:156-162 | `br` on the mutable builder has the result, error and new state of the specified step, and on success keeps the chain and operand invariants |
| `Compiler.BrIf` | src/compiler.rs:164-171 | `br_if` on the mutable builder has the result, error and new state of the specified step, and on success keeps the chain and operand invariants |
| `Compiler.BrTable` | src/compiler.rs:173-195 | The three `br_table` methods over any number of cases on the mutable builder has the result, error and new state of the specified step, and on success keeps the chain and operand invariants |
| `Compiler.Return` | src/compiler.rs:197-209 | `return_` on the mutable builder has the result, error and new state of the specified step, and on success keeps the chain and operand invariants |
| `Compiler.Call` | src/compiler.rs:211-269 | `call` on the mutable builder has the result, error and new state of the specified step, and on success keeps the chain and operand invariants |
| `Compiler.Drop` | src/compiler.rs:73-83 | `drop` on the mutable builder has the result, error and new state of the specified step, and on success keeps the chain and operand invariants |
| `Compiler.Select` | src/compiler.rs:85-92 | `select` on the mutable builder has the result, error and new state of the specified step, and on success keeps the chain and operand invariants |
| `Compiler.Numeric` | src/compiler.rs:37-46 | Numeric instructions on the mutable builder has the result, error and new state of the specified step, and on success keeps the chain and operand invariants |
| `Compiler.Constant` | src/compiler.rs:456-481 | The four constants on the mutable builder has the result, error and new state of the specified step, and on success keeps the chain and operand invariants |
| `Compiler.LocalGet` | src/compiler.rs:300-306 | `local.get` on the mutable builder has the result, error and new state of the specified step, and on success keeps the chain and operand invariants |
| `Compiler.LocalSet` | src/compiler.rs:308-314 | `local.set` on the mutable builder has the result, error and new state of the specified step, and on success keeps the chain and operand invariants |
| `Compiler.LocalTee` | src/compiler.rs:316-323 | `local.tee` on the mutable builder has the result, error and new state of the specified step, and on success keeps the chain and operand invariants |
| `Compiler.Unreachable` | src/compiler.rs:401-405 | `unreachable` on the mutable builder has the result, error and new state of the specified step, and on success keeps the chain and operand invariants |
| `Compiler.ReadCode` | src/code.rs:192-260 | The decoding loop with its depth counter reads as many instructions as the specified loop, with the same result, error and code |
| `Compiler.LocalSize` | src/code.rs:133-148 | The loop over the groups adds up the words of the declared locals |
| `Compiler.ReadGroups` | src/code.rs:118-131 | The groups of locals, refused above 65,535 of one type |
| `Compiler.ReadFunctionCode` | src/code.rs:95-171 | Reading a declared function into the paged store gives the entry, local size and stack usage of the specified function and exactly its code behind what was there, or the same error, among them the one for a body that does not fill its declared size |
| `WordStack.Stack.ReadU64` | src/stack.rs:53-57 | Two words, low one first |
| `WordStack.Stack.WriteU32` | src/stack.rs:64-68 | One word changes |
| `WordStack.Stack.WriteU64` | src/stack.rs:75-79 | Two words change, and read back as the value |
| `Engine.Engine.constructor` | src/store.rs:150-170 | A new engine is idle |
| `Engine.Engine.Const` | src/interpreter.rs:792-815 | Constants: wherever the step of the machine is not unsafe, the unchecked handler makes it, and a trap, pause or end is the same one |
| `Engine.Engine.Drop` | src/interpreter.rs:1374-1380 | `drop`: wherever the step of the machine is not unsafe, the unchecked handler makes it, and a trap, pause or end is the same one |
| `Engine.Engine.Select` | src/interpreter.rs:1382-1412 | `select`: wherever the step of the machine is not unsafe, the unchecked handler makes it, and a trap, pause or end is the same one |
| `Engine.Engine.Numeric` | src/interpreter.rs:430-548 | The numeric handlers: wherever the step of the machine is not unsafe, the unchecked handler makes it, and a trap, pause or end is the same one |
| `Engine.Engine.LocalGet` | src/interpreter.rs:1664-1682 | `local.get`: wherever the step of the machine is not unsafe, the unchecked handler makes it, and a trap, pause or end is the same one |
| `Engine.Engine.LocalSet` | src/interpreter.rs:1684-1702 | `local.set`: wherever the step of the machine is not unsafe, the unchecked handler makes it, and a trap, pause or end is the same one |
| `Engine.Engine.LocalTee` | src/interpreter.rs:1704-1720 | `local.tee`: wherever the step of the machine is not unsafe, the unchecked handler makes it, and a trap, pause or end is the same one |
| `Engine.Engine.If` | src/interpreter.rs:1414-1425 | `if`: wherever the step of the machine is not unsafe, the unchecked handler makes it, and a trap, pause or end is the same one |
| `Engine.Engine.Br` | src/interpreter.rs:1427-1429 | `br`: wherever the step of the machine is not unsafe, the unchecked handler makes it, and a trap, pause or end is the same one |
| `Engine.Engine.BrIf` | src/interpreter.rs:1431-1439 | `br_if`: wherever the step of the machine is not unsafe, the unchecked handler makes it, and a trap, pause or end is the same one |
| `Engine.Engine.BrTable` | src/interpreter.rs:1441-1465 | `br_table` with the reader's walk: wherever the step of the machine is not unsafe, the unchecked handler makes it, and a trap, pause or end is the same one |
| `Engine.Engine.BrImpl` | src/interpreter.rs:304-340 | `br_impl`, a copy loop unrolled by arity: wherever the step of the machine is not unsafe, the unchecked handler makes it, and a trap, pause or end is the same one |
| `Engine.Engine.Return` | src/interpreter.rs:1467-1515 | `return_`, its copy loop over overlapping words included: wherever the step of the machine is not unsafe, the unchecked handler makes it, and a trap, pause or end is the same one |
| `Engine.Engine.CallImpl` | src/interpreter.rs:76-116 | `call_impl`, its zeroing loop included: wherever the step of the machine is not unsafe, the unchecked handler makes it, and a trap, pause or end is the same one |
| `Engine.Engine.CallEnterModule` | src/interpreter.rs:59-74 | `call_impl_enter_module`: wherever the step of the machine is not unsafe, the unchecked handler makes it, and a trap, pause or end is the same one |
| `Engine.Engine.CallHost` | src/interpreter.rs:1521-1600 | `call_host`: wherever the step of the machine is not unsafe, the unchecked handler makes it, and a trap, pause or end is the same one |
| `Engine.PickCase` | src/ir_reader.rs:146-188 | The skipping loops read the chosen slot and end behind the table |
| `Engine.Engine.VisitInstruction` | src/ir_reader.rs:67-491 | Decoding and dispatching one instruction from the pages is the step of the machine |
| `Engine.Engine.Cycle` | src/interpreter.rs:370-400 | One round of the loop leaves the engine running in the machine's next state, paused in it, or idle |
| `Engine.Engine.Run` | src/interpreter.rs:361-404 | The loop over fuel is the specified run: same state when out of fuel or paused; after Finished or a trap the engine is idle with the result words stored, so the next invocation is not busy; on an idle engine nothing happens. A host result that is owed is not looked at: it stays owed, and a further pause is the panic of the source |
| `Engine.Engine.ResumeWith` | src/interpreter.rs:191-225 | Without a pause an error and no change; a value of another type leaves the pause pending and changes nothing; otherwise the words of the value are pushed and nothing else changes |
| `Engine.Engine.Invoke` | src/interpreter.rs:121-181 | Each error exactly in its case, in the code's order; Busy changes nothing, other errors leave the engine idle; success is the specified start |
| `Ring.CircularBuffer.Push` | src/util/circular_buffer.rs:54-69 | Appends, and overwrites the oldest element exactly on a full ring |
| `Ring.CircularBuffer.PopFront` | src/util/circular_buffer.rs:71-81 | Takes the oldest element |
| `Ring.CircularBuffer.Front` | src/util/circular_buffer.rs:94-99 | Shows the oldest element |
| `Leb128.UnsignedRoundTrip` | src/reader.rs:208-251 | What section 5.2.2 of the WebAssembly Core Specification 1.0 allows reads back every value from its standard encoding, whatever follows |
| `Leb128.SignedRoundTrip` | src/reader.rs:261-332 | The same for signed integers |
| `Leb128.UnsignedFits` | src/reader.rs:208-251 | Every value found fits its type |
| `Leb128.SignedFits` | src/reader.rs:340-451 | The same for signed integers |
| `Leb128.UnsignedExactly` | src/reader.rs:208-251 | A value is found exactly where the first byte without continuation bit is, if that many bytes are allowed, as the number of its seven-bit digits, if that fits the width; the bytes end too early exactly when all ask for another that is allowed |
| `Leb128.SignedExactly` | src/reader.rs:261-451 | The same with the sign in bit 6 of the last byte |
| `Leb128.ShiftPairExtends` | src/reader.rs:261-332 | A shift to the left and an arithmetic shift back extend the sign of a shorter number |
| `Reader.ByteReader.FillBuffer` | src/reader.rs:109-158 | Refilling the ring, chunk by chunk, changes nothing about the bytes to come, never overwrites an unread byte, gives every used chunk back, and reports Eof exactly at the end of the flat bytes |
| `Reader.ByteReader.PeekU8` | src/reader.rs:160-172 | The next byte of the flat sequence, without looking at the limit |
| `Reader.ByteReader.ReadU8` | src/reader.rs:174-183 | Succeeds exactly when the offset is below the limit and a byte is left, then gives that byte and moves by one; otherwise Eof with nothing changed |
| `Reader.ByteReader.ExpectU8` | src/reader.rs:185-194 | A wrong byte or the end consumes nothing; the right byte is refused exactly at the limit |
| `Reader.ByteReader.ReadU32` | src/reader.rs:208-251 | Accepts exactly the encodings the specification allows, returns their value, and consumes exactly what was looked at |
| `Reader.ByteReader.ReadI32` | src/reader.rs:261-332 | The same for signed 32-bit integers, with the padding test on the last byte |
| `Reader.ByteReader.ReadI64` | src/reader.rs:340-451 | The same for signed 64-bit integers |
| `Reader.LastFourSigned` | src/reader.rs:305-332 | Counting ones in the padding of the fifth byte accepts exactly the sign extensions the specification allows |
| `Reader.LastOneSigned` | src/reader.rs:432-451 | The same for the tenth byte |
| `Reader.ByteReader.EnterLimit` | src/reader.rs:77-88 | A limit is taken exactly when it lies within the current one |
| `Reader.ByteReader.LeaveLimit` | src/reader.rs:88-92 | The previous limit is back |
| `Reader.ByteReader.Perform` | src/reader.rs:77-92 | Chunk independence: any program of reads under nested limits, in which every read may depend on the values read before, gives, over any split into chunks, the values, errors, offset and remaining bytes it gives on the flat sequence |
| `Reader.LimitKept` | src/reader.rs:77-92 | Such programs never read past the innermost limit, and leave the limit as it was on success and on every error |
| `Reader.LimitReached` | src/reader.rs:77-92 | Under a limit of n with n bytes left, n single reads succeed, giving the bytes in order, and the next is Eof; afterwards the old limit is back |
| `Reader.BytesRun` | src/reader.rs:174-183 | Any number of single reads gives the bytes one by one, as many as are left within the limit, then Eof |
| `Reader.AvailExactly` | src/reader.rs:174-183 | The bytes within the limit, on which integers are read, are the bytes left, up to the limit and no fewer |
| `Reader.ByteReader.Drop` | src/reader.rs:514-521 | At the end every chunk was given back exactly once, in order |
| `Paging.AlignUpLeast` | src/util/paging.rs:231-240 | The start of a block is the least multiple of its alignment |
| `Paging.AllocOk` | src/util/paging.rs:231-252 | A page takes a block exactly when it fits behind the others, and the block is aligned, inside the page and apart from all others; what was handed out and what was lost to alignment make up the used part |
| `Paging.DeallocOk` | src/util/paging.rs:254-268 | The count falls to zero exactly when no block of the page is in use |
| `Paging.LiveSafe` | src/util/paging.rs:91-143 | In every reachable heap all blocks in use are aligned, inside resident pages and pairwise disjoint, across pages |
| `Paging.FitsResident` | src/util/paging.rs:103-116 | While nothing was freed, resident pages are a prefix of the table, so a new page is taken only when no resident one has room |
| `Paging.EmptyHeap` | src/util/paging.rs:167-170 | No page is left exactly when no block is in use |
| `Paging.PageAllocator.constructor` | src/util/paging.rs:70-77 | An empty heap |
| `Paging.PageAllocator.Alloc` | src/util/paging.rs:91-143 | First fit: the block goes to the first page with room, or to a new page in the first empty place; the result, with every error, is determined: nothing for zero bytes, a poisoned heap, a full table, a refusal of the backing allocator, a block too large for a new page; a new block is apart from all others in use and failures change nothing |
| `Paging.PageAllocator.Dealloc` | src/util/paging.rs:145-187 | A free takes exactly that block out of use; the heap is poisoned exactly until nothing is in use, and then every page is back with the backing allocator; an address no resident page owns changes nothing |
| `Paging.PageAllocator.Drop` | src/util/paging.rs:189-208 | All pages go back |
| `Linking.LinkResolves` | src/imports.rs:29-405 | A successful link of any kind names an entry that the named earlier module or host itself defines, with the declared type, or with limits that satisfy the declared ones |
| `Names.LinkExactly` | src/imports.rs:29-405 | Said by positions only: an import is linked to a place if and only if its names lead there and what lies there suits the declaration. They lead to the first host module of that name with a symbol of that name of that kind, at its first such symbol; if there is none, to what the first Wasm module of that name with an export of that name exports at its first such export. The error is the not-found error of the kind if and only if there is neither |
| `Names.RefExactly` | src/module.rs:351-431 | An index leads to the import of its kind with that many others before it, or behind all imports to the definition, and to nothing behind the last |
| `Names.MatchesExactly` | src/types.rs:238-248 | Limits match exactly when they admit no size that is not admitted by those asked for |
| `Names.IndexAgrees` | src/compiler.rs:211-269 | The index space that calls are compiled against is the one that linking goes through |
| `Linking.FuncResolves` | src/module.rs:351-390 | Every function index of a loaded module leads in one hop to a definition |
| `Linking.GlobalResolves` | src/module.rs:392-431 | The same for globals |
| `Linking.GetRef` | src/module.rs:351-431 | The counting loop finds the entry of the index space: imports of the kind first, then definitions |
| `Linking.ModuleReader.ImportSection` | src/module.rs:217-278 | All imports of an accepted section are resolved and satisfy their declarations, and the one imported memory or table is noted; a section is refused exactly for the first import that cannot be linked, with that error, or, if all can, for the first second memory or table |
| `Linking.ModuleReader.NoteAll` | src/module.rs:220-277 | Refused exactly when there are two memories or two tables, with the error of the first that is one too many; otherwise the imported one becomes the module's |
| `Linking.ModuleReader.TableSection` | src/module.rs:282-288 | A second table is refused |
| `Linking.ModuleReader.MemorySection` | src/module.rs:641-662 | A second memory is refused; an empty section leaves the module without memory, even an imported one |
| `Linking.PushKeeps` | src/store.rs:69-72 | Adding a module read against the store keeps every import of every module resolved |
| `Linking.PopKeeps` | src/store.rs:58-60 | Taking the last module away keeps it too |
| `Linking.ModuleStore.PushModule` | src/store.rs:69-72 | Fails exactly at capacity, with no change |
| `Linking.ModuleStore.PopModule` | src/store.rs:58-60 | Takes exactly the last module, and keeps every import resolved |
| `Linking.ModuleStore.GetMemory` | src/store.rs:74-91 | The unreachable arm is never reached: the module named by an imported memory owns one |
| `Linking.ModuleStore.GetTable` | src/store.rs:93-112 | The same for tables |
| `Linking.LinkedStore` | src/compiler.rs:211-269 | Linked modules have the index spaces the compiler and the main results require: every call leads to a function or host function of the declared type |

## Left out

- Opcodes: floating-point arithmetic, conversions, globals, linear memory, tables, `call_indirect` and most numeric instructions. Eight numeric instructions stand for the stack shapes; F32 and F64 values are carried as bit patterns by constants, locals, select, calls and branches. The decoder of the model takes the opcodes left out for malformed code.
- Bit operations are written as products, quotients and remainders; the packed fields are those of the source.
- Builds with strict assertions or overflow checks: the model is the release build, in which the 16-bit counter of `get_local` wraps.
- Code addresses of 2^31 and above, where the source computes in signed 32-bit numbers.
- Failing heap allocations of a code page, the stack or a vector: a page is refused only at the page limit.
- The state of a builder after an error: compilation is abandoned then, and the contracts say which error it was.
- `read_code` reads tokens: the decoding of opcodes and immediates from bytes is not part of this model, and the declared size of a body counts its tokens. Overflow of the byte count of locals beyond the address space.
- Host functions that call back into the engine, and hosts that answer with another type than declared, where the source panics.
- The result of a function is the sequence of its result words; the source packs them into one raw 64-bit value, zero for no result.
- What an engine does once it has taken words off an empty operand stack, after running on without a host's value: `Pauses` says when that happens and follows it no further.
- Start functions, constant expressions, element and data segments, table contents.
- Stream errors with a code of their own, and empty chunks before the end of a stream: the latter report Eof although more bytes follow.
- The sections of a module that are read without state (types, exports, custom), UTF-8, names and vectors.
- `strip_bytes`, `skip`, the vector readers and the float readers.
- The unrolled integer readers share one helper for a septet of bits each; the order of tests and the places of errors are theirs.
- A page of the allocator is a value in the allocator's table, replaced when it changes; the source updates it in place. Addresses are numbers.
- Paging.PageAllocator.Dealloc: requires a block in use or an address no resident page owns. Freeing another address of a page counts as a free in the source; on a foreign address a debug assertion fails there, and the model is the release build.
- Wrap-around of address sums at the end of the address space.
- Statistics of the page allocator over all pages; the counts of each page are modelled.
- Memory and table of a host module are named, not modelled; `get_memory_mut` and the copy-on-write it triggers are left out.
- What modules that import a memory see when the memory section of the exporting module was empty.
- `Linking` takes names as sequences of characters, compares them for equality, and does not check exports against index spaces.
- Modules loaded while an invocation is paused.
- Chains.BackpatchLimit: stated for well-formed chains; `Extension.CompileExtends` shows that the compiler makes no others.
