# Verified model of the tamal toolchain

tamal turns a small test language into instruction words for an eSPI bus engine. A source module is
lowered to assembler text, the text is assembled to words, and the words travel to the engine in
COBS frames closed by a CRC-8. This project models that whole path and proves what each stage keeps.

The two ends of the compiler are given meanings of their own. `Meaning` reads a module directly: it
puts bytes, receives bytes, polls, remembers residues and, when a frame closes, lets the first nonzero
residue decide the verdict; it knows no registers. `Interp` does the same with the sixteen registers
in view, so that raw statements may look at them. `Machine` runs 32-bit words over a register file, a
program counter and a bus device (input still to come, receive CRC, CS#, RESET#, event log).

The main results: `CompiledText.EndToEnd`, for every accepted module without raw branches and every
input, the words obtained from the compiler's *text* stop having produced exactly the bus events, and
the status, of the interpreter, and never run off the end; `Invisible.RegistersInvisible`, if no raw
statement names a register, that is what the module means without registers; and
`Delivery.DeliveredRuns`, it stays so after the words have crossed the wire. `Accepted.LoweredIs` says
from the syntax alone which modules are accepted, how many lines they take, and what the first error is.
The assembler is held from both sides: `Diagnostics.AssembliesIff` and `Shapes.EncodesIff` say which
programs assemble, `Effects` and `BusEffects` what each line does, mnemonic by mnemonic, and
`Constants.PassZero` and `Inlining.ReplaceableIff` what `.equ` means.

## How the modules fit

| files | what they hold |
|---|---|
| `Prelude`, `Text`, `Bits` | failure types, machine integers, numerals, the words of the language, numbers as rows of bits |
| `Isa`, `Crc8`, `Machine`, `Input` | the instruction codec, the CRC register, the word machine, and runs on longer input |
| `Asm`, `Assembler`, `AsmSim`, `Simulation` | line syntax, operand resolution, the three passes, the label-form machine and its simulation by words |
| `Operands`, `Shapes`, `Effects`, `BusEffects` | register names, the operands each mnemonic takes, what a line of each does |
| `Constants`, `Inlining` | `.equ` lines, when a program assembles, constants against their numbers |
| `Lexer`, `TextLaws`, `Grammar`, `Printer`, `Listing` | text to tokens to lines, comments and numerals, which tokens are lines, lines to text, rendered instructions |
| `Ast`, `ConstEval`, `Semantics`, `Binding` | the language, guarded evaluation, its unguarded meaning, argument binding |
| `RegAlloc`, `Emit`, `LineTexts`, `Lowering`, `Driver` | the register pool and the emitter, and the text of each line it writes, as specification functions and as the objects that update themselves in place |
| `Interp`, `Meaning`, `Values` | the source interpreter, the meaning without registers and why they agree, what stays in a register |
| `EmittedLines`, `Verdicts`, `Correct`, `Program`, `Extent`, `Provenance`, `CompiledText`, `Delivery`, `Example` | the correctness of lowering, what an expansion reaches, where each line of the text comes from, the whole path, and three small modules |
| `Weight`, `Acceptance`, `Accepted` | what a test costs, read from its syntax; that lowering costs that; which modules are accepted |
| `CsSafety`, `Ownership`, `Conservation`, `Labels`, `Linkage`, `Budget`, `CallGraph` | CS# safety, registers, labels and assembly, budgets, recursion |
| `Cobs`, `Wire` | COBS, little-endian words, frames, control messages, stream recovery |

Where the program updates things step by step, a method with loops or a class carries the steps and
is proved equal to a specification function; the properties are then lemmas about that function.
`Emit` and `RegAlloc` hold the functions, `Lowering.Emitter` and `Registers.RegAlloc` the objects.
Evaluation and expansion are total: their measure is the callables not yet active, then the size of the
term, then the iterations left.

## Conventions

- Integers are unbounded in Dafny, so every width is written out: `byte`, `u16`, `u32` and `i64` are
  ranges, addresses wrap with `% 0x1_0000`, and shifts and masks of fields are products and
  remainders. Bit operations on registers and on 64-bit integers are recursions over `Bits`, with laws
  bit by bit; the CRC register is a bit vector.
- An instruction that samples (`get_byte`, `get_bits`, `get_alert`, `wait_on`) takes one element of a
  finite input. When the input is used up the program is `Starved`: it waits for ever. `Input.MoreInput`
  shows that a run on a finite input is a prefix of the run on any longer one.
- Errors are values of small datatypes. In the language only recursion, the two budgets and running
  out of registers are told apart; the first error met is the one returned, as in the program.
- Raw statements, `config` and `fail` hold the words of the source as spelled (`Lexeme`: a digit or
  letter and what may follow it), and the emitter copies them into the text without a look at them.
- `RawStraight` excludes raw branches and nothing else. `ModuleKeeps(m, kept)` also excludes raw writes
  to the registers in `kept`, for any set of registers; `ModuleBlind` excludes raw statements that name
  a register other than x0. `ModuleQuiet` excludes, for CS# only, raw CS# operations and a raw `halt`
  in a frame or in a proc called from one.
- The interpreter lends registers as the compiler does, because a raw statement can look at them.

## Where the code and its documentation differ

- `exit_scope` says it drops the names of the scope. It removes them even when an outer scope had
  bound them, so a shadowed name is lost: `Names.ShadowedNameLost` gives two programs, and
  `Names.FrameRestoresNames` and `Names.ExpansionRestoresNames` the exact condition, over everything
  the frame, call or `repeat` expands to. Nothing in the emitter looks a name up.
- The language's lexer takes numerals such as `0x1_1`, `0x` and `99999999999999999999`, and `fail` and
  raw statements pass them on; the assembler reads none of them. So an accepted module need not have a
  text the assembler can read: `Example.BadNumeral` is one, and `CompiledText.TextReadIff` says exactly
  when it has.
- The recursion guard is described as what stops endless expansion. It also rejects calls that would
  finish: `Semantics.GuardIsStricter`. What it rejects always lies on a call cycle.
- `li_word_count` speaks of one to four words. `tile_li` gives one or two: `Tiling.TileLoads`.
- `.equ` is described as naming a constant. A name that is also a register, or in any case a keyword,
  is still read as that where one is allowed: after `.equ t0, 5`, `put_byte t0` puts the register.
  `Inlining.ReplaceableIff` says exactly which names can be replaced by their numbers everywhere.
- COBS decoding accepts a full final group with or without a trailing 0x01: `Cobs.DecodeIff` says
  exactly which buffers decode to which data.

## Model

| member | source | states |
|---|---|---|
| `CompiledText.EndToEnd` | crates/tamal-lang/src/lib.rs:176-182 | whenever the text of an accepted module without raw branches assembles, its words, on every input, stop with the interpreter's bus events and status, and never run off the end |
| `Invisible.RegistersInvisible` | crates/tamal-lang/src/lib.rs:176-182 | if no raw statement names a register either, they stop with the bus events and status of the meaning that knows no registers: allocation, scopes, reserved registers and trailers never show |
| `Delivery.DeliveredRuns` | crates/tamal-loader/src/transport.rs:34-49 | sent as a program load among other messages after any garbage, exactly one frame in its place decodes to words whose run does what the interpreter says of the source |
| `CompiledText.TextReadIff` | crates/tamal-lang/src/emit.rs:392-408 | the assembler reads the emitted text back as exactly the lines the emitter meant if and only if every numeral that an expanded raw statement or `fail` copies is a number of 64 bits; otherwise it rejects the text |
| `CompiledText.TextAssembles` | crates/tamal-lang/src/lib.rs:176-182 | the text of an accepted module assembles if and only if those numerals can be read, the copied lines mean something, and the program fits in 1024 words |
| `CompiledText.CompiledAssembles` | crates/tamal-asm/src/lib.rs:62-116 | only raw, `config` and `fail` statements that are expanded can fail to resolve: with them meaningful, the lines assemble exactly when they fit in 1024 words |
| `CompiledText.ProgramTraced` | crates/tamal-lang/src/emit.rs:283-296 | every line of an emitted program is the compiler's own, readable and meaningful, or the verbatim copy of one expanded statement, and every such statement is there |
| `LineTexts.MadeTexts` | crates/tamal-lang/src/emit.rs:424-439 | the compiler's own lines, character by character: bytes, codes and WAIT_STATE in two upper-case hexadecimal digits, registers as `x` and a numeral |
| `LineTexts.ConfigText` | crates/tamal-lang/src/emit.rs:443-460 | a `config` adds the line `set_config r, i, s, a` with its words in order |
| `LineTexts.FailText` | crates/tamal-lang/src/emit.rs:372 | a `fail` adds a `halt` with its numeral as spelled |
| `LineTexts.FrameTurnsAway` | crates/tamal-lang/src/emit.rs:363-390 | in a frame, `pass`, `fail`, `config` and `frame` are errors |
| `Provenance.StmtSourced` | crates/tamal-lang/src/emit.rs:363-390 | the same after any statement, expansions followed |
| `Program.CompilerCorrect` | crates/tamal-lang/src/emit.rs:145-156 | the words of every accepted module without raw branches, on every input, come to a halt, a trap or a wait for input, with the device and status the interpreter gives |
| `Example.SampleLowers` | crates/tamal-lang/src/lib.rs:402-416 | a frame with one `expect`, then `pass`, lowers to exactly the ten lines the repository expects of it |
| `Example.SampleQualifies` | crates/tamal-lang/src/lib.rs:402-416 | that module is accepted, assembles and meets every condition of the main results, so they are not empty |
| `Example.RawText` | crates/tamal-lang/src/emit.rs:887-908 | a test with two raw statements gives exactly the text the repository expects, its words spelled as in the source |
| `Example.RawQualifies` | crates/tamal-lang/src/emit.rs:887-908 | that test looks at a register, assembles, and is within the main results |
| `Example.BadNumeral` | crates/tamal-lang/src/lexer.rs:194-204 | `fail 0x1_1` is accepted and the assembler reads nothing from its text |
| `Program.LinesCorrect` | crates/tamal-lang/src/emit.rs:145-156 | the same for the label form, before assembly |
| `Program.HaltingBody` | crates/tamal-lang/src/lib.rs:95-115 | the driver's scan is sound: a body with a terminator at its top level never runs past its end |
| `Program.WholeProgram` | crates/tamal-lang/src/emit.rs:246-256 | after the trailers are flushed every hoisted label is followed by its halt, labels are unique, and there is no `.equ` |
| `Correct.StmtSteps` | crates/tamal-lang/src/emit.rs:363-390 | from matching positions, running the lines of any lowered statement leaves the device, all sixteen registers and the program counter where the interpreter says, or stops as it does |
| `Correct.RegionIs` | crates/tamal-lang/src/emit.rs:429-442 | sending the expressions of a region one after the other and then the CRC of all that was sent is sending the bytes that are folded for it and their CRC |
| `Emit.SendsJoin` | crates/tamal-lang/src/emit.rs:433-440 | the bytes of a region of `a + c` are those of `a`, then those of `c`, and its error is the first |
| `Emit.OneSend` | crates/tamal-lang/src/emit.rs:433-440 | the bytes of a region of one send are those of the send |
| `Correct.FrameSteps` | crates/tamal-lang/src/emit.rs:462-505 | a frame raises CS# before any verdict branch, and its first nonzero residue gives the status |
| `Correct.CallSteps` | crates/tamal-lang/src/emit.rs:596-668 | an inlined proc does what the interpreter does with its body under the bound parameters |
| `Correct.RepeatSteps` | crates/tamal-lang/src/emit.rs:677-714 | the unrolled copies do what the iterations do |
| `Correct.WaitStateSteps` | crates/tamal-lang/src/emit.rs:529-559 | the poll loop receives until a byte is not WAIT_STATE, with the CRC covering that byte only |
| `Correct.ExpectSteps` | crates/tamal-lang/src/emit.rs:561-585 | the residue after the CRC byte is latched in the register lent for it, and its verdict is remembered with that register |
| `Correct.VerdictSteps` | crates/tamal-lang/src/emit.rs:493-501 | the branches of a closed frame reach the trailer of the first failing verdict, or fall through |
| `Correct.RecvAllSteps` | crates/tamal-lang/src/emit.rs:507-527 | each target receives one byte into the register lent for it |
| `Invisible.StmtSame` | crates/tamal-lang/src/emit.rs:363-390 | any statement whose raw statements name no register does on the bus what it means without registers |
| `Values.StmtPreserves` | crates/tamal-lang/src/regalloc.rs:1-7 | if raw statements write no register of a set, every statement leaves in the lent ones of that set what was there, and every pending verdict's register still holds its residue |
| `Values.NamedValueStays` | crates/tamal-lang/src/regalloc.rs:1-7 | a name keeps its register, and the register its value, through all statements of its open scope that do not bind it again, and all procs they call |
| `Values.ReceivedByName` | crates/tamal-lang/src/emit.rs:507-527 | the register of a name bound by `recv` holds the byte received |
| `Values.PolledByName` | crates/tamal-lang/src/emit.rs:529-559 | the register of a name bound by `wait_state` holds the last byte received, which is not WAIT_STATE |
| `CsSafety.CsSafe` | crates/tamal-lang/src/emit.rs:462-505 | in every reachable state of every compiled program CS# has strictly alternated, and after a halt or a trap it is high |
| `CsSafety.StmtSafe` | crates/tamal-lang/src/emit.rs:809-821 | CS# is low between the statements of a frame body and high between all others |
| `Conservation.StmtTracked` | crates/tamal-lang/src/emit.rs:363-390 | every statement keeps the accounting of registers and names, writes no register busy at its entry that raw statements do not write, defers verdicts in free registers only, and every branch emitted so far lands |
| `Conservation.FrameConserves` | crates/tamal-lang/src/emit.rs:462-505 | a frame leaves the busy registers and the scopes exactly as they were |
| `Conservation.CallTracked` | crates/tamal-lang/src/emit.rs:596-668 | after a call the busy registers are those busy before and those of pending verdicts |
| `Conservation.RepeatTracked` | crates/tamal-lang/src/emit.rs:677-714 | the same after a whole `repeat` |
| `Conservation.ExitTracked` | crates/tamal-lang/src/emit.rs:758-781 | closing an expansion keeps the pending registers, releases the rest of its scope, and each busy register still has an owner |
| `Linkage.EveryVerdictHeld` | crates/tamal-lang/src/emit.rs:493-501 | in every accepted module each verdict branch, on a register raw statements do not write, looks at a residue an earlier `rdsr` latched, with no write of the register in between |
| `Conservation.VerdictsReachBranches` | crates/tamal-lang/src/emit.rs:493-501 | as a frame closes, at any nesting, each of its verdicts has its branch, in its place and on its register, and the registers are distinct |
| `Conservation.WritesExact` | crates/tamal-abi/src/isa.rs:218-293 | an instruction changes no register but the one it is said to write, and never x0 |
| `Verdicts.StmtSound` | crates/tamal-lang/src/emit.rs:770-781 | pending verdicts own busy registers after every statement, and frames do not nest |
| `Ownership.AllocFree` | crates/tamal-lang/src/regalloc.rs:117-128 | freeing a register just allocated restores the pool exactly |
| `Ownership.ExpansionExit` | crates/tamal-lang/src/emit.rs:758-781 | the pool after an expansion is the pool before it with the pending registers added to its innermost scope |
| `Names.FrameNames` | crates/tamal-lang/src/regalloc.rs:58-70 | after a frame the bindings are those before it less every name bound anywhere in what it expands to |
| `Names.FrameRestoresNames` | crates/tamal-lang/src/regalloc.rs:58-70 | so they are restored if and only if no name visible before the frame is bound in it, in a proc it calls or in an iteration it runs |
| `Names.ExpansionRestoresNames` | crates/tamal-lang/src/emit.rs:758-762 | the same for a call and for a `repeat` |
| `Names.ShadowedNameLost` | crates/tamal-lang/src/regalloc.rs:58-70 | two programs that lose a name: bound again in a frame, and in a `repeat` in a frame |
| `Labels.BodyLabelled` | crates/tamal-lang/src/emit.rs:342-346 | gensym names of emitted, hoisted and pending labels stay pairwise distinct through every expansion |
| `Labels.ProgramLabels` | crates/tamal-lang/src/emit.rs:246-256 | no label occurs twice in a program and its trailers |
| `Linkage.CompiledLinked` | crates/tamal-lang/src/emit.rs:491-501 | each branch of a compiled program goes to a label defined exactly once, in front of an instruction |
| `Linkage.InReach` | crates/tamal-asm/src/encoder.rs:261-289 | in a linked program of at most 1024 words every branch offset is in range |
| `Linkage.AssemblesIff` | crates/tamal-asm/src/lib.rs:62-116 | a linked program assembles if and only if every line means something and it fits in 1024 words |
| `Budget.BudgetsRefine` | crates/tamal-lang/src/emit.rs:283-296 | a module is accepted exactly when its unbudgeted expansion succeeds within 4096 lines, trailers included, and 65536 expansions, and then the output is the same |
| `Budget.StmtRefines` | crates/tamal-lang/src/emit.rs:733-747 | the same for any statement from any state within the budgets |
| `Accepted.LoweredIs` | crates/tamal-lang/src/lib.rs:33-127 | a module with legal names and constants lowers to as many lines as its test weighs, or fails with the error weighing meets first; without one test that says how it ends it is rejected |
| `Accepted.AcceptedIff` | crates/tamal-lang/src/lib.rs:33-127 | a module is accepted if and only if its names are legal, its constants have values in order, it has one test, that test says how it ends, and it can be weighed: never more than fifteen registers held, 4096 lines, 65536 expansions |
| `Accepted.SeesIff` | crates/tamal-lang/src/lib.rs:36-83 | what a test sees: each `fn` and `proc` under its own name, none reserved or declared twice, and each constant with its value under the constants before it |
| `Acceptance.StmtCosts` | crates/tamal-lang/src/emit.rs:363-390 | any statement from any state is lowered if and only if it can be weighed, and then registers held, verdicts pending, lines, trailers and expansions are as weighed; otherwise its error is the one weighing meets first |
| `Acceptance.AllocIff` | crates/tamal-lang/src/regalloc.rs:74-93 | a register is to be had exactly while fewer than fifteen are held, and then one more is |
| `CallGraph.RecursionIsReal` | crates/tamal-lang/src/emit.rs:631-641 | the callable a recursion error names lies on a cycle of calls from bodies or defaults, so a module without such a cycle never gets one |
| `CallGraph.EvalCycle` | crates/tamal-lang/src/consteval.rs:233-257 | the same for evaluation in the midst of any chain of calls |
| `Semantics.EvalAgrees` | crates/tamal-lang/src/consteval.rs:170-257 | where the guard does not report recursion, evaluation gives the unguarded meaning, value or error, at any depth that lets each `fn` be entered once |
| `Semantics.DeeperSame` | crates/tamal-lang/src/consteval.rs:170-257 | more depth never changes an unguarded answer |
| `Semantics.EvalSound` | crates/tamal-lang/src/consteval.rs:170-257 | a value returned by evaluation is the one value the unguarded meaning has, which has names, builtins and types of its own |
| `Semantics.LowBytes` | crates/tamal-lang/src/consteval.rs:213-218 | `lo` and `hi` of any integer are its two low bytes |
| `Semantics.LengthAndCrc` | crates/tamal-lang/src/consteval.rs:206-212 | `len` is the number of bytes, and the `crc8` of bytes followed by their own is zero |
| `Semantics.XorBitwise` | crates/tamal-lang/src/consteval.rs:194-199 | `^` is exclusive or on each of the 64 bits |
| `Semantics.BytesInOrder` | crates/tamal-lang/src/consteval.rs:177-193 | `++` joins bytes in order, and a list of bytes is the bytes of its elements in order |
| `Semantics.WantedIff` | crates/tamal-lang/src/consteval.rs:279-310 | what evaluates to a byte, an integer or bytes where one of them is wanted |
| `Semantics.GuardIsStricter` | crates/tamal-lang/src/consteval.rs:233-249 | a call that would finish and that the guard rejects |
| `Binding.BindArgsIff` | crates/tamal-lang/src/consteval.rs:332-428 | binding succeeds exactly when the call is acceptable, and then binds exactly the declared parameters, each to its argument or default, with a value of its type |
| `Binding.NamedOrderIrrelevant` | crates/tamal-lang/src/consteval.rs:332-428 | permuting named arguments changes neither success nor the bindings |
| `Binding.CallReadsArguments` | crates/tamal-lang/src/consteval.rs:99-166 | a call depends on its caller's locals through its arguments only |
| `Binding.EvalReadsNames` | crates/tamal-lang/src/consteval.rs:170-202 | an expression depends on the locals it names at its own site only |
| `Binding.BindInLoops` | crates/tamal-lang/src/consteval.rs:332-428 | the two loops of the binder compute the specified bindings or the first error |
| `Registers.RegAlloc.constructor` | crates/tamal-lang/src/regalloc.rs:41-47 | one root scope and nothing taken |
| `Registers.RegAlloc.EnterScope` | crates/tamal-lang/src/regalloc.rs:51-53 | opens an empty scope and changes nothing else |
| `Registers.RegAlloc.ExitScope` | crates/tamal-lang/src/regalloc.rs:58-70 | releases exactly the registers and names of the innermost scope, unless it is the root |
| `Registers.RegAlloc.Take` | crates/tamal-lang/src/regalloc.rs:74-93 | takes the lowest free register for the innermost scope, or reports exhaustion and changes nothing |
| `Registers.RegAlloc.BindTo` | crates/tamal-lang/src/regalloc.rs:101-110 | the same, with a name |
| `Registers.RegAlloc.Release` | crates/tamal-lang/src/regalloc.rs:121-128 | frees one register and drops it from the innermost scope |
| `Registers.RegAlloc.Retake` | crates/tamal-lang/src/regalloc.rs:138-147 | takes a given register again for the innermost scope, once; one beyond the sixteen is only recorded |
| `Lowering.Emitter.constructor` | crates/tamal-lang/src/emit.rs:219-237 | an emitter with nothing emitted |
| `Lowering.Emitter.Append` | crates/tamal-lang/src/emit.rs:283-296 | appends one line and its text within the line budget and changes nothing else |
| `Lowering.Emitter.Copy` | crates/tamal-lang/src/emit.rs:392-408 | appends a line in the words of the source |
| `Lowering.Emitter.LowerSend` | crates/tamal-lang/src/emit.rs:410-427 | emits the folded bytes and, if asked, their CRC |
| `Lowering.Emitter.LowerCrcRegion` | crates/tamal-lang/src/emit.rs:429-442 | emits the bytes of every send and the CRC over all of them |
| `Lowering.Emitter.LowerRecv` | crates/tamal-lang/src/emit.rs:507-527 | one `get_byte` a target, keeping the register of named ones |
| `Lowering.Emitter.LowerWaitState` | crates/tamal-lang/src/emit.rs:529-559 | the poll loop, with its registers given back |
| `Lowering.Emitter.LowerExpect` | crates/tamal-lang/src/emit.rs:561-585 | consumes the CRC byte, latches the residue and defers the verdict |
| `Lowering.Emitter.LowerFrame` | crates/tamal-lang/src/emit.rs:462-505 | the specified frame, with the stacks balanced even on an error |
| `Lowering.Emitter.CloseFrame` | crates/tamal-lang/src/emit.rs:478-504 | CS# high, then the verdict branches and their trailers, then the scope |
| `Lowering.Emitter.LowerCall` | crates/tamal-lang/src/emit.rs:596-668 | the specified expansion; environment and call chain are restored even on an error |
| `Lowering.Emitter.LowerRepeat` | crates/tamal-lang/src/emit.rs:677-714 | the specified unroll |
| `Lowering.Emitter.EnterExpansion` | crates/tamal-lang/src/emit.rs:733-747 | charges the expansion budget and opens a scope, or changes nothing |
| `Lowering.Emitter.ExitExpansion` | crates/tamal-lang/src/emit.rs:758-762 | closes the scope and re-takes the pending registers |
| `Lowering.Emitter.ReserveDeferred` | crates/tamal-lang/src/emit.rs:773-781 | re-takes exactly the registers of the open frame's verdicts |
| `Lowering.Emitter.Statement` | crates/tamal-lang/src/emit.rs:363-390 | the specified lowering of any statement, with the stacks balanced even on an error |
| `Lowering.Emitter.FlushTrailers` | crates/tamal-lang/src/emit.rs:246-256 | appends the trailers in order, two lines each |
| `Lowering.Emitter.Test` | crates/tamal-lang/src/emit.rs:145-156 | entry label, statements, trailers |
| `CompilerDriver.LowerModule` | crates/tamal-lang/src/lib.rs:33-127 | the driver's checks in the driver's order, then the emitted text |
| `CompilerDriver.CheckProcs` | crates/tamal-lang/src/lib.rs:53-68 | proc names are legal exactly when none is reserved, a `fn`, or declared twice |
| `Assembler.Assemble` | crates/tamal-asm/src/lib.rs:62-116 | the code or every diagnostic, as the three passes give them |
| `Assembler.CollectEqus` | crates/tamal-asm/src/symbol.rs:47-90 | the constants and diagnostics of pass 0 |
| `Assembler.AssignAddresses` | crates/tamal-asm/src/symbol.rs:95-115 | the word count, labels and diagnostics of pass 1 |
| `Assembler.SymbolTable.Insert` | crates/tamal-asm/src/symbol.rs:36-43 | adds a symbol unless its name is taken |
| `Assembler.PassesAgree` | crates/tamal-asm/src/lib.rs:75-101 | on every line list, erroneous or not, pass 2 meets each line at pass 1's address modulo 2^16, though pass 1 sizes `li` with a partly filled table |
| `Diagnostics.AssembliesIff` | crates/tamal-asm/src/lib.rs:62-116 | a program assembles if and only if each `.equ` is the first to give its name a value, each label is new, each directive known, each instruction encodes where it stands, and the code fits in 1024 words |
| `Constants.PassZero` | crates/tamal-asm/src/symbol.rs:47-90 | pass 0 complains of nothing if and only if each `.equ` line is the first to give its name a value, a number or what an earlier line gave; the table then holds exactly what the lines give |
| `Constants.TableIs` | crates/tamal-asm/src/symbol.rs:47-90 | `.equ N, v` makes N the number v, `.equ N, M` makes N what M is, and no other name is in the table |
| `Inlining.ConstantsAreNumbers` | crates/tamal-asm/src/encoder.rs:81-95 | replacing every constant an instruction names by its number, registers and keywords apart, changes neither the code nor a diagnostic |
| `Inlining.ReplaceableIff` | crates/tamal-asm/src/encoder.rs:251-365 | a constant can be replaced by its number in every line if and only if its name is no register and, in no case, a keyword a supported instruction reads |
| `Shapes.MeaningIff` | crates/tamal-asm/src/encoder.rs:434-616 | a line has a meaning if and only if its mnemonic is known and its operands have a shape it takes: how many, which registers, which ranges |
| `Shapes.EncodesIff` | crates/tamal-asm/src/encoder.rs:434-616 | it encodes at an address if and only if moreover the label it branches to is defined and within reach |
| `Operands.RegisterIff` | crates/tamal-asm/src/encoder.rs:14-54 | register n is `x` with a numeral for n, its conventional name, or `fp` for x8, and nothing else is a register |
| `Operands.ConfigIs` | crates/tamal-asm/src/encoder.rs:291-367 | the four keywords, in any case, of the two configurations this version supports |
| `Simulation.Simulate` | crates/tamal-asm/src/lib.rs:62-116 | whenever lines assemble, from any matching states, each run of the lines is matched by a run of the words |
| `Simulation.BranchLands` | crates/tamal-asm/src/encoder.rs:261-289 | an encoded offset leads to the address of the line that defines the label |
| `Simulation.CodeAt` | crates/tamal-asm/src/lib.rs:75-101 | the words at a line's address are exactly that line's code |
| `Tiling.TileLoads` | crates/tamal-asm/src/encoder.rs:136-156 | for every 32-bit value the tiling leaves it in rd and touches nothing else, in one word exactly when it is signed-21 or a multiple of 2^11, and in two otherwise |
| `Effects.BeqSteps` | crates/tamal-asm/src/encoder.rs:575 | `beq` goes to the line of its label exactly when the registers are equal |
| `Effects.BneSteps` | crates/tamal-asm/src/encoder.rs:576 | `bne`, exactly when they differ |
| `Effects.BltuSteps` | crates/tamal-asm/src/encoder.rs:577 | `bltu`, exactly when the first is less, as unsigned numbers |
| `Effects.BgeuSteps` | crates/tamal-asm/src/encoder.rs:578 | `bgeu`, exactly when it is not |
| `Effects.BeqzSteps` | crates/tamal-asm/src/encoder.rs:594-599 | `beqz`, exactly when the register is zero |
| `Effects.BnezSteps` | crates/tamal-asm/src/encoder.rs:600-605 | `bnez`, exactly when it is not |
| `Effects.JumpSteps` | crates/tamal-asm/src/encoder.rs:589-593 | `j` always goes to the line of its label |
| `Effects.NopSteps` | crates/tamal-asm/src/encoder.rs:579-582 | `nop` changes nothing but the line |
| `Effects.MovSteps` | crates/tamal-asm/src/encoder.rs:549-555 | `mov` copies a register |
| `Effects.MvSteps` | crates/tamal-asm/src/encoder.rs:549-555 | `mv` too |
| `Effects.LiSteps` | crates/tamal-asm/src/encoder.rs:583-588 | `li` loads any 32-bit pattern, signed or unsigned, and nothing out of range |
| `Effects.LoadImmSteps` | crates/tamal-abi/src/isa.rs:266-267 | `load_imm` loads a signed number of 21 bits |
| `Effects.LuiSteps` | crates/tamal-abi/src/isa.rs:268-269 | `lui` loads a multiple of 2048 |
| `Effects.AddSteps` | crates/tamal-abi/src/isa.rs:272-273 | `add` adds modulo 2^32 |
| `Effects.SubSteps` | crates/tamal-abi/src/isa.rs:276-277 | `sub` subtracts modulo 2^32 |
| `Effects.AddiSteps` | crates/tamal-abi/src/isa.rs:274-275 | `addi` adds a signed number of 11 bits |
| `Effects.AndSteps` | crates/tamal-abi/src/isa.rs:278-279 | `and`, bit by bit |
| `Effects.OrSteps` | crates/tamal-abi/src/isa.rs:282-283 | `or`, bit by bit |
| `Effects.XorSteps` | crates/tamal-abi/src/isa.rs:286-287 | `xor`, bit by bit |
| `Effects.AndiSteps` | crates/tamal-abi/src/isa.rs:280-281 | `andi`, bit by bit with the sign-extended number |
| `Effects.OriSteps` | crates/tamal-abi/src/isa.rs:284-285 | `ori`, likewise |
| `Effects.XoriSteps` | crates/tamal-abi/src/isa.rs:288-289 | `xori`, likewise |
| `Effects.SllSteps` | crates/tamal-abi/src/isa.rs:290-291 | `sll` moves bit k to bit k + n |
| `Effects.SrlSteps` | crates/tamal-abi/src/isa.rs:290-291 | `srl` moves bit k + n to bit k |
| `Effects.SraSteps` | crates/tamal-abi/src/isa.rs:290-291 | `sra` does, and copies the sign above |
| `BusEffects.CsAsserts` | crates/tamal-abi/src/isa.rs:220-221 | `cs_assert` drives CS# low |
| `BusEffects.CsDeasserts` | crates/tamal-abi/src/isa.rs:222-223 | `cs_deassert` drives it high |
| `BusEffects.RstAsserts` | crates/tamal-abi/src/isa.rs:240-241 | `rst_assert` drives RESET# low |
| `BusEffects.RstDeasserts` | crates/tamal-abi/src/isa.rs:242-243 | `rst_deassert` drives it high |
| `BusEffects.CrcResets` | crates/tamal-abi/src/isa.rs:263-264 | `crc_reset` clears the receive CRC |
| `BusEffects.PutsByte` | crates/tamal-asm/src/encoder.rs:462-473 | `put_byte` with a number puts that byte |
| `BusEffects.PutsRegister` | crates/tamal-asm/src/encoder.rs:462-473 | `put_byte` with a register puts its low byte |
| `BusEffects.PutsSomeBits` | crates/tamal-asm/src/encoder.rs:478-491 | `put_bits` with two numbers: count, then byte |
| `BusEffects.PutsRegisterBits` | crates/tamal-asm/src/encoder.rs:478-491 | `put_bits` with a register: register, then count |
| `BusEffects.Turns` | crates/tamal-asm/src/encoder.rs:499-506 | `tar` with a number of clocks; none show nothing |
| `BusEffects.TurnsByRegister` | crates/tamal-asm/src/encoder.rs:499-506 | `tar` with a register uses its low four bits |
| `BusEffects.GetsByte` | crates/tamal-asm/src/encoder.rs:474-477 | `get_byte` takes one sample into the register and into the CRC, or waits for ever |
| `BusEffects.GetsBits` | crates/tamal-asm/src/encoder.rs:492-498 | `get_bits` takes the low bits of a sample and leaves the CRC |
| `BusEffects.GetsAlert` | crates/tamal-asm/src/encoder.rs:507-510 | `get_alert` takes one bit |
| `BusEffects.Waits` | crates/tamal-asm/src/encoder.rs:519-526 | `wait_on` records whether its condition was met |
| `BusEffects.Halts` | crates/tamal-asm/src/encoder.rs:511-518 | `halt` stops with its status |
| `BusEffects.Marks` | crates/tamal-asm/src/encoder.rs:528-534 | `mark` shows its tag and a register |
| `BusEffects.ReadsCrc` | crates/tamal-asm/src/encoder.rs:251-259 | `rdsr` of 0, or of `crc` in any case, reads the receive CRC |
| `BusEffects.ReadsStatus` | hdl/src/Tamal/Engine.hs:383-387 | `rdsr` of any other status register traps with the pins safe |
| `BusEffects.Configures` | crates/tamal-asm/src/encoder.rs:291-367 | `set_config` with its four keywords in any case configures one of two ways, and otherwise has no meaning |
| `BusEffects.BadWordTraps` | hdl/src/Tamal/Engine.hs:220-224 | a word that is no instruction traps with the pins safe |
| `BusEffects.BadConfigTraps` | hdl/src/Tamal/Engine.hs:397-400 | so does an unsupported configuration, which no line encodes to |
| `Input.MoreInput` | crates/tamal-abi/src/isa.rs:218-293 | a run that has not used up its input is the same on any longer input, and one that has is a prefix of it |
| `Machine.StopsOnce` | crates/tamal-abi/src/isa.rs:246-247 | a program stops in one state only, however many steps are looked at |
| `Isa.EncodeDecode` | crates/tamal-abi/src/isa.rs:314-390 | an instruction encodes to a word if and only if the word decodes to the instruction |
| `Isa.FieldPositions` | crates/tamal-abi/src/isa.rs:142-164 | the weight of each field in a word |
| `Isa.BusWords` | crates/tamal-abi/src/isa.rs:318-332 | the word of every BUS instruction, opcode and fields as numbers |
| `Isa.CtrlWords` | crates/tamal-abi/src/isa.rs:333-345 | the word of every CTRL instruction |
| `Isa.DataWords` | crates/tamal-abi/src/isa.rs:346-371 | the word of every DATA instruction |
| `Isa.WordErrors` | crates/tamal-abi/src/isa.rs:376-389 | a word with none of the 36 opcodes is illegal, and any other word that is no instruction has a reserved field set |
| `Isa.GoldenBus` | crates/tamal-abi/src/isa.rs:770-777 | four bus words the repository pins: opcodes, registers, bit counts |
| `Isa.GoldenWait` | crates/tamal-abi/src/isa.rs:788-795 | the pinned `wait_on` word: condition above timeout |
| `Isa.GoldenShift` | crates/tamal-abi/src/isa.rs:817-825 | the pinned shift word: operation above amount |
| `Wire.ProgramImage` | crates/tamal-abi/src/isa.rs:620-626 | a program and its little-endian image determine each other |
| `Wire.ProgramToLeBytes` | crates/tamal-abi/src/isa.rs:620-626 | the loop writes that image |
| `Lexer.LexLoop` | crates/tamal-asm/src/lexer.rs:42-149 | the scanning loop gives the specified tokens or rejects |
| `Lexer.AtomLexes` | crates/tamal-asm/src/lexer.rs:90-140 | an identifier or number is read as one token whatever follows it |
| `TextLaws.CommentsAreNothing` | crates/tamal-asm/src/lexer.rs:49-53 | any text has the tokens it has without its comments, which run from `#` or `;` to the end of the line |
| `TextLaws.BlanksAreNothing` | crates/tamal-asm/src/lexer.rs:48 | spaces, tabs and carriage returns between tokens are nothing |
| `TextLaws.ChunkLexes` | crates/tamal-asm/src/lexer.rs:75-140 | a word, number or directive is read the same whatever follows it, and whole |
| `TextLaws.NumeralLexes` | crates/tamal-asm/src/lexer.rs:90-126 | a decimal, hexadecimal or binary numeral, signed or not, is the number its digits denote by position; one with any other character, or too large, leaves no tokens |
| `Parser.ParseLoop` | crates/tamal-asm/src/parser.rs:55-103 | the index loop gives the specified lines or rejects |
| `Parser.OperandLoop` | crates/tamal-asm/src/parser.rs:107-141 | the operands of a line and where it ends |
| `Grammar.ParseIff` | crates/tamal-asm/src/parser.rs:55-158 | tokens are a program if and only if they are its lines in order with any newlines around them, and at least one between a line that is no label and the next |
| `Printer.TextParses` | crates/tamal-asm/src/parser.rs:55-158 | any text of any lines, however its operands are spelled, is read back as those lines |
| `Printer.TextFails` | crates/tamal-asm/src/lexer.rs:90-140 | one numeral that cannot be read, in any line, leaves the whole text without tokens |
| `Printer.PrintParses` | crates/tamal-asm/src/parser.rs:55-158 | printing and reading undo each other |
| `Listing.RenderedResolves` | crates/tamal-asm/src/mnemonics.rs:50-103 | a rendered instruction that is not a branch resolves to itself under any symbols |
| `Listing.ListingRoundTrip` | crates/tamal-asm/src/mnemonics.rs:47-103 | the listing of any program of at most 1024 such instructions lexes, parses and assembles back to that program |
| `Crc8.UpdateLoop` | crates/tamal-abi/src/crc8.rs:6-16 | the bit loop computes the specified update |
| `Crc8.Residue` | crates/tamal-abi/src/crc8.rs:19-21 | the residue is zero if and only if the last byte is the CRC of the rest |
| `Crc8.OneByteChange` | crates/tamal-abi/src/crc8.rs:19-21 | changing one byte always changes the CRC |
| `Crc8.TriggerCrc` | crates/tamal-abi/src/crc8.rs:28-32 | the CRC of the TRIGGER opcode is 0x0E, which pins the polynomial and the bit order |
| `Crc8.UpdateInjective` | crates/tamal-abi/src/crc8.rs:6-16 | equal registers from different bytes need different registers before |
| `Cobs.EncodeLoop` | crates/tamal-abi/src/cobs.rs:22-57 | the loop writes the specified encoding |
| `Cobs.DecodeLoop` | crates/tamal-abi/src/cobs.rs:60-89 | the loop gives the specified bytes or error |
| `Cobs.RoundTrip` | crates/tamal-abi/src/cobs.rs:22-89 | decoding undoes encoding on every byte string |
| `Cobs.Shape` | crates/tamal-abi/src/cobs.rs:20-57 | an encoding of n bytes has no zero and between n + 1 and n + n/254 + 1 bytes |
| `Cobs.EncodeRuns` | crates/tamal-abi/src/cobs.rs:22-57 | the encoding run by run: up to 253 nonzero bytes and a zero are their number plus one and the bytes, 254 nonzero bytes are 255 and the bytes |
| `Cobs.DecodeIff` | crates/tamal-abi/src/cobs.rs:60-89 | which buffers decode to which data, both ways |
| `Cobs.DataChange` | crates/tamal-abi/src/cobs.rs:60-89 | changing a byte that is not a code changes one decoded byte, or is an interior zero |
| `Wire.WordsToLeBytes` | crates/tamal-abi/src/wire.rs:58-64 | the loop packs words least significant byte first |
| `Wire.LeByteAt` | crates/tamal-abi/src/wire.rs:58-64 | byte i of the image is byte i % 4 of word i / 4 |
| `Wire.WordByteAt` | crates/tamal-abi/src/wire.rs:58-64 | the four bytes of a word, least significant first |
| `Wire.WordsRoundTrip` | crates/tamal-abi/src/wire.rs:58-75 | unpacking undoes packing |
| `Wire.BytesRoundTrip` | crates/tamal-abi/src/wire.rs:58-75 | packing undoes unpacking, for lengths that are multiples of four |
| `Wire.FrameEncodeBuffer` | crates/tamal-abi/src/wire.rs:78-84 | the buffer steps give the specified frame |
| `Wire.FrameDecodeBuffer` | crates/tamal-abi/src/wire.rs:87-102 | the specified logical bytes or error |
| `Wire.FrameRoundTrip` | crates/tamal-abi/src/wire.rs:78-102 | a frame carries every logical buffer with an opcode; an empty one is a short frame |
| `Wire.FrameDecodeIff` | crates/tamal-abi/src/wire.rs:87-102 | exactly which wires decode to which logical bytes |
| `Wire.FrameErrors` | crates/tamal-abi/src/wire.rs:87-102 | which error a wire that is no frame gives: no group structure, too short, or a CRC over all of it that is not zero |
| `Wire.FrameShape` | crates/tamal-abi/src/wire.rs:78-84 | the delimiter is the only zero of a frame |
| `Wire.FrameChange` | crates/tamal-abi/src/wire.rs:87-102 | changing any one byte of the body that is not a group code makes decoding fail |
| `Wire.EncodeControlBuffer` | crates/tamal-abi/src/wire.rs:105-116 | the buffer steps give the specified control frame |
| `Wire.TriggerFrame` | crates/tamal-abi/src/wire.rs:105-116 | a trigger is the frame 03 02 0E 00 |
| `Wire.LoadFrame` | crates/tamal-abi/src/wire.rs:105-116 | a program load carries 01 and then the words, little-endian |
| `Wire.DecodeControlIff` | crates/tamal-abi/src/wire.rs:119-131 | a wire decodes to a trigger exactly when its logical bytes are 02, and to a load exactly when they are 01 and the words |
| `Wire.DecodeResultIff` | crates/tamal-abi/src/wire.rs:134-143 | it decodes to a trace exactly when they are 81 and the words |
| `Wire.MessageErrors` | crates/tamal-abi/src/wire.rs:119-143 | which error any other logical bytes give |
| `Wire.ControlRoundTrip` | crates/tamal-abi/src/wire.rs:105-143 | control messages and drained traces survive the wire |
| `Stream.Accumulator.Push` | crates/tamal-loader/src/transport.rs:37-49 | one byte completes the frame under way, or is kept, or is skipped |
| `Stream.Recovery` | crates/tamal-loader/src/transport.rs:34-49 | after any garbage ending in a delimiter exactly the frames sent are delivered in order, whatever delimiters lie between, and each decodes to its message |

## Left out

- The `.tam` lexer and parser: modules start from the syntax tree, with unique parameter names.
- Diagnostics: wording, spans, labels, help, the source map and its remapping. Error kinds other than recursion, the budgets and register exhaustion are one kind.
- Raw statements that branch: the emitter copies them unchecked, and one that reaches a generated label takes control away from the statement it stands in. Raw writes to a register void what is said of that register, and raw CS# operations what is said of CS#; nothing else does.
- Endless input: every finite run is covered, but nothing is stated about a poll that never ends.
- The program counter is ten bits wide and wraps in the engine; leaving the program is the status `OffEnd` here, which compiled programs are proved never to reach.
- The evaluation environment is copied at every call in the source, so it is a value here, and the driver reassigns it instead of updating it in place.
- The expansion-site stack is not modelled; it only anchors diagnostics.
- Non-ASCII text: characters stand for bytes, and outside comments neither is accepted.
- Bus timing, turnaround widths, lanes and eSPI protocol legality: the compiler passes them through.
- UART and file I/O, deadlines, command lines, program listings with addresses, trace decoding and the full configuration type.
- The gateware, except for what an instruction does as the instruction set documents it.
- Crc8.UpdateLoop: the register is an eight-bit vector with conversions written out, not a machine integer.
- Lowering.Emitter.LowerRecv: `temp` and `bind` share one method that takes a register with or without a name.
