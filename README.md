# Brainfuck reference interpreter and MIPS JIT, modelled in Dafny

This project models the two passes of a small Brainfuck toolchain over a
30000-cell byte tape and proves properties of them:

- `bf_interpret` (bf_c.c) is the reference interpreter. The model has three
  parts. `Interpreter.Step` is one turn of its `for(;;)` loop, as a function
  over an explicit state: cursor, pointer, tape, loop stack and skip counter,
  plus the input consumed and the output written. `Interpreter.Run` is at
  most `fuel` turns. `Interpreter.Interpret` is the imperative loop. It works
  on the caller's tape as an `array<byte>` and keeps its loop stack in a fixed
  array of `MAX_NESTING` entries. It is proved to end exactly as `Run` does.
- `bf_compile` (bf_mips.c) is the JIT code generator. The model has three
  parts:
  - `Mips.Instr` mirrors the emitted MIPS lines. The `Header`/`LeftGroup`/…
    functions give the fixed groups each operator emits. A small semantics,
    `Mips.Exec`, gives meaning to the straight-line groups, and
    `Mips.ExecCall` to the two groups that call `get_ch` and `put_ch`.
  - `Compiler.CStep` is one pass of the compile loop, over the cursor, the
    loop stack, the label counters `nextpc`/`npc` and the code so far.
    `Compiler.Translate` is the whole pass.
  - `Compiler.Compile` is the imperative pass. It keeps the loop stack in a
    fixed array and appends to a `seq<Instr>`. It is proved to compute
    `Translate`.
- `Agreement` relates the two passes. For a run of `<`, `>`, `+` or `-`, the
  group the compiler emits changes a machine as the interpreter's turn changes
  its state. It does the same for the `[-]` zero store against the
  interpreter's loop, and for the `,` and `.` groups once their `jalr` delay
  slot holds a `nop` (see Findings). Both passes reject a too deep `[` and an
  unmatched `]` with the same diagnostic.

The program text is a `string`. `Brainfuck.At` reads the NUL terminator past
its end, as the C cursor does. An embedded `'\0'` ends the program as it does
in C. `get_ch` and `put_ch` become an input sequence and an output sequence;
once the input is exhausted, a read yields 255 (`(unsigned char)EOF`).
`bad_program` becomes a `BadProgram` value that records where the cursor
stood and which of the three reasons applies. `Brainfuck.Diagnostic` is the
line printed to stderr.

Four points of behaviour that are easy to miss in the code:

- The interpreter finds a structure error only when its cursor reaches it,
  so output written before a bad `]` or an unclosed `[` stands
  (`InterpreterProperties.OutputStands`, `InterpreterExamples.LateClose`).
  Only the compiler rejects the whole text before any code runs.
- The compiler's terminator case checks only for open loops
  (`UnmatchedOpen`, bf_mips.c:186-188). `NestingTooDeep` arises only at a `[`.
- In the compiler's `[` case the nesting check comes before the `[-]`
  special case. A `[-]` arriving with 100 loops open is rejected, although it
  would not open a loop (`CompilerProperties.NestingCheckedFirst`).
- `-n%TAPE_SIZE` is C's truncating remainder (`Brainfuck.TruncRem`), not
  Dafny's Euclidean one.

## Model

| member | source | states |
|---|---|---|
| Brainfuck.RunLength | bf_c.c:28 | every character in the counted stretch is c, the next one is not, and a nonempty stretch lies inside the text |
| Brainfuck.RunLengthUnique | bf_c.c:28 | the run is determined by its two ends: any n with c throughout and not at the end equals RunLength |
| Brainfuck.ScanRun | bf_c.c:28 | the scanner loop counts the whole maximal run (n = 1 + RunLength) and leaves the cursor on the first different character |
| Brainfuck.Wrap | bf_c.c:30-40 | the corrected pointer lies on the tape and is congruent to the raw one modulo TAPE_SIZE |
| Brainfuck.TruncRem | bf_mips.c:116 | C's `%` by TAPE_SIZE: the sign follows the dividend, magnitude below TAPE_SIZE, congruent to the dividend |
| Brainfuck.AddCell | bf_c.c:46 | an unsigned char after `+= n` is congruent to cell + n modulo 256 |
| Brainfuck.Message | bf_c.c:63-80 | the three reason texts bad_program is given: "Nesting too deep", "] without matching [" and "[ without matching ]" |
| Brainfuck.Diagnostic | bf_mips.c:34 | the stderr line of bad_program: "bad program near ", then the `%.16s` text at the cursor (at most 16 characters, stopping at the terminator) or "<EOF>", then ": ", the reason text and a newline |
| Brainfuck.Prefix | bf_c.c:14 | `%.16s` prints at most 16 characters of the text from the cursor, stopping only at the limit or the terminator |
| Interpreter.ReadByte | bf_c.c:55 | the byte a `,` stores: the next input byte, or 255 (`(unsigned char)EOF`, bf_c.c:91-94) once the input is exhausted |
| Interpreter.Initial | bf_c.c:18-24 | the interpreter starts valid, on the caller's tape, with nothing read or written |
| Interpreter.RunOpStep | bf_c.c:27-52 | a run turn keeps the state valid and touches neither input nor output |
| Interpreter.OpenStep | bf_c.c:61-67 | a `[` that is accepted keeps the state valid, including nskip <= nloops <= 100 and a zero cell while skipping |
| Interpreter.CloseStep | bf_c.c:68-77 | a `]` that is accepted keeps the state valid and touches neither input nor output |
| Interpreter.Step | bf_c.c:25-82 | every turn keeps the state valid; output and consumed input only grow |
| Interpreter.Run | bf_c.c:25-83 | every bounded run ends in a valid state with output and consumed input extended |
| Interpreter.MoveLeft | bf_c.c:30-32 | the `while(ptr <= tape_begin)` correction leaves the pointer at (p - n) mod TAPE_SIZE, on the tape |
| Interpreter.MoveRight | bf_c.c:38-40 | the `while(ptr > tape_end)` correction leaves the pointer at (p + n) mod TAPE_SIZE, on the tape |
| Interpreter.ExecRunOp | bf_c.c:27-52 | the imperative run case does what Step does to cursor, pointer and tape array |
| Interpreter.ExecOpen | bf_c.c:61-67 | the imperative `[` case does what Step does, and fails with NestingTooDeep exactly when Step does |
| Interpreter.ExecClose | bf_c.c:68-77 | the imperative `]` case does what Step does, and fails with UnmatchedClose exactly when Step does |
| Interpreter.Turn | bf_c.c:26-82 | one pass of the switch continues exactly when Step gives a next state, and then holds that state; it stops as Step halts or fails |
| Interpreter.Interpret | bf_c.c:16-84 | bf_interpret for at most fuel turns ends with Run's status, consumed input, output and tape |
| InterpreterProperties.CollapsedRun | bf_c.c:28-52 | a maximal run of n is consumed in one turn, cursor just past it, whether or not skipping; while skipping only the cursor moves |
| InterpreterProperties.MoveLeftRun | bf_c.c:27-33 | n `<` set the pointer to (p - n) mod 30000, which lies in [0, 30000) |
| InterpreterProperties.MoveRightRun | bf_c.c:35-41 | n `>` set the pointer to (p + n) mod 30000, which lies in [0, 30000) |
| InterpreterProperties.IncrementRun | bf_c.c:43-47 | n `+` add n mod 256 to the current cell only; pointer, other cells, loops, input and output unchanged |
| InterpreterProperties.DecrementRun | bf_c.c:48-52 | n `-` subtract n mod 256 from the current cell only; everything else unchanged |
| InterpreterProperties.SkippingChangesNothing | bf_c.c:29-77 | while nskip > 0 a turn leaves tape, pointer, output and consumed input alone and keeps nskip <= nloops and the zero cell |
| InterpreterProperties.OpenPushes | bf_c.c:61-67 | `[` with room pushes the offset just past itself and counts one more skipped loop exactly on a zero cell, leaving the count as it was on a nonzero one |
| InterpreterProperties.CloseJumpsOrPops | bf_c.c:68-77 | `]` on a nonzero cell jumps to the recorded offset with nloops unchanged; on a zero cell it pops |
| InterpreterProperties.FailsExactly | bf_c.c:62-80 | a turn fails exactly in the three bad_program cases, with their reasons and cursor, and halts exactly at the terminator with no loop open |
| InterpreterProperties.RunSplits | bf_c.c:25-83 | running a + b turns is running a turns and then b more from where they left off |
| InterpreterProperties.RunThrough | bf_c.c:25-83 | a run still going after a turns continues from the state it reached |
| InterpreterProperties.FinishedRunIsFinal | bf_c.c:25-83 | more fuel does not change a run that halted or failed |
| InterpreterProperties.OutputStands | bf_c.c:69-80 | output and input consumed by a shorter run stand in every longer run, one that ends in bad_program included |
| InterpreterExamples.ReadIncrementWrite | bf_c.c:43-59 | `,+.` on input 65 halts having written 66 and read one byte |
| InterpreterExamples.EmptyProgram | bf_c.c:78-81 | the empty program halts at once with no output |
| InterpreterExamples.LateClose | bf_c.c:57-70 | `.]` writes its byte and then fails with UnmatchedClose just past the `]` |
| InterpreterExamples.MultiplyLoop | bf_c.c:43-77 | `[>++++++++<-]` entered with any k >= 1 in cell 0 takes 5k turns, leaves cell 0 at zero, adds 8k to cell 1 modulo 256 and changes no other cell |
| InterpreterExamples.Multiply | bf_c.c:16-84 | `++++++++[>++++++++<-]>.` on a zero tape halts within 45 turns having written 64 |
| Mips.Header | bf_mips.c:104-108 | the `bf_main` label, the prologue, the load of the tape pointer and the two bounds registers |
| Mips.LeftGroup | bf_mips.c:116-121 | the `<` group: add `-n%TAPE_SIZE`, compare with aTapeBegin, branch over the +30000 correction with a `nop` in the delay slot |
| Mips.RightGroup | bf_mips.c:125-130 | the `>` group: add `n%TAPE_SIZE`, compare with aTapeEnd, branch over the -30000 correction with a `nop` in the delay slot |
| Mips.AddGroup | bf_mips.c:134-142 | the `+`/`-` group: `lb`, `addi` of the signed delta, `sb` |
| Mips.ReadGroup | bf_mips.c:144-150 | the `,` group as assembled: `postcall` is `.nop` (bf_mips.c:77), which emits nothing, so `sb v0` is the instruction after `jalr` |
| Mips.WriteGroup | bf_mips.c:151-157 | the `.` group as assembled: the cell is loaded and passed with aState, and nothing follows the `jalr` |
| Mips.PaddedReadGroup | bf_mips.c:144-150 | the `,` group with a `nop` in the `jalr` delay slot, as the comment at bf_mips.c:110-111 asks of every delay slot |
| Mips.PaddedWriteGroup | bf_mips.c:151-157 | the `.` group with a `nop` in the `jalr` delay slot |
| Mips.ClearGroup | bf_mips.c:163 | the `[-]` group: a single `sb ZERO` |
| Mips.OpenGroup | bf_mips.c:169-172 | the `[` group for label L: `lb`, `beqz` to L + 1, `nop`, and the definition of L |
| Mips.CloseGroup | bf_mips.c:181-184 | the `]` group for label L: `lb`, `bnez` to L, `nop`, and the definition of L + 1 |
| Mips.Footer | bf_mips.c:189 | the epilogue |
| Mips.LeftWrap | bf_mips.c:116-121 | adding -(n % 30000) and correcting by +30000 once when not above tape - 1 gives (p - n) mod 30000, in range |
| Mips.RightWrap | bf_mips.c:125-130 | adding n % 30000 and correcting by -30000 once when above tape + 29999 gives (p + n) mod 30000, in range |
| Mips.SignExtend | bf_mips.c:134 | `lb` yields a value in [-128, 128) congruent to the byte modulo 256 |
| Mips.LowByte | bf_mips.c:136 | `sb` stores a byte congruent to the register modulo 256 |
| Mips.NextLocal | bf_mips.c:118-121 | a branch to `>1` lands on the first `1:` after it |
| Mips.LoadCell | bf_mips.c:134 | `lb aTMP, 0(aPtr)` loads the current cell, sign-extended |
| Mips.StoreCell | bf_mips.c:136 | `sb r, 0(aPtr)` stores the low byte of r into the current cell and nowhere else |
| Mips.HeaderSetsBounds | bf_mips.c:106-108 | the header leaves aPtr at offset 0 with aTapeBegin = tape - 1 and aTapeEnd = tape + 29999 |
| Mips.LeftGroupMoves | bf_mips.c:116-121 | the emitted `<` group runs to completion and leaves aPtr at offset (p - n) mod 30000, changing only the scratch register besides |
| Mips.RightGroupMoves | bf_mips.c:125-130 | the emitted `>` group leaves aPtr at offset (p + n) mod 30000, changing only the scratch register besides |
| Mips.BranchOverCorrection | bf_mips.c:118-121 | `b >1; nop; addi; 1:` applies the correction exactly when the branch is not taken |
| Mips.AddGroupAdds | bf_mips.c:134-142 | the `+`/`-` group adds n (or -n) modulo 256 to the current cell despite the sign-extending `lb`, and changes no other cell |
| Mips.ClearGroupClears | bf_mips.c:163 | the zero store clears the current cell and changes nothing else |
| Mips.ExecCall | bf_mips.c:144-157 | the meaning of a call group: the `lw` of a state field loads the callee, `jalr` runs its delay slot and then the callee, which returns a value in v0; a `jalr` with no instruction after it leaves the group (Outside) |
| Mips.ReadStoresStale | bf_mips.c:144-150 | the `,` group as assembled holds `sb v0` rather than a `nop` in the `jalr` delay slot, so the store runs, before get_ch returns: the cell receives the low byte of the stale v0 and the byte returned is lost |
| Mips.ReadLosesByte | bf_mips.c:144-150 | with v0 = 0 before the call and get_ch returning 65, the cell ends 0 |
| Mips.PaddedReadStores | bf_mips.c:144-150 | the padded `,` group stores the low byte of what get_ch returns into the current cell and nowhere else |
| Mips.WriteSlotOutside | bf_mips.c:151-157 | the `.` group as assembled ends in `jalr` with no delay-slot instruction, so whatever the next group begins with runs in the slot: on its own the group has no outcome (Outside) |
| Mips.PaddedWritePasses | bf_mips.c:151-157 | the padded `.` group passes aState and the sign-extended cell to put_ch and leaves the tape alone |
| Mips.PaddedSlotsFilled | bf_mips.c:110-111 | both padded call groups fill every delay slot, the `jalr` one included |
| Mips.LowByteOfSignExtend | bf_mips.c:152-153 | the low byte of the sign-extended cell is the cell itself, so put_ch receives the byte |
| Mips.ImmediatesFit | bf_mips.c:107-141 | header and pointer groups always fit addi's 16-bit field; a cell group fits exactly when its delta does |
| Compiler.RunGroup | bf_mips.c:114-143 | the group a run of n `<`, `>`, `+` or `-` emits, with the count as its operand |
| Compiler.Start | bf_mips.c:41-108 | the pass starts at the first character with no loop open and the header emitted; nextpc is 0 and npc 8, so the first label pair (even, and both below npc) fits without doubling. StartInv gives the full compile invariant |
| Compiler.EmitRun | bf_mips.c:114-143 | a run advances the cursor, staying inside the text |
| Compiler.EmitOpen | bf_mips.c:158-176 | a `[` never finishes the pass and, when accepted, advances the cursor inside the text |
| Compiler.EmitClose | bf_mips.c:177-185 | a `]` never finishes the pass and, when accepted, advances the cursor inside the text |
| Compiler.CStep | bf_mips.c:112-195 | every pass of the loop that goes on strictly advances the cursor, so the pass ends |
| Compiler.CompileFrom | bf_mips.c:112-195 | the rest of the compile loop from a state: passes until the terminator finishes or a case rejects |
| Compiler.Translate | bf_mips.c:36-196 | bf_compile as a function of the text: the loop from the start state |
| Compiler.CompileOpen | bf_mips.c:158-176 | the imperative `[` case does what EmitOpen does, and rejects with NestingTooDeep exactly when it does |
| Compiler.CompileClose | bf_mips.c:177-185 | the imperative `]` case does what EmitClose does, and rejects with UnmatchedClose exactly when it does |
| Compiler.CompileRun | bf_mips.c:114-143 | the imperative scan and emission of a run does what EmitRun does |
| Compiler.Compile | bf_mips.c:36-196 | bf_compile returns exactly Translate's code, label count and capacity, or its rejection |
| CompilerProperties.CollapsedRun | bf_mips.c:114-143 | a maximal run of n emits exactly one group, carrying n, and leaves the cursor just past the run |
| CompilerProperties.NestingCheckedFirst | bf_mips.c:159-163 | a `[` with 100 loops open is rejected with NestingTooDeep, `[-]` included |
| CompilerProperties.Peephole | bf_mips.c:161-163 | the zero store is emitted and two more characters skipped, with no label or stack slot used, exactly when `-` and `]` follow the `[` |
| CompilerProperties.AllocatesLabelPair | bf_mips.c:165-174 | an ordinary `[` takes labels nextpc and nextpc + 1, pushes nextpc, advances it by 2, doubles npc exactly when full, and both labels fit the table |
| CompilerProperties.ClosesInnermost | bf_mips.c:178-184 | `]` pops the innermost label L and emits `bnez` to L followed by the definition of L + 1 |
| CompilerProperties.RejectsExactly | bf_mips.c:159-189 | the pass rejects exactly in the three bad_program cases, with their reasons and cursor, and finishes exactly at the terminator with no loop open, appending the epilogue |
| CompilerProperties.CapacitiesDouble | bf_mips.c:165-167 | two different capacities of the table differ by at least a factor of two |
| CompilerProperties.LeastCapacity | bf_mips.c:45 | a capacity that holds the labels and is 8 or less than twice their number is the least capacity that does |
| CompilerProperties.LeftPlain | bf_mips.c:116-121 | the `<` group fills its branch delay slot, defines no pc label and branches only to its own `1:` |
| CompilerProperties.RightPlain | bf_mips.c:125-130 | the `>` group fills its branch delay slot, defines no pc label and branches only to its own `1:` |
| CompilerProperties.CallPlain | bf_mips.c:144-157 | both call groups, as assembled, hold no conditional branch and define no pc label, so appending them keeps the compile invariant |
| CompilerProperties.LoopGroupsLinked | bf_mips.c:169-184 | the loop groups fill their branch delay slots, and `beqz` targets L + 1 with L even |
| CompilerProperties.GroupCounts | bf_mips.c:172 | the `[` group defines only L and the `]` group only L + 1, once each |
| CompilerProperties.StartInv | bf_mips.c:41-108 | the invariant of the compile loop holds once the header is emitted |
| CompilerProperties.OpenKeeps | bf_mips.c:165-174 | opening a loop keeps the invariant: counters, stack order, label counts and links |
| CompilerProperties.CloseKeeps | bf_mips.c:180-184 | closing the innermost loop keeps the invariant |
| CompilerProperties.ClearKeeps | bf_mips.c:161-163 | the zero store keeps the invariant |
| CompilerProperties.RunKeeps | bf_mips.c:114-143 | emitting a run group keeps the invariant |
| CompilerProperties.FinishWellFormed | bf_mips.c:186-189 | the epilogue with no loop open yields code that defines every label below nextpc exactly once |
| CompilerProperties.StepKeeps | bf_mips.c:112-195 | every pass of the loop keeps the invariant, and the final one yields well-formed code |
| CompilerProperties.RunStepKeeps | bf_mips.c:114-143 | a pass on a run of `<`, `>`, `+` or `-` keeps the invariant |
| CompilerProperties.CallStepKeeps | bf_mips.c:144-157 | a pass on `,` or `.` keeps the invariant |
| CompilerProperties.OpenStepKeeps | bf_mips.c:158-176 | a pass on `[` keeps the invariant unless it rejects |
| CompilerProperties.ClearStepKeeps | bf_mips.c:161-163 | a pass on `[-]` keeps the invariant |
| CompilerProperties.LoopStepKeeps | bf_mips.c:164-175 | a pass on an ordinary `[` keeps the invariant |
| CompilerProperties.CloseStepKeeps | bf_mips.c:177-185 | a pass on `]` keeps the invariant unless it rejects |
| CompilerProperties.EndStepKeeps | bf_mips.c:186-189 | a pass on the terminator with no loop open yields well-formed code |
| CompilerProperties.SkipStepKeeps | bf_mips.c:113-194 | a pass on a character the switch has no case for keeps the invariant |
| CompilerProperties.ClosedDefined | bf_mips.c:180-184 | popping L turns L + 1 from pending into defined and leaves every other label as it was |
| CompilerProperties.CompileFromWellFormed | bf_mips.c:112-195 | from any state keeping the invariant, a successful rest of the pass yields well-formed code |
| CompilerProperties.TranslationWellFormed | bf_mips.c:36-196 | a successful compile defines each of labels 0..nextpc-1 exactly once and no other, and branches only to defined labels. It fills the delay slot of every conditional branch with a `nop`, links each `beqz` to L + 1 and `bnez` to L, and sizes the table to the least capacity holding nextpc |
| Agreement.LeftAgrees | bf_mips.c:116-121 | the `<` group moves a mirroring machine to the cell the interpreter's `<` run reaches |
| Agreement.RightAgrees | bf_mips.c:125-130 | the `>` group moves a mirroring machine to the cell the interpreter's `>` run reaches |
| Agreement.CellAgrees | bf_mips.c:134-142 | the cell group changes a mirroring machine's tape as the interpreter changes its own |
| Agreement.RunAgrees | bf_mips.c:114-143 | the compiler, at the interpreter's offset, consumes the same run and emits a group taking a mirroring machine to a mirror of the interpreter's next state |
| Agreement.ClearDrains | bf_c.c:48-77 | the interpreter counts a nonzero cell down in `[-]` in two turns per unit and leaves the loop with the cell zero |
| Agreement.ClearIdiomAgrees | bf_mips.c:161-163 | the `[-]` zero store agrees with the interpreter's loop: after its turns the interpreter is just past the idiom with the cell zero, and the machine mirrors it |
| Agreement.ReadAgrees | bf_mips.c:144-150 | at the interpreter's offset the compiler emits the `,` group; the padded group, with get_ch returning the byte the interpreter reads, takes a mirroring machine to a mirror of the interpreter's next state |
| Agreement.ReadAsEmitted | bf_mips.c:144-150 | the `,` group as assembled agrees with the interpreter's `,` exactly when the stale v0 already holds the byte read |
| Agreement.WriteAgrees | bf_mips.c:151-157 | at the interpreter's offset the compiler emits the `.` group; the padded group hands put_ch exactly the byte the interpreter writes and leaves the machine mirroring it |
| Agreement.NestingAgrees | bf_mips.c:159-160 | both passes reject a `[` with 100 loops open with NestingTooDeep at the same cursor |
| Agreement.UnmatchedCloseAgrees | bf_mips.c:178-179 | both passes reject a `]` with no loop open with UnmatchedClose at the same cursor |

## Left out

- `main`, file loading and `bf_run` (bf_c.c:96-128, bf_mips.c:209-241): I/O plumbing. The program text is a parameter.
- `bf_getchar`/`bf_putchar`: the console is replaced by an input sequence and an output sequence.
- `link_and_encode`, `mmap`/`mprotect` and the DynASM library (`dasm_init`, `dasm_growpc`, `dasm_link`, `dasm_encode`, `dasm_free`): the model stops at the abstract instruction list and its label ids. DynASM is not part of this model. `npc` is modelled as the table capacity passed to `dasm_growpc`.
- The source ignores a failed `link_and_encode` (bf_mips.c:22-24, 191-193) and never checks `mprotect` (bf_mips.c:27). These are gaps in the source; the model does not include them.
- The prologue and epilogue register save and restore, and the native call of the generated function: `Prologue`/`Epilogue` are single opaque instructions. `Mips.Exec` gives calls, `lw` of the state fields and the loop branches no meaning (Outside).
- Mips.ExecCall: the callee is a parameter. The `lw` of a state field loads it, and the call only sets v0 to a given return value. The model does not show get_ch and put_ch clobbering the argument registers rArg1 and rArg2 (r4 and r5), which are caller-saved under o32. No group reads rArg2 after a call. The one later read of rArg1 is a `,` right after a `.`: its `move rArg1, aState` runs in the `.` group's delay slot, so get_ch receives what put_ch left in r4, and bf_getchar ignores that argument. The registers the groups keep across calls (aPtr, aState, aTapeBegin, aTapeEnd and aTMP, r16 to r20) are callee-saved under o32, so they survive the call as the model has them. Among them aTMP is read after the call when the next group's first instruction fills the `.` delay slot, as in `..` (`move rArg2, aTMP`) or `.[` (`beqz aTMP`).
- Mips.Exec: registers are unbounded integers rather than 32-bit words. The model does not capture an `addi`/`sub` overflow trap. It assumes the tape address plus 2·29999 stays below 2^31: the tape is a local array of `bf_run` (bf_mips.c:212), and bf_mips.c:106-108 and 116-130 add at most 29999 twice to its address.
- Compiler.EmitRun: runs of `+` or `-` longer than 32767 overflow addi's 16-bit immediate. The model emits the exact n; `Mips.ImmediatesFit` states when the field holds it.
- `int n`, `unsigned nextpc` and `unsigned npc` overflow only for texts over two billion characters; they are unbounded here.
- C pointer undefined behaviour when `ptr` steps off the tape before the correction: the model uses integer offsets.
- The process exit status of `bad_program` (the character count `fprintf` returns) and its stderr write: a rejection is the `BadProgram` value, and `Brainfuck.Diagnostic` the line.
- Interpreter.Run: the interpreter loop need not end, so runs are bounded by a fuel count of turns; a run out of fuel reports Running.

## Findings

| source | as written | input that shows it | evidently intended | confidence | as-written member | corrected member |
|---|---|---|---|---|---|---|
| bf_mips.c:77,144-150 | `postcall` is defined as `.nop`, a directive that emits nothing, so the `,` group is `move; lw; jalr; sb v0` and the store runs in the delay slot of `jalr`, before get_ch has returned | the program `,` with v0 = 0 before the call and get_ch returning 65: the cell ends 0, not 65 | a `nop` in the delay slot (the rule of bf_mips.c:110-111), so that `sb v0` stores the byte get_ch returns | not executed | Mips.ReadStoresStale | Mips.PaddedReadStores |

The `.` group also has nothing in its `jalr` delay slot. There the slot
takes the first instruction of the next group, which then runs before put_ch
instead of after it (`Mips.WriteSlotOutside`). That is harmless unless
put_ch clobbers a register the instruction sets: aPtr and aTMP are r16 and
r20, which the o32 calling convention makes callee-saved, and the `move
rArg1, aState` of a following `,` only sets an argument that bf_getchar
ignores. The model does not capture callee clobbering (see Left out).
