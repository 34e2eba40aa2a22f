# Forgematrix emulator core in Dafny

Forgematrix is a small educational computer. It has a 4×4 monochrome display, a byte-addressed
RAM (64 bytes by default), an 8-byte scratchpad that survives between runs, and 23 one-byte
opcodes. Programs are written one instruction per line (`SET 1 1, 2 2`, `WAIT 10`, `ADD 10 11 12`,
`EP 16`, ...). This project models the core of the emulator and proves properties of it:

- **The instruction table** (`Opcodes`, `Isa`). The opcode constants, and an instruction datatype with
  `Encode`/`Decode` between instructions and RAM bytes, proved inverse to each other. `Execute`
  gives the meaning of each instruction on its own terms.
- **The step engine** (`Semantics`, `Interpreter`, `StepFacts`). `Semantics.Next` is a pure function
  on a `Machine` value that says what one `step` does. This covers the pending WAIT countdown, the
  pc range check, the zero byte that halts, all 23 opcodes with their argument and address checks,
  and the unknown-opcode fault. `Interpreter.Step` is the imperative version, working on the
  `Emulator` object and its RAM and scratchpad arrays. It is proved to change the emulator's state
  exactly as `Next` says. `Isa.NextExecutes` proves that `Next` runs the decoded instruction's
  `Execute` whenever its operands fit.
- **The emulator object** (`Core`). A class with the fields of `Emulator`: its constructor and
  `reset`.
- **The display** (`Screen`). The set of lit pixels plus a log of display calls, with `update_pixel`
  and `clear_all`.
- **The assembler** (`Text`, `Assembly`, `Assembler`, `AssemblyFacts`, `PassFacts`).
  - `Assembly.Line` is a pure function: what one source line does after `strip().upper()` and
    `split()`. The line either places bytes at the load cursor, moves the cursor (`EP`), or raises
    an error. In that last case it also gives the bytes already written before a `ValueError`.
  - `Assembly.Run` folds `Line` over the program.
  - `Assembler.ParseAndLoadProgram` is the imperative loop on the `Emulator`. It is proved to leave
    RAM, the pc-to-line map, the entry point, pc and the error exactly as `Assemble` says.

Integers are unbounded. Bytes are the newtype `byte` (0..255). Python's `& 0xFF`, the
`bytearray` write that rejects values outside 0..255, and the masked arithmetic are written out
explicitly. Error strings are replaced by the `Fault` and `Reason` datatypes. `save_scratchpad`
appends the scratchpad's contents to a ghost log `saved`, so the model can say when it happens.

The model keeps these details of the code:
- an `EP` line is recorded in the pc-to-line map at the old cursor;
- `LOOP` resets pc to the entry point while assembling;
- WAIT writes its opcode before parsing its operand, so `WAIT 300` leaves the WAIT byte behind;
- the address operand of LOAD, JUMP and their kin is only checked against the RAM size.

## Model

| member | source | states |
|---|---|---|
| Opcodes.InstructionsDistinct | em_constants.py:2-24 | there are 23 instruction opcodes and no two of them share a byte |
| Opcodes.ZeroAndEntryAreNotInstructions | em_constants.py:2-25 | neither the halting byte 0 nor EP's 0x24 is an instruction opcode |
| Bytes.Mask | em_parser.py:130 | `v & 0xFF` is a byte congruent to v modulo 256, and v itself when v is already a byte, for either sign of v |
| Bytes.BitAnd | em_instructions.py:283-297 | bitwise AND never exceeds either operand |
| Bytes.BitOr | em_instructions.py:298-312 | bitwise OR is at least either operand |
| Bytes.BitsBelow | em_instructions.py:298-327 | OR and XOR of two numbers below 2^k stay below 2^k |
| Bytes.ByteBits | em_instructions.py:298-327 | OR and XOR of two bytes are bytes, so these instructions need no mask |
| Bytes.XorTwice | em_instructions.py:313-327 | XOR with b twice gives back the original number |
| Screen.Update | display.py:33-35 | an on-grid pixel is lit exactly when the new state is on; every other pixel keeps its state; off-grid coordinates change nothing |
| Screen.Display.constructor | display.py:5-31 | a new display has every pixel dark and has received no calls |
| Screen.Display.UpdatePixel | display.py:33-44 | the lit set becomes `Update` of the old one, and the call is logged |
| Screen.Display.ClearAll | display.py:46-53 | every pixel goes dark, and the call is logged |
| Core.Zeros | em_core.py:19 | a fresh bytearray of n bytes: length n, all zero |
| Core.Emulator.constructor | em_core.py:13-25 | zeroed RAM of the requested size, zeroed 8-byte scratchpad, pc, delays and entry point 0, not running, no error, no pc-to-line map yet, on the given display |
| Core.Emulator.Reset | em_core.py:39-46 | fresh zeroed RAM of the same size, pc at the entry point, no delay, halted, no error, empty pc-to-line map, display cleared; entry point, active delay and scratchpad untouched |
| Semantics.Next | em_instructions.py:1-387 | one step keeps the scratchpad at 8 bytes, the RAM size and the entry point |
| Semantics.Pairs | em_instructions.py:27-43 | the SET/CLEAR pair loop ends with the cursor exactly 2·count bytes further, or with an IncompletePair or InvalidCoordinates fault naming the opcode |
| Semantics.Sweep | em_instructions.py:85-95 | SETALL/SETNONE make one display call per pixel, 16 in all |
| StepFacts.Steps | em_instructions.py:1-387 | any number of steps keeps the machine well formed and the RAM size fixed |
| StepFacts.Countdown | em_instructions.py:1-6 | while a delay is pending, j steps only count it down by j; the active delay is cleared on the step that reaches 0 |
| StepFacts.WaitCosts | em_instructions.py:71-80 | `WAIT c` moves pc past its two bytes, then the next c steps do nothing but count down |
| StepFacts.ZeroHalts | em_instructions.py:15-17 | a zero byte at pc stops the machine without an error and without moving pc |
| StepFacts.PcFault | em_instructions.py:8-11 | with pc at or past the end of RAM, the step halts with PcOutOfRange and changes nothing else |
| StepFacts.DispatchCoversTable | em_instructions.py:19-384 | the step has a branch for a byte exactly when that byte is in the instruction table |
| StepFacts.UnknownOpcodeExactly | em_instructions.py:385-387 | the step raises UnknownOpcode exactly for a non-zero byte outside the instruction table |
| StepFacts.KnownFaults | em_instructions.py:71-384 | a known opcode other than SET/CLEAR can only fail with ArgumentsOutOfRange or InvalidAddress |
| StepFacts.PaintFaults | em_instructions.py:19-69 | SET/CLEAR can only fail with MissingCount, IncompletePair or InvalidCoordinates, naming their own opcode |
| StepFacts.EntryByteIsUnknown | em_instructions.py:385-387 | EP's byte 0x24 at pc halts the machine as an unknown opcode |
| StepFacts.StepAdvances | em_instructions.py:19-384 | a decoded instruction whose operands fit raises no error, keeps `running`, and, unless it branches, moves pc to just past its own encoding |
| StepFacts.FaultsFreeze | em_instructions.py:1-387 | every failing step halts with the fault recorded and leaves pc, RAM, scratchpad, saves and delays unchanged; only SET/CLEAR may have drawn before failing |
| StepFacts.FaultsFreezeOthers | em_instructions.py:71-384 | a failing step of any opcode other than SET/CLEAR also leaves the display untouched |
| StepFacts.RunningIgnored | em_instructions.py:1-387 | apart from `running` itself, a step does the same whether the machine is running or not, and it never starts a halted machine |
| StepFacts.ScratchIgnoresRunning | em_instructions.py:184-282 | the same, for the five scratchpad instructions |
| StepFacts.AluIgnoresRunning | em_instructions.py:283-384 | the same, for ADD, SUB, AND, OR, XOR, NOT, SHL and SHR |
| StepFacts.FlowIgnoresRunning | em_instructions.py:71-183 | the same, for WAIT, LOOP, JUMP, JUMPIF, STORE, LOAD, SETALL and SETNONE |
| StepFacts.OthersIgnoreRunning | em_instructions.py:385-387 | the same, for the zero byte and unknown opcodes |
| StepFacts.LoadLightsOrigin | em_instructions.py:115-131 | LOAD lights pixel (0, 0) exactly when the addressed byte is non-zero, leaves every other pixel and RAM alone, and moves pc by 2 |
| StepFacts.AluTable | em_instructions.py:147-164 | ADD and SUB on bytes are addition and subtraction modulo 256; a smaller minus a larger wraps to 256 + a − b |
| StepFacts.XorUndoes | em_instructions.py:313-327 | XOR with the same operand twice restores the first operand |
| StepFacts.AndOrBounds | em_instructions.py:283-312 | AND is at most either operand and OR at least either operand |
| StepFacts.ShiftTable | em_instructions.py:328-384 | NOT is 255 − a and is its own inverse; SHL doubles modulo 256; SHR halves; SHR after SHL keeps the low 7 bits |
| StepFacts.ArithmeticExamples | em_instructions.py:342-370 | 5 − 10 = 251, 200 << 1 = 144, 255 + 255 = 254, ~0 = 255, 10 ^ 12 = 6 |
| StepFacts.BinaryWritesDestination | em_instructions.py:147-164 | with its three addresses in range, a two-operand instruction writes the result of its operation only to the destination byte and moves pc by 4 |
| StepFacts.ScratchWritesOneCell | em_instructions.py:184-263 | a successful SCRATCH_STORE/ADD/COPY changes one scratchpad cell, leaves RAM alone, and persists the new scratchpad |
| StepFacts.ScratchAddSums | em_instructions.py:221-244 | SCRATCH_ADD stores the sum of its two cells modulo 256 |
| StepFacts.ScratchLoadWritesOneCell | em_instructions.py:203-220 | a successful SCRATCH_LOAD copies one scratchpad cell into one RAM byte, and neither changes nor persists the scratchpad |
| StepFacts.BranchTargets | em_instructions.py:82-282 | LOOP goes to the entry point, JUMP to its address, and JUMPIF/SCRATCH_JUMPIF to their address exactly when the tested byte is non-zero, else past the instruction |
| StepFacts.PaintStopsAtBadPair | em_instructions.py:19-69 | SET/CLEAR draw the good pairs before the first bad one in order, then halt with IncompletePair or InvalidCoordinates carrying that pair, and pc does not move |
| Interpreter.Step | em_instructions.py:1-387 | one step on the emulator object changes its state exactly as `Semantics.Next` says, keeping the RAM array and the pc-to-line map |
| Interpreter.StepPaint | em_instructions.py:19-69 | SET/CLEAR on the object, as `Semantics.Paint` |
| Interpreter.DrawPairs | em_instructions.py:28-38 | the `for _ in range(count)` loop draws pixels and stops at a bad pair exactly as `Semantics.Pairs` |
| Interpreter.StepFill | em_instructions.py:85-95 | SETALL/SETNONE on the object, as `Semantics.Fill` |
| Interpreter.SweepDisplay | em_instructions.py:85-89 | the nested loops light (or clear) all 16 pixels and make the 16 calls in row-major order |
| Interpreter.StepWait | em_instructions.py:71-80 | WAIT on the object, as `Semantics.Wait` |
| Interpreter.StepStore | em_instructions.py:97-114 | STORE on the object, as `Semantics.Store` |
| Interpreter.StepLoad | em_instructions.py:115-131 | LOAD on the object, as `Semantics.Load` |
| Interpreter.StepJump | em_instructions.py:132-146 | JUMP on the object, as `Semantics.Jump` |
| Interpreter.StepBinary | em_instructions.py:147-164 | ADD, AND, OR, XOR and SUB on the object, as `Semantics.Binary` |
| Interpreter.StepUnary | em_instructions.py:328-384 | NOT, SHL and SHR on the object, as `Semantics.Unary` |
| Interpreter.StepJumpIf | em_instructions.py:165-183 | JUMPIF on the object, as `Semantics.JumpIf` |
| Interpreter.SaveScratchpad | em_storage.py:4-9 | the current scratchpad contents are appended to the log of saved images |
| Interpreter.StepScratchStore | em_instructions.py:184-202 | SCRATCH_STORE on the object, as `Semantics.ScratchStore` |
| Interpreter.StepScratchLoad | em_instructions.py:203-220 | SCRATCH_LOAD on the object, as `Semantics.ScratchLoad` |
| Interpreter.StepScratchAdd | em_instructions.py:221-244 | SCRATCH_ADD on the object, as `Semantics.ScratchAdd` |
| Interpreter.StepScratchCopy | em_instructions.py:245-263 | SCRATCH_COPY on the object, as `Semantics.ScratchCopy` |
| Interpreter.StepScratchJumpIf | em_instructions.py:264-282 | SCRATCH_JUMPIF on the object, as `Semantics.ScratchJumpIf` |
| Isa.Encode | em_parser.py:31-461 | an instruction is encoded as its opcode byte followed by its operands: 1 to 4 bytes, or 2 + 2n for SET/CLEAR with n pairs |
| Isa.Decode | em_instructions.py:13-384 | a decoded instruction starts with the byte it was decoded from, and its encoding fits within the bytes given |
| Isa.DecodeEncode | em_instructions.py:13-384 | decoding the encoding of an instruction, followed by any bytes, gives back that instruction |
| Isa.EncodeDecode | em_instructions.py:13-384 | re-encoding a decoded instruction gives back exactly the bytes it was decoded from |
| Isa.FitsByKinds | em_parser.py:115-461 | an instruction whose operands pass the assembler's RAM and scratchpad range tests fits the RAM at run time |
| Isa.Execute | em_instructions.py:19-384 | an instruction whose operands fit never halts or errors, keeps the entry point and RAM size, and, unless it branches, moves pc to just past its encoding |
| Isa.AluAgrees | em_instructions.py:147-356 | the step's masked Python arithmetic equals the table's definition: sums and differences modulo 256, bitwise AND/OR/XOR |
| Isa.ShiftAgrees | em_instructions.py:328-384 | the step's NOT, SHL and SHR equal 255 − x, 2x modulo 256 and x / 2 |
| Isa.PairsPrefix | em_instructions.py:28-38 | drawing a prefix of good pairs is the same as painting them up front and continuing the loop after them |
| Isa.PairsDrawAll | em_instructions.py:28-43 | when all pairs are on screen, the loop paints them all in order and ends just past them without a fault |
| Isa.NextExecutes | em_instructions.py:13-384 | when the bytes at pc decode to an instruction whose operands fit and whose pairs are on screen, the step is that instruction's `Execute` |
| Isa.NextDraws | em_instructions.py:19-69 | the same, for SET and CLEAR |
| Isa.NextPaints | em_instructions.py:19-69 | the step dispatches SET/CLEAR to the pair painter with the opcode at pc |
| Isa.NextControls | em_instructions.py:71-183 | the same, for WAIT, LOOP, SETALL/SETNONE, LOAD, JUMP and JUMPIF |
| Isa.NextComputes | em_instructions.py:97-164 | the same, for STORE and the RAM arithmetic instructions |
| Isa.NextUsesScratch | em_instructions.py:184-282 | the same, for the five scratchpad instructions |
| Isa.NextStore | em_instructions.py:97-114 | `[STORE, a, v]` at pc with a in range executes as StoreAt(a, v) |
| Isa.NextArith | em_instructions.py:147-164 | `[op, a, b, d]` at pc with addresses in range executes as Arith(op, a, b, d) |
| Isa.NextMonadic | em_instructions.py:328-384 | `[op, a, d]` at pc with addresses in range executes as Monadic(op, a, d) |
| Isa.NextWait | em_instructions.py:71-80 | `[WAIT, c]` at pc executes as WaitFor(c) |
| Isa.NextLoop | em_instructions.py:82-83 | `[LOOP]` at pc executes as LoopBack |
| Isa.NextFill | em_instructions.py:85-95 | `[SETALL]` or `[SETNONE]` at pc executes as FillAll |
| Isa.NextLoad | em_instructions.py:115-131 | `[LOAD, a]` at pc with a in range executes as LoadPixel(a) |
| Isa.NextJump | em_instructions.py:132-146 | `[JUMP, a]` at pc with a in range executes as JumpTo(a) |
| Isa.NextJumpIf | em_instructions.py:165-183 | `[JUMPIF, a, t]` at pc with both in range executes as JumpIfSet(a, t) |
| Isa.NextScratchPut | em_instructions.py:184-202 | `[SCRATCH_STORE, s, v]` at pc with s a slot executes as ScratchPut(s, v) |
| Isa.NextScratchGet | em_instructions.py:203-220 | `[SCRATCH_LOAD, s, a]` at pc executes as ScratchGet(s, a) |
| Isa.NextScratchSum | em_instructions.py:221-244 | `[SCRATCH_ADD, s1, s2, d]` at pc executes as ScratchSum(s1, s2, d) |
| Isa.NextScratchTake | em_instructions.py:245-263 | `[SCRATCH_COPY, a, s]` at pc executes as ScratchTake(a, s) |
| Isa.NextScratchBranch | em_instructions.py:264-282 | `[SCRATCH_JUMPIF, a, s]` at pc executes as ScratchBranch(a, s) |
| Text.TrimStart | em_parser.py:10 | drops exactly the leading whitespace (Python's whitespace set) |
| Text.TrimEnd | em_parser.py:10 | drops exactly the trailing whitespace |
| Text.Strip | em_parser.py:10 | the result neither starts nor ends with whitespace, and a string without whitespace is unchanged |
| Text.Upper | em_parser.py:10 | same length; each character is upper-cased on its own, and whitespace stays whitespace |
| Text.Split | em_parser.py:14 | `split()` yields non-empty words without whitespace; there are none exactly when the string is blank; the first word starts at the first non-blank character |
| Text.SplitOn | em_parser.py:36 | `split(',')` yields at least one piece, no piece contains a comma, and joining the pieces with commas gives back the string |
| Text.ParseInt | em_parser.py:21 | a parsed integer comes from a non-empty token, and a negative one from a token starting with '-' |
| Text.ParseDecimal | em_parser.py:21 | `int()` reads back the decimal spelling of any n, and of −n |
| Text.DigitsOfDecimal | em_parser.py:21 | the decimal spelling of n has value n |
| TextFacts.StripUpper | em_parser.py:10 | `strip()` and `upper()` commute |
| TextFacts.UpperTwice | em_parser.py:10 | `upper()` is idempotent |
| TextFacts.SplitTwo | em_parser.py:41 | two words separated by a space split into exactly those two words |
| TextFacts.SplitOnNone | em_parser.py:36 | a string without a comma is one piece |
| TextFacts.SplitOnFirst | em_parser.py:36 | `split(',')` cuts at the first comma: the text before it, then the pieces of the text after it |
| Assembly.Cleaned | em_parser.py:10 | a cleaned line is empty or starts with a non-space character |
| Assembly.Tokens | em_parser.py:11-15 | every line that is not skipped has a first token, the mnemonic, and all tokens are words |
| Assembly.FixedOpcode | em_parser.py:104-461 | each fixed-length mnemonic names an opcode of the table other than SET, CLEAR and WAIT |
| Assembly.Emit | em_parser.py:53-60 | byte-by-byte writes into the bytearray stop at the first value outside 0..255, and the bytes written equal the values before it |
| Assembly.Write | em_parser.py:467-469 | all the values are placed when they are all bytes; otherwise the line fails as malformed with only the prefix before the bad value written |
| Assembly.ParseAll | em_parser.py:120-121 | the operands parse exactly when every token is an integer, and each value is its token's |
| Assembly.RangeFault | em_parser.py:257-263 | there is no range error exactly when every operand is in range for its kind; otherwise the error is decided by the first operand, in source order, that fails its test: the scratchpad error for a scratchpad slot, the RAM error for an address |
| Assembly.OperandValues | em_parser.py:130 | value operands are masked to a byte; address operands are kept as they are |
| Assembly.FixedLine | em_parser.py:104-461 | a fixed-length instruction is placed starting with its own opcode within RAM, or fails; only a malformed operand can leave bytes behind (the operand bytes themselves: `AssemblyFacts.FixedSpelled`) |
| Assembly.WaitLine | em_parser.py:93-102 | WAIT is placed as the two bytes WAIT and the integer of its operand token, within RAM, or fails; only a malformed operand can leave bytes behind |
| Assembly.ReadSegment | em_parser.py:37-45 | a piece is skipped exactly when it strips to nothing |
| Assembly.ParsePairs | em_parser.py:36-45 | the pairs found number at most the comma-separated pieces (how pieces combine: `AssemblyFacts.ParsePairsAppend`) |
| Assembly.FlattenInts | em_parser.py:53-57 | the pairs laid out in order: pair j's x at 2j and its y at 2j + 1, and nothing more |
| Assembly.PairsLine | em_parser.py:46-60 | SET/CLEAR are placed starting with their opcode within RAM, or fail; only a malformed operand can leave bytes behind (the layout: `AssemblyFacts.PairsSpelled`) |
| Assembly.EntryLine | em_parser.py:18-29 | EP moves the entry point exactly when its operand is an integer below the RAM size; otherwise it fails without writing, as malformed or out of range |
| Assembly.Line | em_parser.py:17-469 | a line places bytes beginning with an opcode of the table, inside RAM; only EP moves the entry point, and only below the RAM size; a line fails as an unknown command exactly when its mnemonic is unknown (what the placed bytes are: `AssemblyFacts.LineSpelled`) |
| Assembly.Clean | em_parser.py:9-10 | every line is stripped and upper-cased |
| Assembly.Advance | em_parser.py:9-15 | blank and comment lines change nothing; an error names its own line number; the image stays RAM-sized |
| Assembly.Marked | em_parser.py:104-106 | a known mnemonic records its line number at the cursor, LOOP also resets pc to the entry point, and nothing else changes |
| Assembly.Effect | em_parser.py:17-469 | a line's outcome keeps the image RAM-sized, and an error names the line |
| Assembly.Proceed | em_parser.py:9-15 | one line, then the rest of the pass unless it raised an error: the image stays RAM-sized, success leaves pc at the entry point, an error names this line or a later one, and the entry point only moves below the RAM size |
| Assembly.Start | em_parser.py:3-7 | the state before the first line: RAM of the given size all zero, an empty pc-to-line map, the load cursor at 0, pc at the entry point |
| Assembly.Assemble | em_parser.py:1-472 | the whole program: RAM keeps its size, success leaves pc at the entry point, an error names a line of the program, and the entry point stays or moves below the RAM size (which entry point: `PassFacts.AssembleKeepsEntry`, `PassFacts.AssembleLastEntry`) |
| Assembly.Run | em_parser.py:9-472 | a pass that finds no error leaves pc at the entry point; an error names a line of the remaining program; the entry point stays below the RAM size once moved (which entry point: `PassFacts.RunKeepsEntry`, `PassFacts.LastEntryWins`) |
| Assembler.WriteAt | em_parser.py:53-60 | the bytes are written in place at the cursor and nothing else in RAM changes |
| Assembler.MarkLine | em_parser.py:104-106 | the object's pc and pc-to-line map change as `Assembly.Marked` says |
| Assembler.LoadTokens | em_parser.py:17-469 | one non-blank line changes the object as `Assembly.Effect` of its `Line` says, and sets the error exactly when it stops |
| Assembler.LoadLine | em_parser.py:10-15 | one cleaned line changes the object as `Assembly.Advance` says |
| Assembler.PassLine | em_parser.py:9-15 | after one line, the rest of the pass is either the error just raised or the pass from the next line on |
| Assembler.PassLines | em_parser.py:9-469 | the loop over the lines stops at the first error and leaves the object as the `Run` fold |
| Assembler.Pass | em_parser.py:9-472 | RAM, pc-to-line map, entry point, pc and error end as `Run` over the cleaned lines says; pc is set to the entry point only on success |
| Assembler.ParseAndLoadProgram | em_parser.py:1-472 | the emulator is reset, then ends with RAM, pc-to-line map, entry point, pc and error exactly as `Assemble`; the result is true exactly when no error was raised; it never starts the machine, and the scratchpad is untouched |
| AssemblyFacts.FixedPlacedDecodes | em_parser.py:104-461 | a placed fixed-length instruction decodes, encodes back to the same bytes, and its operands fit the RAM |
| AssemblyFacts.WaitPlacedDecodes | em_parser.py:93-102 | a placed WAIT decodes to WaitFor of its second byte and encodes back to the same bytes |
| AssemblyFacts.PairsPlacedDecodes | em_parser.py:46-60 | a placed SET/CLEAR decodes to a Draw of the right polarity whose pairs are the parsed pairs, in order |
| AssemblyFacts.FixedSpelled | em_parser.py:104-461 | a placed fixed-length instruction is its opcode and then, for each operand in source order, the integer of its token, masked to a byte for a value operand and as it is for an address |
| AssemblyFacts.PairsSpelled | em_parser.py:46-60 | a placed SET/CLEAR is `[op, n, x1, y1, ..., xn, yn]` with the parsed pairs in the order given, so the pairs were parsed |
| AssemblyFacts.LineSpelled | em_parser.py:17-469 | whatever a line places is, mnemonic by mnemonic, what its tokens spell: fixed-length opcodes as `FixedSpelled`, SET/CLEAR as `PairsSpelled` of the line's pieces, WAIT as WAIT and its token's integer |
| AssemblyFacts.PlacedDecodes | em_parser.py:31-461 | whatever a line places is exactly one instruction of the table, and the step engine's range tests pass for it |
| AssemblyFacts.FixedDispatch | em_parser.py:104-461 | a fixed-length mnemonic takes its own branch of the line decision |
| AssemblyFacts.RoomCheckedFirst | em_parser.py:115-119 | room in RAM is tested before any operand is read: the line fails with NotEnoughRam exactly when it would not fit |
| AssemblyFacts.PairsRoomCheckedLast | em_parser.py:46-52 | SET/CLEAR fail with NotEnoughRam exactly when their pairs were read, at least one was found, and 2 + 2n bytes do not fit |
| AssemblyFacts.SingleAddress | em_parser.py:135-150 | LOAD/JUMP reject an address at or past the RAM size before writing; a non-byte below it fails after the opcode is written; extra tokens are ignored |
| AssemblyFacts.ValueMasked | em_parser.py:115-133 | STORE and SCRATCH_STORE store any integer value modulo 256 |
| AssemblyFacts.WaitNotMasked | em_parser.py:93-102 | WAIT's cycle count is not masked: outside 0..255 the line fails after writing the WAIT byte |
| AssemblyFacts.ScratchTestOrder | em_parser.py:248-327 | with both operands out of range, SCRATCH_LOAD reports the scratchpad error, and SCRATCH_COPY and SCRATCH_JUMPIF the RAM error, following their source order |
| AssemblyFacts.FirstRangeTestDecides | em_parser.py:248-327 | for a two-operand instruction whose operands both parse, a first operand out of range decides the error, whatever the second is |
| AssemblyFacts.BlankSegmentsIgnored | em_parser.py:36-39 | an empty piece between commas does not change the pairs found |
| AssemblyFacts.ParsePairsAppend | em_parser.py:36-45 | the pairs of two runs of pieces are the pairs of the first followed by those of the second, and there are none if either run holds a bad piece |
| AssemblyFacts.BadSegmentRejected | em_parser.py:40-45 | one piece that is not exactly two integers makes the whole pair list invalid, wherever it stands |
| AssemblyFacts.SetWithoutPairs | em_parser.py:46-48 | a SET without pairs fails with RequiresPairs and writes nothing |
| AssemblyFacts.OnePairSegment | em_parser.py:36-42 | `"x y"` parses as the one pair (x, y) |
| AssemblyFacts.SetOnePair | em_parser.py:31-60 | `SET x y` with room places the four bytes `[SET, 1, x, y]` |
| AssemblyFacts.OnePairPlaced | em_parser.py:49-60 | one on-byte pair with room is placed as opcode, count 1, x, y |
| AssemblyFacts.PairsFit | em_parser.py:46-60 | a non-empty list of fewer than 256 pairs of byte coordinates, with room in RAM, is placed |
| AssemblyFacts.SetTwoPairs | em_parser.py:31-60 | `SET x1 y1,x2 y2` with byte coordinates and room places `[SET, 2, x1, y1, x2, y2]`: the pairs stay in the order written |
| AssemblyFacts.TwoPairSegments | em_parser.py:34-36 | `' '.join` then `split(',')` of `x1 y1,x2 y2` gives the two pieces `"x1 y1"` and `"x2 y2"` |
| AssemblyFacts.TwoPairsParsed | em_parser.py:36-45 | those two pieces parse to the two pairs, in order |
| AssemblyFacts.TwoPairsPlaced | em_parser.py:49-60 | two byte pairs with room are placed as `[SET, 2, x1, y1, x2, y2]` |
| PassFacts.AdvanceCommand | em_parser.py:11-15 | a command line is decided by its tokens' `Line` and applied by `Effect` |
| PassFacts.LineRecorded | em_parser.py:463-465 | a known mnemonic records its line at the cursor; LOOP resets pc; an unknown mnemonic stops the pass with UnknownCommand, changing nothing |
| PassFacts.EffectRecorded | em_parser.py:18-20 | the same, stated for a line's tokens |
| PassFacts.PlacedInRam | em_parser.py:53-60 | after a placed line, RAM between the old and the new cursor holds exactly the bytes the line spells, and they decode to one instruction whose encoding they are |
| PassFacts.EntryMoves | em_parser.py:18-29 | EP moves both the entry point and the load cursor to its operand, and records its line at the old cursor |
| PassFacts.NonEntryKeeps | em_parser.py:9-469 | a line that is not EP, whether skipped, placed or rejected, leaves the entry point as it was |
| PassFacts.RunKeepsEntry | em_parser.py:9-472 | a run of lines without EP ends, or stops at its error, with the entry point carried in |
| PassFacts.EntrySets | em_parser.py:18-29 | an EP line that lets the pass go on has an integer operand, and the entry point becomes that operand |
| PassFacts.EntryEffect | em_parser.py:18-29 | the same, stated for the line's tokens |
| PassFacts.LastEntryWins | em_parser.py:9-472 | when the pass succeeds, the entry point is the operand of the last EP line |
| PassFacts.AssembleKeepsEntry | em_parser.py:1-472 | a program without EP lines leaves the emulator's entry point as it was, since `reset` keeps it (em_core.py:39-46) |
| PassFacts.AssembleLastEntry | em_parser.py:1-472 | a program that assembles sets the entry point to the operand of its last EP line |
| PassFacts.RunStopsAtError | em_parser.py:9-24 | once a line raises an error, the lines after it have no effect |
| PassFacts.ErrorEndsPass | em_parser.py:9-24 | appending lines to a program that fails to assemble changes nothing |
| PassFacts.CleanedIgnoresCase | em_parser.py:10 | a line and its upper-cased form clean to the same text |
| PassFacts.AssembleIgnoresCase | em_parser.py:10 | assembling an upper-cased program gives exactly the same result: mnemonics are case-insensitive |

## Left out

- The Qt user interface (main_window.py), the application entry (main.py) and the unit tests (test_emulator.py) are not part of this model. The window's byte-count estimate and help text are UI only.
- The display widget's Qt styling is replaced by the set of lit pixels plus a log of display calls.
- `load_scratchpad` (em_storage.py:12-18) reads a pickle file that may hold any object. It is left out: a new emulator's scratchpad starts zeroed. This also applies to the call in `Emulator.__init__` (em_core.py:23).
- The pickle file I/O of `save_scratchpad` is replaced by appending the scratchpad's contents to the ghost log `saved`. A failed save only prints a message, so it has no effect on the model.
- The `Emulator` methods `parse_and_load_program`, `step`, `save_scratchpad` and `load_scratchpad` (em_core.py:27-37) only delegate. The model calls the delegated operations directly.
- Python's `int()` also accepts underscores, non-ASCII digits and surrounding whitespace. `Text.ParseInt` accepts only an optional sign followed by ASCII digits. Tokens come from `split()`, so they never carry whitespace.
- Text.Upper: only ASCII letters are upper-cased, unlike Python's full Unicode case mapping.
- Assembler.ParseAndLoadProgram: requires that no `EP` line has a negative operand. Python would accept one and index RAM from its end, which the model does not represent.
- Assembly.Assemble: carries the same requirement on negative `EP` operands.
- Assembly.Line: its own contract names the opcode, the RAM bounds and the entry point only. The bytes a placed line holds, token by token, are stated by `AssemblyFacts.LineSpelled` (with `FixedSpelled` and `PairsSpelled` for `FixedLine` and `PairsLine`), kept outside the function contracts so that every caller of `Line` is not burdened with them.
- Error message text is replaced by the `Fault` and `Reason` datatypes. The parser's `IndexError` (missing operand) and `ValueError` (bad integer, or a value outside 0..255 written into RAM) both become `MalformedOperand`.
- The interpreter's `0 <= x` tests on bytes read from RAM always hold, so they are not modelled separately.
- The RAM size is an unbounded natural. Addresses and cursors are unbounded integers, so the model adds no width limits beyond the byte-sized RAM cells.
- The run loop that repeatedly calls `step` while `running`, and its timer, belong to the UI and are not part of this model.
