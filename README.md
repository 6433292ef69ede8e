# asm8086 in Dafny

asm8086 is a small 8086 assembler embedded in Python. A program calls
instruction methods on an `Asm` object, from `NOP` to `JG`, plus `LABEL`, `DATA` and the
DOS helpers `INPUTCH`, `PRINTCH` and `EXIT`. Each call appends opcode bytes
to an internal list and moves an instruction pointer that starts at the
`.COM` load offset 0x100. References to labels are left in the list as
placeholders. `compile` then makes a second pass: it replaces every
placeholder by the label's address (a little-endian word for `MOVR16`) or by
the label's distance from the jump (one byte for `JMPN`). It fails on a label
that was never declared.

The model:

- `encoding.dfy`, module `Encoding`:
  - Python's `&`, `|` and `>>` as Dafny needs them.
  - The byte and word encoders `_byte` and `_word`, written `Mask8` and `Word`.
  - Lemmas tying the arithmetic masks to the bitwise operators, and the word round trip.
- `registers.dfy`, module `Registers`: the register constants.
- `cells.dfy`, module `Cells`:
  - The three kinds of entry in `_bytecode`: a literal int, a word placeholder
    and a relative-byte placeholder.
  - The resolution pass of `compile` as the function `Resolve`.
  - Its properties: failure exactly on an undeclared label, the first missing
    label reported, the output length, and where each cell's bytes land.
- `emitter.dfy`, module `Emitter`: pass 1 as a function.
  - `Encode` gives the cells one instruction call appends.
  - `Advance` gives how far the call moves the instruction pointer.
  - `Step` and `Run` fold a program of calls over the state (IP, cells, labels).
  - Lemmas about whole programs:
    - length accounting;
    - which declaration of a label wins;
    - where a forward or backward `JMPN` points;
    - what `MOVR16` with a label resolves to;
    - that an undeclared reference makes compilation fail.
- `assembler.dfy`, module `Assembler`: the class `Asm`.
  - Its fields are `IP`, `bytecode` and `labels`, with one method per method
    of the Python class, and `Compile` as a loop over the cells.
  - A ghost `history` records the calls made, and `Valid()` says that the
    fields equal `Run(Init(), history)`. So every program lemma of `Emitter`
    applies to a real object.
- `programs.dfy`, module `Programs`: whole-program properties of `compile`.
  - A program compiles if and only if every label it refers to is declared
    somewhere in it, before or after the reference.
  - A program without CMPAX and DATA that compiles yields a byte string.
  - CMPAX and DATA can leave ints above 255 in the image.
- `sample.dfy`, module `Sample`: the repository's sample program assembled
  through `Asm`, with the exact image it compiles to.

The model follows the code's behaviour, including where it departs from what
an 8086 assembler is expected to do:

- `JMPN` to a label stores the distance from the jump's own first byte, not from
  the byte after the displacement. On the processor the jump therefore lands
  two bytes past the label (`Emitter.ShortJumpLandsPastLabel`). In the sample
  program this skips the `MOV AH, 02h` that starts the code at `START`.
- `CMPAX` appends the opcode and one unsplit cell `v & 0xFFFF`, that is, two cells
  that resolve to two ints, the second possibly above 255. It still advances the
  instruction pointer by 3.
- `DATA` appends its items without moving the instruction pointer. A label
  declared after `DATA` therefore points into the data.
- `INC` and `PUSH` combine the opcode with `reg >> 4`, which is 0 for every
  register constant, so they always emit 0x40 and 0x50.
- The instruction pointer is an unbounded int, not a 16-bit register.
- The register number is combined with the opcode by `|`, which, with the
  register constants used, equals addition.
- There is no single-byte absolute placeholder and no far-jump form. The only
  placeholders are the word for `MOVR16` and the relative byte for `JMPN`.

## Model

| member | source | states |
|---|---|---|
| Encoding.BitOr | asm8086.py:16-19 | Python's `a \| b` on non-negative ints, defined bit by bit from the least significant bit |
| Encoding.BitOrBounds | asm8086.py:61 | `a \| b` is at least each operand and at most their sum |
| Encoding.BitAnd | asm8086.py:52 | Python's `a & b` on non-negative ints, defined bit by bit from the least significant bit |
| Encoding.BitAndBounds | asm8086.py:226 | `a & b` is at most each operand |
| Encoding.HighByte | asm8086.py:229 | `(v & 0xFF00) >> 8`, bits 8 to 15 of v as a byte (its link to `&` is `HighByteIsBitAnd`) |
| Encoding.Mask8 | asm8086.py:225-226 | `_byte`: the result is a byte congruent to the value modulo 256, for any int, negative ones included |
| Encoding.Mask16 | asm8086.py:134 | `v & 0xFFFF` is the value in 0..0xFFFF congruent to v modulo 65536 |
| Encoding.Word | asm8086.py:228-229 | `_word` yields two bytes; the first is `v & 0xFF`, and read back little-endian they give `v & 0xFFFF` |
| Encoding.Decode16 | asm8086.py:228-229 | two bytes read little-endian give a value in 0..0xFFFF |
| Encoding.Signed8 | asm8086.py:7 | a displacement byte read as signed lies in -128..127 and masks back to the same byte |
| Encoding.Signed8OfMask8 | asm8086.py:7 | a distance in -128..127 survives `& 0xFF` followed by a signed read |
| Encoding.WordRoundTrip | asm8086.py:228-229 | for a value in 0..0xFFFF, `_word` followed by a little-endian read gives the value back |
| Encoding.Mask8Identity | asm8086.py:225-226 | `_byte` leaves a value already in 0..255 unchanged |
| Encoding.WordSplit | asm8086.py:72 | low byte plus 256 times `(v & 0xFF00) >> 8` is `v & 0xFFFF` |
| Encoding.BitAndLowMask | asm8086.py:52 | `v & (2^k - 1)` is v modulo 2^k for non-negative v |
| Encoding.BitAndOddMask | asm8086.py:52 | a mask of k ones takes bit 0 of v and then k - 1 ones of v / 2 |
| Encoding.MasksAreBitwise | asm8086.py:72 | the arithmetic masks equal Python's `& 0xFF`, `& 0xFFFF` and `(& 0xFF00) >> 8` on non-negative ints |
| Encoding.HighByteIsBitAnd | asm8086.py:72 | `v & 0xFF00` is 256 times the high byte |
| Encoding.BitOrAligned | asm8086.py:61 | OR-ing a value into k clear low bits is addition |
| Encoding.OrLowNibble | asm8086.py:61 | `base \| r` with a base whose low nibble is clear and r below 16 is `base + r` |
| Registers.RegisterSpaces | asm8086.py:12-28 | the register constants: AH..BH are 0x04..0x07, that is AL..BL with bit 0x04 set; the byte registers 0x00..0x07 and the word registers AX..DI 0x08..0x0F are disjoint ranges |
| Cells.CellWidth | asm8086.py:238-246 | how many ints one cell becomes in `compile`: 2 for a word placeholder, 1 otherwise |
| Cells.Width | asm8086.py:238-246 | how many ints a cell list becomes: the sum of its cells' widths |
| Cells.WidthBounds | asm8086.py:238-246 | a list of n cells becomes between n and 2n ints |
| Cells.Resolve | asm8086.py:236-247 | `compile` as a function: the cells' bytes concatenated in order, or the error of the first undeclared placeholder; `Assembler.Asm.Compile` is proved equal to it |
| Cells.ResolveBytes | asm8086.py:236-247 | when every literal cell is a byte, a successful compile yields a byte string, since both placeholders resolve to bytes |
| Cells.LitCells | asm8086.py:246 | turning a list of ints into literal cells keeps its length and every item |
| Cells.WidthLitCells | asm8086.py:206-207 | literal cells take one output byte each |
| Cells.ResolveCell | asm8086.py:238-246 | one cell resolves exactly when it is a literal or names a declared label, into 1 byte (2 for a word placeholder); otherwise the error names the missing label |
| Cells.ThenAssociative | asm8086.py:237-247 | accumulating results cell by cell is associative |
| Cells.ResolveAppend | asm8086.py:238-246 | resolving two cell lists one after the other resolves their concatenation |
| Cells.WidthAppend | asm8086.py:238-246 | output width adds up over concatenation |
| Cells.ResolveLength | asm8086.py:236-247 | a successful compile yields as many ints as the cells' widths add up to |
| Cells.ResolveOkIffDeclared | asm8086.py:238-246 | compile succeeds if and only if every placeholder names a label in the table |
| Cells.ResolveFailsAtFirstUnresolved | asm8086.py:241-244 | on failure, the error names the label of the first unresolved placeholder, as the loop's first missing key does |
| Cells.ResolveUndeclaredFails | asm8086.py:241-244 | one undeclared placeholder anywhere makes compilation fail |
| Cells.ResolveLiterals | asm8086.py:245-246 | a placeholder-free list compiles to itself whatever the labels |
| Cells.ResolveAt | asm8086.py:238-246 | the bytes of cell k sit at offset Width(cells[..k]) of the output |
| Cells.ResolvePlaced | asm8086.py:238-246 | cells placed after a prefix p resolve to the output slice that starts where the bytes of p end |
| Cells.ResolvePair | asm8086.py:238-246 | two cells resolve to what each resolves to, first failure winning |
| Cells.ResolveTwoBytesAt | asm8086.py:238-246 | two consecutive one-byte cells give the two output bytes at Width(p) and Width(p)+1 |
| Cells.Rel8Resolves | asm8086.py:242-244 | a relative placeholder becomes `(label - origin) & 0xFF` |
| Cells.WidthSingle | asm8086.py:238-246 | a single cell's width is its own width |
| Cells.WidthPair | asm8086.py:238-246 | two cells' width is the sum of theirs |
| Cells.ResolvePrefixErr | asm8086.py:238-244 | a failure on a prefix is the failure of the whole list |
| Emitter.Init | asm8086.py:34-37 | the state of a new assembler: IP 0x100, no cells, no labels |
| Emitter.Encode | asm8086.py:41-207 | the cells each instruction method appends when called at a given IP (`Assembler.Asm` methods are proved to append exactly these) |
| Emitter.Advance | asm8086.py:41-207 | each method's `_IP +=` amount, 0 for LABEL and DATA |
| Emitter.Step | asm8086.py:41-207 | one method call: IP advanced, cells appended, and for LABEL the name bound to the old IP |
| Emitter.Run | asm8086.py:34-207 | a sequence of calls on one assembler, in order; `Assembler.Asm.Valid` ties the object's fields to it |
| Emitter.InputCh | asm8086.py:211-213 | INPUTCH as its calls MOVR8(AH, 0x01) and INT(0x21) |
| Emitter.PrintCh | asm8086.py:215-218 | PRINTCH as its calls MOVR8(AH, 0x02), MOVR8(DL, value) and INT(0x21) |
| Emitter.Exit | asm8086.py:220-223 | EXIT as its calls MOVR8(AH, 0x4C), MOVR8(AL, code) and INT(0x21) |
| Emitter.AdvanceTable | asm8086.py:41-207 | the instruction-pointer advance of every instruction: 1, 2 or 3, and 0 for LABEL and DATA |
| Emitter.StepAccounting | asm8086.py:129-135 | the advance equals the bytes the appended cells resolve to, plus 1 for CMPAX and minus the item count for DATA |
| Emitter.RegisterOpcodes | asm8086.py:55-107 | MOVR8, MOVR16, DEC and POP add the register to their opcode; INC and PUSH always emit 0x40 and 0x50 |
| Emitter.ByteOperandMasked | asm8086.py:47-183 | every 8-bit operand is masked, never rejected: the byte is the operand modulo 256, and the operand itself when it fits |
| Emitter.MovR8Truncates | asm8086.py:55-62 | MOVR8(AL, 0x1FF) encodes as B0 FF |
| Emitter.MovR16Immediate | asm8086.py:64-75 | MOVR16 with a number compiles to the opcode and the value's two bytes, low first, whatever the labels |
| Emitter.JmpNPlaceholder | asm8086.py:109-119 | JMPN to a label appends 0xEB and a placeholder anchored at the jump's own instruction pointer, and advances 2 |
| Emitter.ShortJumpLandsPastLabel | asm8086.py:109-119 | a short jump at P with the stored displacement `(A - P) & 0xFF` continues at A + 2 on the processor |
| Emitter.RunAppend | asm8086.py:34-207 | running two programs one after the other runs their concatenation |
| Emitter.RunSnoc | asm8086.py:34-207 | one more call adds one step to the fold |
| Emitter.RunOne | asm8086.py:34-207 | a one-call program is one step |
| Emitter.RunPastInstr | asm8086.py:34-207 | after an instruction and anything following it, the instruction pointer is at least past that instruction |
| Emitter.SkewAppend | asm8086.py:129-135 | the advance-versus-width skew adds up over concatenation |
| Emitter.RunExtends | asm8086.py:34-207 | calls only append to the bytecode and never move the instruction pointer back |
| Emitter.RunAccounting | asm8086.py:41-207 | after any program, the advance of the instruction pointer equals the width of the new cells plus one per CMPAX, minus each DATA's item count |
| Emitter.InSyncHasNoSkew | asm8086.py:41-207 | a program without CMPAX and DATA has no skew |
| Emitter.CompiledLength | asm8086.py:236-247 | without CMPAX and DATA, the compiled image is exactly as long as IP has advanced from 0x100 |
| Emitter.RunKeepsLabel | asm8086.py:203-204 | calls other than LABEL of a name leave that name's entry unchanged |
| Emitter.LastLabelWins | asm8086.py:203-204 | a label holds the instruction pointer of its last declaration |
| Emitter.RunAppendsEncoding | asm8086.py:41-207 | an instruction's cells land right after everything emitted before it, whatever follows |
| Emitter.JmpNResolves | asm8086.py:109-119 | in any program that compiles, a JMPN to a label yields 0xEB and `(final label address - jump's start) & 0xFF` at the jump's output offset |
| Emitter.JumpBytesAt | asm8086.py:242-244 | an opcode and a relative placeholder in place resolve to 0xEB and the masked distance |
| Emitter.ForwardJump | asm8086.py:109-119 | a jump to a label declared later points at the label's IP, which is at least 2 past the jump |
| Emitter.LabelAfterJump | asm8086.py:203-204 | a label declared after a jump, and not redeclared, holds the IP at its declaration |
| Emitter.BackwardJump | asm8086.py:109-119 | a jump to a label declared earlier, and not redeclared, stores the distance back to that declaration |
| Emitter.LabelBeforeJump | asm8086.py:203-204 | a label declared before an instruction, and not redeclared, holds the IP at its declaration |
| Emitter.MovR16Placeholder | asm8086.py:70-74 | MOVR16 to a label appends B0 + reg and one word placeholder |
| Emitter.MovR16Resolves | asm8086.py:64-75 | in any program that compiles, MOVR16 with a label yields the opcode and the label's final address, low byte first |
| Emitter.AddressBytesAt | asm8086.py:240-241 | an opcode and a word placeholder in place resolve to the opcode and the label's two bytes |
| Emitter.UndeclaredLabelFails | asm8086.py:241-244 | a JMPN or MOVR16 naming a label the program never declares makes compile fail |
| Emitter.MovR8Encoding | asm8086.py:55-62 | MOVR8 appends B0 + reg and the value masked to a byte |
| Emitter.HelperOpcodes | asm8086.py:211-223 | the helpers' `MOV AH`, `MOV AL` and `MOV DL` opcodes are B4, B0 and B2 |
| Emitter.RunTwo | asm8086.py:211-213 | a two-call program is two steps |
| Emitter.RunThree | asm8086.py:215-223 | a three-call program is three steps |
| Emitter.ExitExpansion | asm8086.py:220-223 | EXIT(c) appends B4 4C B0 (c & 0xFF) CD 21 and advances 6 |
| Emitter.PrintChExpansion | asm8086.py:215-218 | PRINTCH(v) appends B4 02 B2 (v & 0xFF) CD 21 and advances 6 |
| Emitter.InputChExpansion | asm8086.py:211-213 | INPUTCH appends B4 01 CD 21 and advances 4 |
| Programs.EncodePlaceholders | asm8086.py:70-74 | the only placeholders a call appends name the label a JMPN or MOVR16 refers to |
| Programs.RefPlaceholder | asm8086.py:114-116 | a JMPN or MOVR16 naming a label appends a placeholder for it as its second cell |
| Programs.PlaceholdersReferenced | asm8086.py:41-207 | every placeholder a program emits names a label the program refers to |
| Programs.ReferencesPlaced | asm8086.py:41-207 | every label a program refers to has a placeholder among the emitted cells |
| Programs.LabelKeys | asm8086.py:203-204 | the label table holds exactly the names declared so far |
| Programs.ProgramCompilesIffDeclared | asm8086.py:236-247 | a program compiles if and only if every label it refers to is declared somewhere in it, before or after the reference |
| Programs.ForwardReferenceCompiles | asm8086.py:109-119 | JMPN("L"), NOP, LABEL("L") compiles to EB 03 90: a forward reference resolves, the distance counted from the jump's start |
| Programs.EncodeBytes | asm8086.py:41-207 | without CMPAX and DATA every literal a call appends is in 0..255 |
| Programs.RunBytes | asm8086.py:41-207 | a program without CMPAX and DATA emits only byte literals |
| Programs.InSyncOutputIsBytes | asm8086.py:236-247 | a program without CMPAX and DATA that compiles yields only ints in 0..255 |
| Programs.CmpAxIsNotBytes | asm8086.py:129-135 | CMPAX(0x1234) compiles to [0x3D, 0x1234], not a byte string |
| Programs.DataIsNotMasked | asm8086.py:206-207 | DATA([300]) compiles to [300], not a byte string |
| Assembler.Asm.constructor | asm8086.py:34-37 | a new assembler has IP 0x100, no bytecode and no labels |
| Assembler.Asm.NOP | asm8086.py:41-45 | appends 0x90, IP + 1 |
| Assembler.Asm.INT | asm8086.py:47-53 | appends CD and the masked number, IP + 2 |
| Assembler.Asm.MOVR8 | asm8086.py:55-62 | appends B0 + reg and the masked value, IP + 2 |
| Assembler.Asm.MOVR16 | asm8086.py:64-75 | appends B0 + reg, then the value's two bytes or one word placeholder for a label, IP + 3 |
| Assembler.Asm.INC | asm8086.py:77-83 | appends 0x40 whatever the register, IP + 1 |
| Assembler.Asm.DEC | asm8086.py:85-91 | appends 0x40 + reg, IP + 1 |
| Assembler.Asm.POP | asm8086.py:93-99 | appends 0x50 + reg, IP + 1 |
| Assembler.Asm.PUSH | asm8086.py:101-107 | appends 0x50 whatever the register, IP + 1 |
| Assembler.Asm.JMPN | asm8086.py:109-119 | appends EB and the masked distance, or a placeholder anchored at the old IP for a label, IP + 2 |
| Assembler.Asm.CMPAL | asm8086.py:121-127 | appends 3C and the masked value, IP + 2 |
| Assembler.Asm.CMPAX | asm8086.py:129-135 | appends 3D and one cell `v & 0xFFFF`, IP + 3 |
| Assembler.Asm.JZ | asm8086.py:137-143 | appends 74 and the masked distance, IP + 2 |
| Assembler.Asm.JNZ | asm8086.py:145-151 | appends 75 and the masked distance, IP + 2 |
| Assembler.Asm.JL | asm8086.py:153-159 | appends 7C and the masked distance, IP + 2 |
| Assembler.Asm.JGE | asm8086.py:161-167 | appends 7D and the masked distance, IP + 2 |
| Assembler.Asm.JLE | asm8086.py:169-175 | appends 7E and the masked distance, IP + 2 |
| Assembler.Asm.JG | asm8086.py:177-183 | appends 7F and the masked distance, IP + 2 |
| Assembler.Asm.JE | asm8086.py:187-192 | is JZ: the same cells and the same recorded call |
| Assembler.Asm.JNE | asm8086.py:194-199 | is JNZ: the same cells and the same recorded call |
| Assembler.Asm.LABEL | asm8086.py:203-204 | binds the name to the current IP, replacing an earlier binding; nothing else changes |
| Assembler.Asm.DATA | asm8086.py:206-207 | appends the items unmasked; IP and labels unchanged |
| Assembler.Asm.INPUTCH | asm8086.py:211-213 | the two calls MOVR8(AH, 1), INT(0x21): B4 01 CD 21, IP + 4 |
| Assembler.Asm.PRINTCH | asm8086.py:215-218 | the three calls selecting DOS function 02h: B4 02 B2 (v & 0xFF) CD 21, IP + 6 |
| Assembler.Asm.EXIT | asm8086.py:220-223 | the three calls selecting DOS function 4Ch, default code 0: B4 4C B0 (c & 0xFF) CD 21, IP + 6 |
| Assembler.Asm.GetBytecode | asm8086.py:233-234 | returns the emitted cells as they are |
| Assembler.Asm.Compile | asm8086.py:236-247 | the loop's result is `Resolve` of the cells and labels; an error implies an undeclared placeholder |
| Sample.AssembleSample | sample.py:7-17 | the sample program compiles to its 48-byte image, with the jump displacement 08 and the string address 0x0121 |
| Sample.FirstLines | sample.py:7-10 | after PRINTCH('A'), JMPN("START"), EXIT() and LABEL("START"), IP is 0x10E and the first 14 bytes are fixed |
| Sample.MiddleLines | sample.py:11-14 | the next four calls add 13 bytes, MOV DX pointing at DATA |
| Sample.LastLines | sample.py:15-17 | EXIT, LABEL("DATA") and the message complete the image |

Every instruction method of `Asm` also keeps `Valid()` and records its
call in `history`. So the fields are `Run(Init(), history)` after every call,
and the `Emitter` lemmas describe the object's state.

## Left out

- Placeholders in the Python code are strings (`'1:' + name` and
  `'2:' + ip + ':' + name`) mixed with ints in one list. Here they are the
  constructors `AbsWord` and `Rel8`. A label name containing ':' (which breaks the
  split in `compile`) and DATA items that are strings (which `compile` would
  read as placeholders or silently drop) cannot be expressed.
- Dynamic typing: operands are either ints or the `Operand` type (`Imm` or
  `Ref`), and DATA takes a list of ints. Other Python values are not modelled.
- `Cells.ResolveCell`: a missing label raises `KeyError` in Python. Here it is
  the result `Err(UnresolvedLabel(name))`.
- `Assembler.Asm.GetBytecode`: returns a copy of the sequence value. The
  aliasing of the Python list (a caller mutating the returned list changes the
  assembler) is not modelled.
- `Encoding.MasksAreBitwise`: the link between the arithmetic masks and
  bitwise `&` is proved for non-negative operands only. For negative operands
  the masks use Euclidean `%`, which is what Python's `&` on its
  two's-complement ints gives.
- `bytes()` rejecting ints above 255 is not modelled. `Programs.InSyncOutputIsBytes`
  proves that programs without CMPAX and DATA compile to bytes, and
  `Programs.CmpAxIsNotBytes` and `Programs.DataIsNotMasked` show that the
  other two can break this. Writing the image to a file is not modelled.
- Register numbers: a register parameter is a `Reg`, a number below 16 (the
  range of the constants at asm8086.py:12-28). Python accepts any int there,
  e.g. `INC(0x10)` emits 0x41 and `MOVR8(0x10, v)` emits 0xB0. The statement that `reg >> 4`
  is 0, and the opcode sums `0xB0 + r`, hold for this range only.
- What the produced code does when DOS runs it is modelled only for the
  short-jump target (`Emitter.ShortJumpLandsPastLabel`).
- In sample.py, the printing of the lists and the writing of test.com are
  left out. Its line `asm = asm()` names an undefined `asm`; the model
  uses a new `Asm` object, as the remaining lines assume.
