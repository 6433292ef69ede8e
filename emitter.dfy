/** Pass 1 of the assembler as a function of its state.

    An assembly session is the triple (instruction pointer, cell sequence,
    label table). Each instruction method of `Asm` appends the cells of one
    instruction and advances the instruction pointer by a fixed amount, or,
    for LABEL, records the instruction pointer under a name. Step says what
    one instruction does to the triple and Run folds a program of them;
    the `Asm` class is proved against these functions. */
module Emitter {
  import opened Encoding
  import opened Registers
  import opened Cells

  /** The operand of MOVR16 and JMPN: a number, or the name of a label. */
  datatype Operand = Imm(value: int) | Ref(name: string)

  /** One call of an instruction method of `Asm`. */
  datatype Instr =
    | Nop
    | Int(v: int)
    | MovR8(r: Reg, v: int)
    | MovR16(r: Reg, src: Operand)
    | Inc(r: Reg)
    | Dec(r: Reg)
    | Pop(r: Reg)
    | Push(r: Reg)
    | JmpN(target: Operand)
    | CmpAl(v: int)
    | CmpAx(v: int)
    | Jz(d: int)
    | Jnz(d: int)
    | Jl(d: int)
    | Jge(d: int)
    | Jle(d: int)
    | Jg(d: int)
    | Label(name: string)
    | Data(items: seq<int>)

  /** The fields `_IP`, `_bytecode` and `_labels` of one `Asm` object. */
  datatype State = State(ip: nat, cells: seq<Cell>, labels: Labels)

  /** The instruction pointer a new assembler starts from. */
  const LoadOffset: nat := 0x100

  function Init(): State
  {
    State(LoadOffset, [], map[])
  }

  /** The cells instruction i appends when the instruction pointer is ip. */
  function Encode(ip: nat, i: Instr): seq<Cell>
  {
    match i
    case Nop => [Lit(0x90)]
    case Int(v) => [Lit(0xCD), Lit(Mask8(v))]
    case MovR8(r, v) => [Lit(BitOr(0xB0, r)), Lit(Mask8(v))]
    case MovR16(r, src) =>
      [Lit(BitOr(0xB0, r))] + (match src
                               case Imm(v) => LitCells(Word(v))
                               case Ref(l) => [AbsWord(l)])
    case Inc(r) => [Lit(BitOr(0x40, r / 16))]
    case Dec(r) => [Lit(BitOr(0x40, r))]
    case Pop(r) => [Lit(BitOr(0x50, r))]
    case Push(r) => [Lit(BitOr(0x50, r / 16))]
    case JmpN(t) =>
      [Lit(0xEB), match t
                  case Ref(l) => Rel8(ip, l)
                  case Imm(d) => Lit(Mask8(d))]
    case CmpAl(v) => [Lit(0x3C), Lit(Mask8(v))]
    case CmpAx(v) => [Lit(0x3D), Lit(Mask16(v))]
    case Jz(d) => [Lit(0x74), Lit(Mask8(d))]
    case Jnz(d) => [Lit(0x75), Lit(Mask8(d))]
    case Jl(d) => [Lit(0x7C), Lit(Mask8(d))]
    case Jge(d) => [Lit(0x7D), Lit(Mask8(d))]
    case Jle(d) => [Lit(0x7E), Lit(Mask8(d))]
    case Jg(d) => [Lit(0x7F), Lit(Mask8(d))]
    case Label(_) => []
    case Data(items) => LitCells(items)
  }

  /** How far instruction i moves the instruction pointer. */
  function Advance(i: Instr): nat
  {
    match i
    case Nop | Inc(_) | Dec(_) | Pop(_) | Push(_) => 1
    case Int(_) | MovR8(_, _) | JmpN(_) | CmpAl(_) => 2
    case Jz(_) | Jnz(_) | Jl(_) | Jge(_) | Jle(_) | Jg(_) => 2
    case MovR16(_, _) | CmpAx(_) => 3
    case Label(_) | Data(_) => 0
  }

  /** One instruction method call on the session state. */
  function Step(s: State, i: Instr): State
  {
    State(s.ip + Advance(i),
          s.cells + Encode(s.ip, i),
          if i.Label? then s.labels[i.name := s.ip] else s.labels)
  }

  /** A program, called in order. */
  function Run(s: State, prog: seq<Instr>): State
  {
    if prog == [] then s else Step(Run(s, prog[..|prog| - 1]), prog[|prog| - 1])
  }

  /** INPUTCH, PRINTCH and EXIT as the primitive calls they make. */
  function InputCh(): seq<Instr>
  {
    [MovR8(AH, 0x01), Int(0x21)]
  }

  function PrintCh(value: int): seq<Instr>
  {
    [MovR8(AH, 0x02), MovR8(DL, value), Int(0x21)]
  }

  function Exit(code: int): seq<Instr>
  {
    [MovR8(AH, 0x4C), MovR8(AL, code), Int(0x21)]
  }

  /** By how much an instruction's advance exceeds the bytes it resolves to:
      CMPAX advances 3 for 2 cells, DATA advances 0 for its items. */
  function SkewOf(i: Instr): int
  {
    match i
    case CmpAx(_) => 1
    case Data(items) => -|items|
    case _ => 0
  }

  function Skew(prog: seq<Instr>): int
  {
    if prog == [] then 0 else Skew(prog[..|prog| - 1]) + SkewOf(prog[|prog| - 1])
  }

  /** The program has no DATA and no CMPAX call. */
  predicate InSyncProgram(prog: seq<Instr>)
  {
    forall k :: 0 <= k < |prog| ==> !prog[k].Data? && !prog[k].CmpAx?
  }

  /** No LABEL call in the program declares this name. */
  predicate NoLabel(prog: seq<Instr>, name: string)
  {
    forall k :: 0 <= k < |prog| ==> prog[k] != Label(name)
  }

  /** The byte value an immediate-byte instruction was given, before masking. */
  predicate HasByteOperand(i: Instr)
  {
    i.Int? || i.MovR8? || i.CmpAl? || i.Jz? || i.Jnz? || i.Jl? || i.Jge? || i.Jle? || i.Jg?
    || (i.JmpN? && i.target.Imm?)
  }

  function ByteOperand(i: Instr): int
    requires HasByteOperand(i)
  {
    match i
    case Int(v) => v
    case MovR8(_, v) => v
    case CmpAl(v) => v
    case JmpN(t) => t.value
    case Jz(d) => d
    case Jnz(d) => d
    case Jl(d) => d
    case Jge(d) => d
    case Jle(d) => d
    case Jg(d) => d
  }

  // ---------------------------------------------------------------------
  // One instruction

  /** The instruction pointer advance of every instruction. */
  lemma AdvanceTable(i: Instr)
    ensures (i.Nop? || i.Inc? || i.Dec? || i.Pop? || i.Push?) ==> Advance(i) == 1
    ensures (i.Int? || i.MovR8? || i.CmpAl? || i.JmpN?) ==> Advance(i) == 2
    ensures (i.Jz? || i.Jnz? || i.Jl? || i.Jge? || i.Jle? || i.Jg?) ==> Advance(i) == 2
    ensures (i.MovR16? || i.CmpAx?) ==> Advance(i) == 3
    ensures (i.Label? || i.Data?) ==> Advance(i) == 0
  {
  }

  /** The advance equals the number of bytes the appended cells resolve to,
      except for CMPAX (one more) and DATA (the item count less). */
  lemma StepAccounting(ip: nat, i: Instr)
    ensures Advance(i) == Width(Encode(ip, i)) + SkewOf(i)
  {
    var e := Encode(ip, i);
    match i
    case Data(items) => WidthLitCells(items);
    case Label(_) =>
    case Nop => WidthOfOne(e);
    case Inc(_) => WidthOfOne(e);
    case Dec(_) => WidthOfOne(e);
    case Pop(_) => WidthOfOne(e);
    case Push(_) => WidthOfOne(e);
    case MovR16(r, src) =>
      if src.Imm? {
        WidthOfThree(e);
      } else {
        WidthOfTwo(e);
      }
    case _ => WidthOfTwo(e);
  }

  lemma WidthOfOne(e: seq<Cell>)
    requires |e| == 1
    ensures Width(e) == CellWidth(e[0])
  {
    assert e == [e[0]];
    WidthSingle(e[0]);
  }

  lemma WidthOfTwo(e: seq<Cell>)
    requires |e| == 2
    ensures Width(e) == CellWidth(e[0]) + CellWidth(e[1])
  {
    assert e == [e[0], e[1]];
    WidthPair(e[0], e[1]);
  }

  lemma WidthOfThree(e: seq<Cell>)
    requires |e| == 3
    ensures Width(e) == CellWidth(e[0]) + CellWidth(e[1]) + CellWidth(e[2])
  {
    assert e == [e[0], e[1]] + [e[2]];
    WidthPair(e[0], e[1]);
    WidthAppend([e[0], e[1]], [e[2]]);
    WidthSingle(e[2]);
  }

  /** The register field: MOVR8, MOVR16, DEC and POP add the register number to
      their base opcode; INC and PUSH shift it out (`reg >> 4` is 0 for every
      register), so they always emit 0x40 and 0x50, the opcodes for AX. */
  lemma RegisterOpcodes(ip: nat, r: Reg, v: int, src: Operand)
    ensures Encode(ip, MovR8(r, v))[0] == Lit(0xB0 + r)
    ensures Encode(ip, MovR16(r, src))[0] == Lit(0xB0 + r)
    ensures Encode(ip, Dec(r)) == [Lit(0x40 + r)]
    ensures Encode(ip, Pop(r)) == [Lit(0x50 + r)]
    ensures Encode(ip, Inc(r)) == [Lit(0x40)]
    ensures Encode(ip, Push(r)) == [Lit(0x50)]
  {
    OrLowNibble(0xB0, r);
    OrLowNibble(0x40, r);
    OrLowNibble(0x50, r);
    OrLowNibble(0x40, 0);
  }

  /** An 8-bit operand of any size is masked, never rejected: the byte after the
      opcode is the operand modulo 256. */
  lemma ByteOperandMasked(ip: nat, i: Instr)
    requires HasByteOperand(i)
    ensures |Encode(ip, i)| == 2 && Encode(ip, i)[1].Lit?
    ensures 0 <= Encode(ip, i)[1].value < 256
    ensures (ByteOperand(i) - Encode(ip, i)[1].value) % 256 == 0
    ensures 0 <= ByteOperand(i) < 256 ==> Encode(ip, i)[1].value == ByteOperand(i)
  {
  }

  /** MOVR8(AL, 0x1FF) encodes its immediate as 0xFF. */
  lemma MovR8Truncates(ip: nat)
    ensures Encode(ip, MovR8(AL, 0x1FF)) == [Lit(0xB0), Lit(0xFF)]
  {
    RegisterOpcodes(ip, AL, 0x1FF, Imm(0));
  }

  /** MOVR16 with a number: opcode, then the value little-endian, and those
      three bytes are its whole output whatever the labels. */
  lemma MovR16Immediate(ip: nat, r: Reg, v: int, labels: Labels)
    ensures Resolve(Encode(ip, MovR16(r, Imm(v))), labels) == Ok([0xB0 + r] + Word(v))
    ensures Decode16(Word(v)[0], Word(v)[1]) == Mask16(v)
  {
    RegisterOpcodes(ip, r, 0, Imm(v));
    var e := Encode(ip, MovR16(r, Imm(v)));
    assert e == LitCells([0xB0 + r] + Word(v));
    ResolveLiterals([0xB0 + r] + Word(v), labels);
  }

  /** JMPN to a label appends a placeholder anchored at the jump's own start. */
  lemma JmpNPlaceholder(ip: nat, name: string)
    ensures Encode(ip, JmpN(Ref(name))) == [Lit(0xEB), Rel8(ip, name)]
    ensures Advance(JmpN(Ref(name))) == 2
  {
  }

  /** On an 8086 a short jump at P with displacement byte b continues at
      P + 2 + b read as signed. With b = (A - P) & 0xFF, as the resolver
      computes it, the jump lands at A + 2, two bytes past the label. */
  lemma ShortJumpLandsPastLabel(p: int, a: int)
    requires -128 <= a - p < 128
    ensures p + 2 + Signed8(Mask8(a - p)) == a + 2
  {
    Signed8OfMask8(a - p);
  }

  // ---------------------------------------------------------------------
  // Programs

  lemma {:induction false} RunAppend(s: State, a: seq<Instr>, b: seq<Instr>)
    ensures Run(s, a + b) == Run(Run(s, a), b)
  {
    if b == [] {
      assert a + b == a;
    } else {
      assert (a + b)[..|a + b| - 1] == a + b[..|b| - 1];
      RunAppend(s, a, b[..|b| - 1]);
    }
  }

  /** One more call extends the fold by one step. */
  lemma RunSnoc(s: State, prog: seq<Instr>, i: Instr)
    ensures Run(s, prog + [i]) == Step(Run(s, prog), i)
  {
    assert (prog + [i])[..|prog|] == prog;
  }

  lemma RunOne(s: State, i: Instr)
    ensures Run(s, [i]) == Step(s, i)
  {
    assert [i][..0] == [];
  }

  /** Whatever follows an instruction, the instruction pointer ends up at
      least past it. */
  lemma RunPastInstr(s: State, pre: seq<Instr>, i: Instr, post: seq<Instr>)
    ensures Run(s, pre).ip + Advance(i) <= Run(s, pre + [i] + post).ip
  {
    RunAppend(s, pre, [i]);
    RunOne(Run(s, pre), i);
    RunAppend(s, pre + [i], post);
    RunExtends(Run(s, pre + [i]), post);
  }

  /** Splitting a program at an instruction: the part after it regrouped. */
  lemma SplitAfter(pre: seq<Instr>, i: Instr, mid: seq<Instr>, j: Instr, post: seq<Instr>)
    ensures pre + [i] + mid + [j] + post == pre + [i] + (mid + [j] + post)
  {
  }

  lemma {:induction false} SkewAppend(a: seq<Instr>, b: seq<Instr>)
    ensures Skew(a + b) == Skew(a) + Skew(b)
  {
    if b == [] {
      assert a + b == a;
    } else {
      assert (a + b)[..|a + b| - 1] == a + b[..|b| - 1];
      SkewAppend(a, b[..|b| - 1]);
    }
  }

  /** The cell sequence only grows, the instruction pointer never goes back. */
  lemma {:induction false} RunExtends(s: State, prog: seq<Instr>)
    ensures |s.cells| <= |Run(s, prog).cells| && Run(s, prog).cells[..|s.cells|] == s.cells
    ensures s.ip <= Run(s, prog).ip
  {
    if prog != [] {
      RunExtends(s, prog[..|prog| - 1]);
    }
  }

  /** Length accounting: the instruction pointer has moved by the bytes the new
      cells resolve to, plus one per CMPAX, minus each DATA's item count. */
  lemma {:induction false} RunAccounting(s: State, prog: seq<Instr>)
    ensures Run(s, prog).ip - s.ip == Width(Run(s, prog).cells) - Width(s.cells) + Skew(prog)
  {
    if prog != [] {
      var init, last := prog[..|prog| - 1], prog[|prog| - 1];
      var mid := Run(s, init);
      RunAccounting(s, init);
      WidthAppend(mid.cells, Encode(mid.ip, last));
      StepAccounting(mid.ip, last);
    }
  }

  lemma {:induction false} InSyncHasNoSkew(prog: seq<Instr>)
    requires InSyncProgram(prog)
    ensures Skew(prog) == 0
  {
    if prog != [] {
      InSyncHasNoSkew(prog[..|prog| - 1]);
    }
  }

  /** Without DATA and CMPAX the compiled image is exactly as long as the
      instruction pointer has advanced from the load offset. */
  lemma CompiledLength(prog: seq<Instr>)
    requires InSyncProgram(prog)
    requires Resolve(Run(Init(), prog).cells, Run(Init(), prog).labels).Ok?
    ensures |Resolve(Run(Init(), prog).cells, Run(Init(), prog).labels).value|
         == Run(Init(), prog).ip - LoadOffset
  {
    var fin := Run(Init(), prog);
    RunAccounting(Init(), prog);
    InSyncHasNoSkew(prog);
    ResolveLength(fin.cells, fin.labels);
  }

  /** Instructions other than a LABEL of this name leave its entry alone. */
  lemma {:induction false} RunKeepsLabel(s: State, prog: seq<Instr>, name: string)
    requires NoLabel(prog, name)
    ensures (name in Run(s, prog).labels) == (name in s.labels)
    ensures name in s.labels ==> Run(s, prog).labels[name] == s.labels[name]
  {
    if prog != [] {
      RunKeepsLabel(s, prog[..|prog| - 1], name);
    }
  }

  /** LABEL records the instruction pointer it is called at, and the last
      declaration of a name is the one that stays. */
  lemma LastLabelWins(s: State, pre: seq<Instr>, name: string, post: seq<Instr>)
    requires NoLabel(post, name)
    ensures name in Run(s, pre + [Label(name)] + post).labels
    ensures Run(s, pre + [Label(name)] + post).labels[name] == Run(s, pre).ip
  {
    RunAppend(s, pre + [Label(name)], post);
    RunAppend(s, pre, [Label(name)]);
    RunKeepsLabel(Run(s, pre + [Label(name)]), post, name);
  }

  /** Where the cells of instruction `i` land: after everything emitted before it. */
  lemma RunAppendsEncoding(s: State, pre: seq<Instr>, i: Instr, post: seq<Instr>)
    ensures PlacedAt(Run(s, pre + [i] + post).cells, Run(s, pre).cells, Encode(Run(s, pre).ip, i))
  {
    RunAppend(s, pre + [i], post);
    RunAppend(s, pre, [i]);
    RunExtends(Run(s, pre + [i]), post);
  }

  /** A short jump in an output image: 0xEB at w, then the displacement
      `(target - origin) & 0xFF`. */
  predicate ShortJumpAt(out: seq<int>, w: nat, target: int, origin: int)
  {
    w + 2 <= |out| && out[w] == 0xEB && out[w + 1] == Mask8(target - origin)
  }

  /** JMPN to a label, anywhere in a program: once the program compiles, the
      byte after the 0xEB opcode is (address of the label - the jump's start
      address) & 0xFF, with the label's final address, whether it was
      declared before the jump or after it. */
  lemma JmpNResolves(s: State, pre: seq<Instr>, name: string, post: seq<Instr>)
    requires var fin := Run(s, pre + [JmpN(Ref(name))] + post); Resolve(fin.cells, fin.labels).Ok?
    ensures var at := Run(s, pre);
            var fin := Run(s, pre + [JmpN(Ref(name))] + post);
            name in fin.labels
            && ShortJumpAt(Resolve(fin.cells, fin.labels).value, Width(at.cells), fin.labels[name], at.ip)
  {
    var at := Run(s, pre);
    var fin := Run(s, pre + [JmpN(Ref(name))] + post);
    JmpNPlaceholder(at.ip, name);
    RunAppendsEncoding(s, pre, JmpN(Ref(name)), post);
    JumpBytesAt(fin.cells, fin.labels, at.cells, at.ip, name);
  }

  /** The two bytes a resolved short jump contributes after a prefix p. */
  lemma JumpBytesAt(cells: seq<Cell>, labels: Labels, p: seq<Cell>, origin: nat, name: string)
    requires PlacedAt(cells, p, [Lit(0xEB), Rel8(origin, name)])
    requires Resolve(cells, labels).Ok?
    ensures name in labels
    ensures ShortJumpAt(Resolve(cells, labels).value, Width(p), labels[name], origin)
  {
    ResolveTwoBytesAt(cells, labels, p, Lit(0xEB), Rel8(origin, name));
    Rel8Resolves(origin, name, labels);
  }

  /** Forward reference: a jump to a label declared later in the program
      resolves to the distance from the jump's start to that declaration. */
  lemma ForwardJump(s: State, pre: seq<Instr>, name: string, mid: seq<Instr>, post: seq<Instr>)
    requires NoLabel(post, name)
    requires var fin := Run(s, pre + [JmpN(Ref(name))] + (mid + [Label(name)] + post));
             Resolve(fin.cells, fin.labels).Ok?
    ensures Run(s, pre).ip + 2 <= Run(s, pre + [JmpN(Ref(name))] + mid).ip
    ensures var fin := Run(s, pre + [JmpN(Ref(name))] + (mid + [Label(name)] + post));
            ShortJumpAt(Resolve(fin.cells, fin.labels).value, Width(Run(s, pre).cells),
                        Run(s, pre + [JmpN(Ref(name))] + mid).ip, Run(s, pre).ip)
  {
    var i := JmpN(Ref(name));
    assert Advance(i) == 2;
    RunPastInstr(s, pre, i, mid);
    JmpNResolves(s, pre, name, mid + [Label(name)] + post);
    LabelAfterJump(s, pre, i, mid, name, post);
  }

  /** The label's entry when it follows a given instruction. */
  lemma LabelAfterJump(s: State, pre: seq<Instr>, i: Instr, mid: seq<Instr>, name: string, post: seq<Instr>)
    requires NoLabel(post, name)
    ensures name in Run(s, pre + [i] + (mid + [Label(name)] + post)).labels
    ensures Run(s, pre + [i] + (mid + [Label(name)] + post)).labels[name] == Run(s, pre + [i] + mid).ip
  {
    SplitAfter(pre, i, mid, Label(name), post);
    LastLabelWins(s, pre + [i] + mid, name, post);
  }

  /** Backward reference: a jump to a label declared earlier, and not
      redeclared after it, resolves to the (negative) distance from the
      jump's start back to that declaration, masked to a byte. */
  lemma BackwardJump(s: State, pre: seq<Instr>, name: string, mid: seq<Instr>, post: seq<Instr>)
    requires NoLabel(mid + [JmpN(Ref(name))] + post, name)
    requires var fin := Run(s, pre + [Label(name)] + mid + [JmpN(Ref(name))] + post);
             Resolve(fin.cells, fin.labels).Ok?
    ensures Run(s, pre).ip <= Run(s, pre + [Label(name)] + mid).ip
    ensures var fin := Run(s, pre + [Label(name)] + mid + [JmpN(Ref(name))] + post);
            var at := Run(s, pre + [Label(name)] + mid);
            ShortJumpAt(Resolve(fin.cells, fin.labels).value, Width(at.cells), Run(s, pre).ip, at.ip)
  {
    RunPastInstr(s, pre, Label(name), mid);
    JmpNResolves(s, pre + [Label(name)] + mid, name, post);
    LabelBeforeJump(s, pre, name, mid, JmpN(Ref(name)), post);
  }

  /** The label's entry when an instruction follows it. */
  lemma LabelBeforeJump(s: State, pre: seq<Instr>, name: string, mid: seq<Instr>, i: Instr, post: seq<Instr>)
    requires NoLabel(mid + [i] + post, name)
    ensures name in Run(s, pre + [Label(name)] + mid + [i] + post).labels
    ensures Run(s, pre + [Label(name)] + mid + [i] + post).labels[name] == Run(s, pre).ip
  {
    SplitAfter(pre, Label(name), mid, i, post);
    LastLabelWins(s, pre, name, mid + [i] + post);
  }

  /** MOVR16 to a label appends the opcode and one word placeholder. */
  lemma MovR16Placeholder(ip: nat, r: Reg, name: string)
    ensures Encode(ip, MovR16(r, Ref(name))) == [Lit(0xB0 + r), AbsWord(name)]
  {
    OrLowNibble(0xB0, r);
  }

  /** An opcode and a 16-bit address in an output image: op at w, then the
      address low byte first. */
  predicate AddressAt(out: seq<int>, w: nat, op: int, address: int)
  {
    w + 3 <= |out| && out[w] == op && out[w + 1..w + 3] == Word(address)
  }

  /** MOVR16 with a label, anywhere in a program: once the program compiles,
      the opcode is followed by the label's final address, low byte first. */
  lemma MovR16Resolves(s: State, pre: seq<Instr>, r: Reg, name: string, post: seq<Instr>)
    requires var fin := Run(s, pre + [MovR16(r, Ref(name))] + post); Resolve(fin.cells, fin.labels).Ok?
    ensures var at := Run(s, pre);
            var fin := Run(s, pre + [MovR16(r, Ref(name))] + post);
            name in fin.labels
            && AddressAt(Resolve(fin.cells, fin.labels).value, Width(at.cells), 0xB0 + r, fin.labels[name])
  {
    var at := Run(s, pre);
    var fin := Run(s, pre + [MovR16(r, Ref(name))] + post);
    MovR16Placeholder(at.ip, r, name);
    RunAppendsEncoding(s, pre, MovR16(r, Ref(name)), post);
    AddressBytesAt(fin.cells, fin.labels, at.cells, 0xB0 + r, name);
  }

  /** The three bytes a resolved MOVR16 with a label contributes after a prefix p. */
  lemma AddressBytesAt(cells: seq<Cell>, labels: Labels, p: seq<Cell>, op: int, name: string)
    requires PlacedAt(cells, p, [Lit(op), AbsWord(name)])
    requires Resolve(cells, labels).Ok?
    ensures name in labels
    ensures AddressAt(Resolve(cells, labels).value, Width(p), op, labels[name])
  {
    var out := Resolve(cells, labels).value;
    var w := Width(p);
    ResolvePlaced(cells, labels, p, [Lit(op), AbsWord(name)]);
    ResolvePair(Lit(op), AbsWord(name), labels);
    WidthPair(Lit(op), AbsWord(name));
    assert out[w] == out[w..w + 3][0];
    assert out[w + 1..w + 3] == out[w..w + 3][1..];
  }

  /** A reference to a label the program never declares makes the whole
      compilation fail instead of producing bytes. */
  lemma UndeclaredLabelFails(pre: seq<Instr>, i: Instr, post: seq<Instr>, name: string)
    requires i == JmpN(Ref(name)) || (i.MovR16? && i.src == Ref(name))
    requires NoLabel(pre + [i] + post, name)
    ensures var fin := Run(Init(), pre + [i] + post); Resolve(fin.cells, fin.labels).Err?
  {
    var at := Run(Init(), pre);
    var fin := Run(Init(), pre + [i] + post);
    var e := Encode(at.ip, i);
    var j := |at.cells| + 1;
    assert j < |fin.cells| && fin.cells[j] == e[1] by {
      RunAppendsEncoding(Init(), pre, i, post);
      assert fin.cells[..|at.cells| + |e|] == at.cells + e;
      assert fin.cells[j] == fin.cells[..|at.cells| + |e|][j];
    }
    assert name !in fin.labels by {
      RunKeepsLabel(Init(), pre + [i] + post, name);
    }
    ResolveUndeclaredFails(fin.cells, fin.labels, j);
  }

  // ---------------------------------------------------------------------
  // Helper expansions

  lemma RunTwo(s: State, a: Instr, b: Instr)
    ensures Run(s, [a, b]) == Step(Step(s, a), b)
  {
    assert [a, b][..1] == [a];
    RunOne(s, a);
  }

  lemma RunThree(s: State, a: Instr, b: Instr, c: Instr)
    ensures Run(s, [a, b, c]) == Step(Step(Step(s, a), b), c)
  {
    assert [a, b, c][..2] == [a, b];
    RunTwo(s, a, b);
  }

  /** MOVR8 adds the register to 0xB0 and masks the value. */
  lemma MovR8Encoding(ip: nat, r: Reg, v: int)
    ensures Encode(ip, MovR8(r, v)) == [Lit(0xB0 + r), Lit(Mask8(v))]
  {
    OrLowNibble(0xB0, r);
  }

  /** The opcodes of `MOV AH, imm8`, `MOV AL, imm8` and `MOV DL, imm8`. */
  lemma HelperOpcodes()
    ensures 0xB0 + AH == 0xB4 && 0xB0 + AL == 0xB0 && 0xB0 + DL == 0xB2
  {
    RegisterSpaces();
  }

  /** EXIT(c) emits B4 4C B0 c&0xFF CD 21 and advances by 6. */
  lemma ExitExpansion(s: State, code: int)
    ensures Run(s, Exit(code)) == State(s.ip + 6,
      s.cells + LitCells([0xB4, 0x4C, 0xB0, Mask8(code), 0xCD, 0x21]), s.labels)
  {
    HelperOpcodes();
    MovR8Encoding(s.ip, AH, 0x4C);
    MovR8Encoding(s.ip + 2, AL, code);
    RunThree(s, MovR8(AH, 0x4C), MovR8(AL, code), Int(0x21));
    assert s.cells + [Lit(0xB4), Lit(0x4C)] + [Lit(0xB0), Lit(Mask8(code))] + [Lit(0xCD), Lit(0x21)]
        == s.cells + LitCells([0xB4, 0x4C, 0xB0, Mask8(code), 0xCD, 0x21]);
  }

  /** PRINTCH(v) emits B4 02 B2 v&0xFF CD 21 and advances by 6. */
  lemma PrintChExpansion(s: State, value: int)
    ensures Run(s, PrintCh(value)) == State(s.ip + 6,
      s.cells + LitCells([0xB4, 0x02, 0xB2, Mask8(value), 0xCD, 0x21]), s.labels)
  {
    HelperOpcodes();
    MovR8Encoding(s.ip, AH, 0x02);
    MovR8Encoding(s.ip + 2, DL, value);
    RunThree(s, MovR8(AH, 0x02), MovR8(DL, value), Int(0x21));
    assert s.cells + [Lit(0xB4), Lit(0x02)] + [Lit(0xB2), Lit(Mask8(value))] + [Lit(0xCD), Lit(0x21)]
        == s.cells + LitCells([0xB4, 0x02, 0xB2, Mask8(value), 0xCD, 0x21]);
  }

  /** INPUTCH emits B4 01 CD 21 and advances by 4. */
  lemma InputChExpansion(s: State)
    ensures Run(s, InputCh()) == State(s.ip + 4, s.cells + LitCells([0xB4, 0x01, 0xCD, 0x21]), s.labels)
  {
    HelperOpcodes();
    MovR8Encoding(s.ip, AH, 0x01);
    RunTwo(s, MovR8(AH, 0x01), Int(0x21));
    assert s.cells + [Lit(0xB4), Lit(0x01)] + [Lit(0xCD), Lit(0x21)]
        == s.cells + LitCells([0xB4, 0x01, 0xCD, 0x21]);
  }
}
