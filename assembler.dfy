/** The `Asm` class of asm8086.py: pass 1 is the instruction methods, which
    append cells to `bytecode` and move `IP`; pass 2 is `Compile`, which
    resolves the cells against `labels` into the output image.

    Every method is specified by the functions of Emitter: the object's
    fields are always `Run(Init(), history)`, where the ghost field
    `history` is the sequence of instruction calls made so far. So every
    lemma proved there about programs holds of a real object's state. */
module Assembler {
  import opened Encoding
  import opened Registers
  import opened Cells
  import opened Emitter

  class Asm {
    var IP: nat
    var bytecode: seq<Cell>
    var labels: Labels

    /** The instruction calls made on this object, in order. */
    ghost var history: seq<Instr>

    /** The three fields as one value. */
    function Snapshot(): State
      reads this
    {
      State(IP, bytecode, labels)
    }

    /** The fields are what the calls made so far compute from a new assembler. */
    ghost predicate Valid()
      reads this
    {
      Snapshot() == Run(Init(), history)
    }

    constructor()
      ensures Valid() && history == []
      ensures IP == LoadOffset && bytecode == [] && labels == map[]
    {
      IP := 0x100;
      bytecode := [];
      labels := map[];
      history := [];
    }

    /** Records one more call, given that the fields took the step it makes. */
    ghost method Record(i: Instr, before: State)
      requires before == Run(Init(), history)
      requires Snapshot() == Step(before, i)
      modifies this
      ensures Valid() && history == old(history) + [i]
      ensures Snapshot() == old(Snapshot())
    {
      RunSnoc(Init(), history, i);
      history := history + [i];
    }

    // -------------------------------------------------------------------
    // Instructions

    method NOP()
      requires Valid()
      modifies this
      ensures Valid() && history == old(history) + [Nop]
      ensures IP == old(IP) + 1 && labels == old(labels)
      ensures bytecode == old(bytecode) + [Lit(0x90)]
    {
      ghost var before := Snapshot();
      bytecode := bytecode + [Lit(0x90)];
      IP := IP + 1;
      Record(Nop, before);
    }

    method INT(v: int)
      requires Valid()
      modifies this
      ensures Valid() && history == old(history) + [Int(v)]
      ensures IP == old(IP) + 2 && labels == old(labels)
      ensures bytecode == old(bytecode) + [Lit(0xCD), Lit(Mask8(v))]
    {
      ghost var before := Snapshot();
      bytecode := bytecode + [Lit(0xCD), Lit(Mask8(v))];
      IP := IP + 2;
      Record(Int(v), before);
    }

    method MOVR8(r: Reg, v: int)
      requires Valid()
      modifies this
      ensures Valid() && history == old(history) + [MovR8(r, v)]
      ensures IP == old(IP) + 2 && labels == old(labels)
      ensures bytecode == old(bytecode) + [Lit(0xB0 + r), Lit(Mask8(v))]
    {
      RegisterOpcodes(IP, r, v, Imm(0));
      ghost var before := Snapshot();
      bytecode := bytecode + [Lit(BitOr(0xB0, r)), Lit(Mask8(v))];
      IP := IP + 2;
      Record(MovR8(r, v), before);
    }

    /** A number is appended as its two bytes, a label name as one placeholder. */
    method MOVR16(r: Reg, src: Operand)
      requires Valid()
      modifies this
      ensures Valid() && history == old(history) + [MovR16(r, src)]
      ensures IP == old(IP) + 3 && labels == old(labels)
      ensures bytecode == old(bytecode) + [Lit(0xB0 + r)]
                          + (if src.Imm? then LitCells(Word(src.value)) else [AbsWord(src.name)])
    {
      RegisterOpcodes(IP, r, 0, src);
      ghost var before := Snapshot();
      bytecode := bytecode + [Lit(BitOr(0xB0, r))];
      match src {
        case Imm(v) =>
          bytecode := bytecode + [Lit(Mask8(v)), Lit(HighByte(v))];
        case Ref(l) =>
          bytecode := bytecode + [AbsWord(l)];
      }
      IP := IP + 3;
      Record(MovR16(r, src), before);
    }

    method INC(r: Reg)
      requires Valid()
      modifies this
      ensures Valid() && history == old(history) + [Inc(r)]
      ensures IP == old(IP) + 1 && labels == old(labels)
      ensures bytecode == old(bytecode) + [Lit(0x40)]
    {
      RegisterOpcodes(IP, r, 0, Imm(0));
      ghost var before := Snapshot();
      bytecode := bytecode + [Lit(BitOr(0x40, r / 16))];
      IP := IP + 1;
      Record(Inc(r), before);
    }

    method DEC(r: Reg)
      requires Valid()
      modifies this
      ensures Valid() && history == old(history) + [Dec(r)]
      ensures IP == old(IP) + 1 && labels == old(labels)
      ensures bytecode == old(bytecode) + [Lit(0x40 + r)]
    {
      RegisterOpcodes(IP, r, 0, Imm(0));
      ghost var before := Snapshot();
      bytecode := bytecode + [Lit(BitOr(0x40, r))];
      IP := IP + 1;
      Record(Dec(r), before);
    }

    method POP(r: Reg)
      requires Valid()
      modifies this
      ensures Valid() && history == old(history) + [Pop(r)]
      ensures IP == old(IP) + 1 && labels == old(labels)
      ensures bytecode == old(bytecode) + [Lit(0x50 + r)]
    {
      RegisterOpcodes(IP, r, 0, Imm(0));
      ghost var before := Snapshot();
      bytecode := bytecode + [Lit(BitOr(0x50, r))];
      IP := IP + 1;
      Record(Pop(r), before);
    }

    method PUSH(r: Reg)
      requires Valid()
      modifies this
      ensures Valid() && history == old(history) + [Push(r)]
      ensures IP == old(IP) + 1 && labels == old(labels)
      ensures bytecode == old(bytecode) + [Lit(0x50)]
    {
      RegisterOpcodes(IP, r, 0, Imm(0));
      ghost var before := Snapshot();
      bytecode := bytecode + [Lit(BitOr(0x50, r / 16))];
      IP := IP + 1;
      Record(Push(r), before);
    }

    /** A label target becomes a placeholder anchored at the jump's own address. */
    method JMPN(target: Operand)
      requires Valid()
      modifies this
      ensures Valid() && history == old(history) + [JmpN(target)]
      ensures IP == old(IP) + 2 && labels == old(labels)
      ensures bytecode == old(bytecode)
                          + [Lit(0xEB), if target.Ref? then Rel8(old(IP), target.name) else Lit(Mask8(target.value))]
    {
      ghost var before := Snapshot();
      bytecode := bytecode + [Lit(0xEB)];
      match target {
        case Ref(l) =>
          bytecode := bytecode + [Rel8(IP, l)];
        case Imm(d) =>
          bytecode := bytecode + [Lit(Mask8(d))];
      }
      IP := IP + 2;
      Record(JmpN(target), before);
    }

    method CMPAL(v: int)
      requires Valid()
      modifies this
      ensures Valid() && history == old(history) + [CmpAl(v)]
      ensures IP == old(IP) + 2 && labels == old(labels)
      ensures bytecode == old(bytecode) + [Lit(0x3C), Lit(Mask8(v))]
    {
      ghost var before := Snapshot();
      bytecode := bytecode + [Lit(0x3C), Lit(Mask8(v))];
      IP := IP + 2;
      Record(CmpAl(v), before);
    }

    /** Appends the opcode and one unsplit 16-bit cell, and advances by 3. */
    method CMPAX(v: int)
      requires Valid()
      modifies this
      ensures Valid() && history == old(history) + [CmpAx(v)]
      ensures IP == old(IP) + 3 && labels == old(labels)
      ensures bytecode == old(bytecode) + [Lit(0x3D), Lit(Mask16(v))]
    {
      ghost var before := Snapshot();
      bytecode := bytecode + [Lit(0x3D), Lit(Mask16(v))];
      IP := IP + 3;
      Record(CmpAx(v), before);
    }

    method JZ(d: int)
      requires Valid()
      modifies this
      ensures Valid() && history == old(history) + [Jz(d)]
      ensures IP == old(IP) + 2 && labels == old(labels)
      ensures bytecode == old(bytecode) + [Lit(0x74), Lit(Mask8(d))]
    {
      ghost var before := Snapshot();
      bytecode := bytecode + [Lit(0x74), Lit(Mask8(d))];
      IP := IP + 2;
      Record(Jz(d), before);
    }

    method JNZ(d: int)
      requires Valid()
      modifies this
      ensures Valid() && history == old(history) + [Jnz(d)]
      ensures IP == old(IP) + 2 && labels == old(labels)
      ensures bytecode == old(bytecode) + [Lit(0x75), Lit(Mask8(d))]
    {
      ghost var before := Snapshot();
      bytecode := bytecode + [Lit(0x75), Lit(Mask8(d))];
      IP := IP + 2;
      Record(Jnz(d), before);
    }

    method JL(d: int)
      requires Valid()
      modifies this
      ensures Valid() && history == old(history) + [Jl(d)]
      ensures IP == old(IP) + 2 && labels == old(labels)
      ensures bytecode == old(bytecode) + [Lit(0x7C), Lit(Mask8(d))]
    {
      ghost var before := Snapshot();
      bytecode := bytecode + [Lit(0x7C), Lit(Mask8(d))];
      IP := IP + 2;
      Record(Jl(d), before);
    }

    method JGE(d: int)
      requires Valid()
      modifies this
      ensures Valid() && history == old(history) + [Jge(d)]
      ensures IP == old(IP) + 2 && labels == old(labels)
      ensures bytecode == old(bytecode) + [Lit(0x7D), Lit(Mask8(d))]
    {
      ghost var before := Snapshot();
      bytecode := bytecode + [Lit(0x7D), Lit(Mask8(d))];
      IP := IP + 2;
      Record(Jge(d), before);
    }

    method JLE(d: int)
      requires Valid()
      modifies this
      ensures Valid() && history == old(history) + [Jle(d)]
      ensures IP == old(IP) + 2 && labels == old(labels)
      ensures bytecode == old(bytecode) + [Lit(0x7E), Lit(Mask8(d))]
    {
      ghost var before := Snapshot();
      bytecode := bytecode + [Lit(0x7E), Lit(Mask8(d))];
      IP := IP + 2;
      Record(Jle(d), before);
    }

    method JG(d: int)
      requires Valid()
      modifies this
      ensures Valid() && history == old(history) + [Jg(d)]
      ensures IP == old(IP) + 2 && labels == old(labels)
      ensures bytecode == old(bytecode) + [Lit(0x7F), Lit(Mask8(d))]
    {
      ghost var before := Snapshot();
      bytecode := bytecode + [Lit(0x7F), Lit(Mask8(d))];
      IP := IP + 2;
      Record(Jg(d), before);
    }

    /** JE is JZ under another name. */
    method JE(d: int)
      requires Valid()
      modifies this
      ensures Valid() && history == old(history) + [Jz(d)]
      ensures IP == old(IP) + 2 && labels == old(labels)
      ensures bytecode == old(bytecode) + [Lit(0x74), Lit(Mask8(d))]
    {
      JZ(d);
    }

    /** JNE is JNZ under another name. */
    method JNE(d: int)
      requires Valid()
      modifies this
      ensures Valid() && history == old(history) + [Jnz(d)]
      ensures IP == old(IP) + 2 && labels == old(labels)
      ensures bytecode == old(bytecode) + [Lit(0x75), Lit(Mask8(d))]
    {
      JNZ(d);
    }

    // -------------------------------------------------------------------
    // Labels and data

    /** Binds the name to the current instruction pointer, replacing any earlier binding. */
    method LABEL(name: string)
      requires Valid()
      modifies this
      ensures Valid() && history == old(history) + [Label(name)]
      ensures IP == old(IP) && bytecode == old(bytecode)
      ensures labels == old(labels)[name := old(IP)]
    {
      ghost var before := Snapshot();
      labels := labels[name := IP];
      Record(Label(name), before);
    }

    /** Appends the items unmasked; the instruction pointer stays where it is. */
    method DATA(items: seq<int>)
      requires Valid()
      modifies this
      ensures Valid() && history == old(history) + [Data(items)]
      ensures IP == old(IP) && labels == old(labels)
      ensures bytecode == old(bytecode) + LitCells(items)
    {
      ghost var before := Snapshot();
      bytecode := bytecode + LitCells(items);
      Record(Data(items), before);
    }

    // -------------------------------------------------------------------
    // Helper calls

    /** DOS function 01h: read one character. */
    method INPUTCH()
      requires Valid()
      modifies this
      ensures Valid() && history == old(history) + InputCh()
      ensures IP == old(IP) + 4 && labels == old(labels)
      ensures bytecode == old(bytecode) + LitCells([0xB4, 0x01, 0xCD, 0x21])
    {
      ghost var s := Snapshot();
      MOVR8(AH, 0x01);
      INT(0x21);
      RunTwo(s, MovR8(AH, 0x01), Int(0x21));
      InputChExpansion(s);
    }

    /** DOS function 02h: print the character `value`. */
    method PRINTCH(value: int)
      requires Valid()
      modifies this
      ensures Valid() && history == old(history) + PrintCh(value)
      ensures IP == old(IP) + 6 && labels == old(labels)
      ensures bytecode == old(bytecode) + LitCells([0xB4, 0x02, 0xB2, Mask8(value), 0xCD, 0x21])
    {
      ghost var s := Snapshot();
      MOVR8(AH, 0x02);
      MOVR8(DL, value);
      INT(0x21);
      RunThree(s, MovR8(AH, 0x02), MovR8(DL, value), Int(0x21));
      PrintChExpansion(s, value);
    }

    /** DOS function 4Ch: end the program with exit code `code`. */
    method EXIT(code: int := 0)
      requires Valid()
      modifies this
      ensures Valid() && history == old(history) + Exit(code)
      ensures IP == old(IP) + 6 && labels == old(labels)
      ensures bytecode == old(bytecode) + LitCells([0xB4, 0x4C, 0xB0, Mask8(code), 0xCD, 0x21])
    {
      ghost var s := Snapshot();
      MOVR8(AH, 0x4C);
      MOVR8(AL, code);
      INT(0x21);
      RunThree(s, MovR8(AH, 0x4C), MovR8(AL, code), Int(0x21));
      ExitExpansion(s, code);
    }

    // -------------------------------------------------------------------
    // Compiler

    method GetBytecode() returns (cells: seq<Cell>)
      ensures cells == bytecode
    {
      cells := bytecode;
    }

    /** Pass 2: walks the cells once, substituting each placeholder by the
        label's address (AbsWord) or its distance from the anchor (Rel8).
        A placeholder whose label was never declared stops the walk. */
    method Compile() returns (r: Result<seq<int>>)
      ensures r == Resolve(bytecode, labels)
      ensures r.Err? ==> exists k :: 0 <= k < |bytecode| && !Declared(bytecode[k], labels)
    {
      var result: seq<int> := [];
      var i := 0;
      while i < |bytecode|
        invariant 0 <= i <= |bytecode|
        invariant Resolve(bytecode[..i], labels) == Ok(result)
      {
        var cell := bytecode[i];
        assert bytecode[..i + 1][..i] == bytecode[..i];
        match cell {
          case Lit(v) =>
            result := result + [v];
          case AbsWord(l) =>
            if l !in labels {
              ResolvePrefixErr(bytecode, labels, i + 1);
              return Err(UnresolvedLabel(l));
            }
            result := result + Word(labels[l]);
          case Rel8(o, l) =>
            if l !in labels {
              ResolvePrefixErr(bytecode, labels, i + 1);
              return Err(UnresolvedLabel(l));
            }
            result := result + [Mask8(labels[l] - o)];
        }
        i := i + 1;
      }
      assert bytecode[..i] == bytecode;
      return Ok(result);
    }
  }
}
