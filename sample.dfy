/** The sample program of the repository (sample.py), assembled with `Asm`:
    it prints 'A', jumps over an EXIT to the label START, prints 'B', prints
    the string at the label DATA through DOS function 09h and exits. */
module Sample {
  import opened Registers
  import opened Cells
  import opened Emitter
  import opened Assembler

  /** The label table the sample program ends with. */
  const SampleLabels: Labels := map["START" := 0x10E, "DATA" := 0x121]

  /** The string the program prints, "\r\nHello World!" and DOS's '$' terminator. */
  const Message: seq<int> := [0x0D, 0x0A, 0x48, 0x65, 0x6C, 0x6C, 0x6F, 0x20,
                              0x57, 0x6F, 0x72, 0x6C, 0x64, 0x21, 0x24]

  /** The image sample.py writes to test.com, one group of bytes per call:
      the short jump skips the six bytes of the first EXIT, and MOV DX
      points at the message. */
  method AssembleSample() returns (image: Result<seq<int>>)
    ensures image == Ok([0xB4, 0x02, 0xB2, 0x41, 0xCD, 0x21]
                        + [0xEB, 0x08]
                        + [0xB4, 0x4C, 0xB0, 0x00, 0xCD, 0x21]
                        + [0xB4, 0x02, 0xB2, 0x42, 0xCD, 0x21]
                        + [0xB4, 0x09]
                        + [0xBA, 0x21, 0x01]
                        + [0xCD, 0x21]
                        + [0xB4, 0x4C, 0xB0, 0x00, 0xCD, 0x21]
                        + Message)
  {
    var asm := new Asm();
    ghost var out := [0xB4, 0x02, 0xB2, 0x41, 0xCD, 0x21]
                     + [0xEB, 0x08]
                     + [0xB4, 0x4C, 0xB0, 0x00, 0xCD, 0x21];
    FirstLines(asm);
    MiddleLines(asm, out);
    out := out + [0xB4, 0x02, 0xB2, 0x42, 0xCD, 0x21] + [0xB4, 0x09] + [0xBA, 0x21, 0x01] + [0xCD, 0x21];
    LastLines(asm, out);
    image := asm.Compile();
  }

  /** sample.py lines 7-10: print 'A', jump to START, EXIT, START. */
  method FirstLines(asm: Asm)
    requires asm.Valid() && asm.IP == 0x100 && asm.bytecode == [] && asm.labels == map[]
    modifies asm
    ensures asm.Valid() && asm.IP == 0x10E && asm.labels == map["START" := 0x10E]
    ensures Resolve(asm.bytecode, SampleLabels)
         == Ok([0xB4, 0x02, 0xB2, 0x41, 0xCD, 0x21] + [0xEB, 0x08] + [0xB4, 0x4C, 0xB0, 0x00, 0xCD, 0x21])
  {
    var out: seq<int> := [0xB4, 0x02, 0xB2, 0x41, 0xCD, 0x21];
    asm.PRINTCH(0x41);
    assert Resolve(asm.bytecode, SampleLabels) == Ok(out) by {
      assert [0xB4, 0x02, 0xB2, Encoding.Mask8(0x41), 0xCD, 0x21] == out;
      assert asm.bytecode == LitCells(out);
      ResolveLiterals(out, SampleLabels);
    }
    var b := asm.bytecode;
    asm.JMPN(Ref("START"));
    ExtendJump(b, asm.bytecode, 0x106, "START", SampleLabels, out);
    b, out := asm.bytecode, out + [0xEB, 0x08];
    asm.EXIT();
    assert [0xB4, 0x4C, 0xB0, Encoding.Mask8(0), 0xCD, 0x21] == [0xB4, 0x4C, 0xB0, 0x00, 0xCD, 0x21];
    ExtendLit(b, asm.bytecode, [0xB4, 0x4C, 0xB0, 0x00, 0xCD, 0x21], SampleLabels, out);
    asm.LABEL("START");
  }

  /** sample.py lines 11-14: print 'B', point DX at DATA, DOS function 09h. */
  method MiddleLines(asm: Asm, ghost acc: seq<int>)
    requires asm.Valid() && asm.IP == 0x10E && asm.labels == map["START" := 0x10E]
    requires Resolve(asm.bytecode, SampleLabels) == Ok(acc)
    modifies asm
    ensures asm.Valid() && asm.IP == 0x11B && asm.labels == map["START" := 0x10E]
    ensures Resolve(asm.bytecode, SampleLabels)
         == Ok(acc + [0xB4, 0x02, 0xB2, 0x42, 0xCD, 0x21] + [0xB4, 0x09] + [0xBA, 0x21, 0x01] + [0xCD, 0x21])
  {
    var b, out := asm.bytecode, acc;
    asm.PRINTCH(0x42);
    assert [0xB4, 0x02, 0xB2, Encoding.Mask8(0x42), 0xCD, 0x21] == [0xB4, 0x02, 0xB2, 0x42, 0xCD, 0x21];
    ExtendLit(b, asm.bytecode, [0xB4, 0x02, 0xB2, 0x42, 0xCD, 0x21], SampleLabels, out);
    b, out := asm.bytecode, out + [0xB4, 0x02, 0xB2, 0x42, 0xCD, 0x21];
    asm.MOVR8(AH, 0x09);
    assert 0xB0 + AH == 0xB4 && Encoding.Mask8(0x09) == 0x09 by {
      RegisterSpaces();
    }
    ExtendPair(b, asm.bytecode, 0xB4, 0x09, SampleLabels, out);
    b, out := asm.bytecode, out + [0xB4, 0x09];
    asm.MOVR16(DX, Ref("DATA"));
    DataAddress();
    ExtendAddress(b, asm.bytecode, 0xBA, "DATA", SampleLabels, out, 0x21, 0x01);
    b, out := asm.bytecode, out + [0xBA, 0x21, 0x01];
    asm.INT(0x21);
    assert Encoding.Mask8(0x21) == 0x21;
    ExtendPair(b, asm.bytecode, 0xCD, 0x21, SampleLabels, out);
  }

  /** sample.py lines 15-17: EXIT, the label DATA and the message. */
  method LastLines(asm: Asm, ghost acc: seq<int>)
    requires asm.Valid() && asm.IP == 0x11B && asm.labels == map["START" := 0x10E]
    requires Resolve(asm.bytecode, SampleLabels) == Ok(acc)
    modifies asm
    ensures asm.Valid() && asm.labels == SampleLabels
    ensures Resolve(asm.bytecode, SampleLabels) == Ok(acc + [0xB4, 0x4C, 0xB0, 0x00, 0xCD, 0x21] + Message)
  {
    var b, out := asm.bytecode, acc;
    asm.EXIT();
    assert [0xB4, 0x4C, 0xB0, Encoding.Mask8(0), 0xCD, 0x21] == [0xB4, 0x4C, 0xB0, 0x00, 0xCD, 0x21];
    ExtendLit(b, asm.bytecode, [0xB4, 0x4C, 0xB0, 0x00, 0xCD, 0x21], SampleLabels, out);
    b, out := asm.bytecode, out + [0xB4, 0x4C, 0xB0, 0x00, 0xCD, 0x21];
    asm.LABEL("DATA");
    asm.DATA(Message);
    ExtendLit(b, asm.bytecode, Message, SampleLabels, out);
  }

  lemma DataAddress()
    ensures Encoding.Word(0x121) == [0x21, 0x01]
  {
    Encoding.DivModUnique(0x121, 256, 1, 0x21);
    Encoding.DivModUnique(1, 256, 0, 1);
  }

  /** Appending literal cells appends their values to the image. */
  lemma ExtendLit(a: seq<Cell>, a': seq<Cell>, vs: seq<int>, labels: Labels, acc: seq<int>)
    requires a' == a + LitCells(vs)
    requires Resolve(a, labels) == Ok(acc)
    ensures Resolve(a', labels) == Ok(acc + vs)
  {
    ResolveAppend(a, LitCells(vs), labels);
    ResolveLiterals(vs, labels);
  }

  /** Appending two cells appends what each resolves to. */
  lemma ExtendTwo(a: seq<Cell>, c1: Cell, c2: Cell, labels: Labels, acc: seq<int>, v1: seq<int>, v2: seq<int>)
    requires Resolve(a, labels) == Ok(acc)
    requires ResolveCell(c1, labels) == Ok(v1) && ResolveCell(c2, labels) == Ok(v2)
    ensures Resolve(a + [c1, c2], labels) == Ok(acc + v1 + v2)
  {
    assert (a + [c1, c2])[..|a| + 1] == a + [c1];
    assert (a + [c1])[..|a|] == a;
  }

  lemma ExtendPair(a: seq<Cell>, a': seq<Cell>, x: int, y: int, labels: Labels, acc: seq<int>)
    requires a' == a + [Lit(x), Lit(y)]
    requires Resolve(a, labels) == Ok(acc)
    ensures Resolve(a', labels) == Ok(acc + [x, y])
  {
    ExtendTwo(a, Lit(x), Lit(y), labels, acc, [x], [y]);
    assert acc + [x] + [y] == acc + [x, y];
  }

  lemma ExtendJump(a: seq<Cell>, a': seq<Cell>, origin: nat, name: string, labels: Labels, acc: seq<int>)
    requires a' == a + [Lit(0xEB), Rel8(origin, name)]
    requires name in labels
    requires Resolve(a, labels) == Ok(acc)
    ensures Resolve(a', labels) == Ok(acc + [0xEB, Encoding.Mask8(labels[name] - origin)])
  {
    var m := Encoding.Mask8(labels[name] - origin);
    Rel8Resolves(origin, name, labels);
    ExtendTwo(a, Lit(0xEB), Rel8(origin, name), labels, acc, [0xEB], [m]);
    assert acc + [0xEB] + [m] == acc + [0xEB, m];
  }

  lemma ExtendAddress(a: seq<Cell>, a': seq<Cell>, op: int, name: string, labels: Labels, acc: seq<int>,
                      lo: int, hi: int)
    requires a' == a + [Lit(op)] + [AbsWord(name)]
    requires name in labels && Encoding.Word(labels[name]) == [lo, hi]
    requires Resolve(a, labels) == Ok(acc)
    ensures Resolve(a', labels) == Ok(acc + [op, lo, hi])
  {
    assert a' == a + [Lit(op), AbsWord(name)];
    ExtendTwo(a, Lit(op), AbsWord(name), labels, acc, [op], [lo, hi]);
    assert acc + [op] + [lo, hi] == acc + [op, lo, hi];
  }
}
