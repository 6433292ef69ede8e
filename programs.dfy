/** Properties of whole programs as `compile` sees them: when a program
    compiles at all, and when the image it compiles to is a byte string. */
module Programs {
  import opened Encoding
  import opened Registers
  import opened Cells
  import opened Emitter

  /** A JMPN or MOVR16 call naming a label. */
  predicate HasRef(i: Instr)
  {
    (i.JmpN? && i.target.Ref?) || (i.MovR16? && i.src.Ref?)
  }

  function RefOf(i: Instr): string
    requires HasRef(i)
  {
    if i.JmpN? then i.target.name else i.src.name
  }

  function RefsOf(i: Instr): set<string>
  {
    if HasRef(i) then {RefOf(i)} else {}
  }

  /** The label names a program refers to. */
  function Refs(prog: seq<Instr>): set<string>
  {
    if prog == [] then {} else Refs(prog[..|prog| - 1]) + RefsOf(prog[|prog| - 1])
  }

  function DeclarationsOf(i: Instr): set<string>
  {
    if i.Label? then {i.name} else {}
  }

  /** The label names a program declares with LABEL. */
  function Declarations(prog: seq<Instr>): set<string>
  {
    if prog == [] then {} else Declarations(prog[..|prog| - 1]) + DeclarationsOf(prog[|prog| - 1])
  }

  /** The only placeholders an instruction appends name the label it refers to. */
  lemma EncodePlaceholders(ip: nat, i: Instr)
    ensures forall j :: 0 <= j < |Encode(ip, i)| && !Encode(ip, i)[j].Lit?
              ==> HasRef(i) && Encode(ip, i)[j].name == RefOf(i)
  {
    var e := Encode(ip, i);
    match i
    case MovR16(r, src) =>
      if src.Imm? {
        assert forall j :: 1 <= j < |e| ==> e[j] == LitCells(Word(src.value))[j - 1];
      }
    case _ =>
  }

  /** An instruction that refers to a label appends a placeholder for it as its second cell. */
  lemma RefPlaceholder(ip: nat, i: Instr)
    requires HasRef(i)
    ensures |Encode(ip, i)| >= 2 && !Encode(ip, i)[1].Lit? && Encode(ip, i)[1].name == RefOf(i)
  {
  }

  /** Every placeholder among the cells names one of the names. */
  predicate PlaceholdersIn(cells: seq<Cell>, names: set<string>)
  {
    forall c :: 0 <= c < |cells| && !cells[c].Lit? ==> cells[c].name in names
  }

  /** Every placeholder in the emitted cells names a label the program refers to. */
  lemma {:induction false} PlaceholdersReferenced(prog: seq<Instr>)
    ensures PlaceholdersIn(Run(Init(), prog).cells, Refs(prog))
  {
    if prog != [] {
      var init, last := prog[..|prog| - 1], prog[|prog| - 1];
      PlaceholdersReferenced(init);
      var mid := Run(Init(), init);
      assert PlaceholdersIn(mid.cells, Refs(init));
      var e := Encode(mid.ip, last);
      EncodePlaceholders(mid.ip, last);
      var cells := mid.cells + e;
      assert Run(Init(), prog).cells == cells;
      assert Refs(prog) == Refs(init) + RefsOf(last);
      forall c | 0 <= c < |cells| && !cells[c].Lit?
        ensures cells[c].name in Refs(prog)
      {
        if c < |mid.cells| {
          assert cells[c] == mid.cells[c];
          assert mid.cells[c].name in Refs(init);
        } else {
          var j := c - |mid.cells|;
          assert cells[c] == e[j];
          assert HasRef(last) && e[j].name == RefOf(last);
          assert RefOf(last) in RefsOf(last);
        }
      }
    }
  }

  /** Every label a program refers to has a placeholder among the emitted cells. */
  lemma {:induction false} ReferencesPlaced(prog: seq<Instr>)
    ensures var cells := Run(Init(), prog).cells;
            forall name :: name in Refs(prog) ==>
              exists c :: 0 <= c < |cells| && !cells[c].Lit? && cells[c].name == name
  {
    if prog != [] {
      var init, last := prog[..|prog| - 1], prog[|prog| - 1];
      ReferencesPlaced(init);
      var mid := Run(Init(), init);
      var e := Encode(mid.ip, last);
      var cells := mid.cells + e;
      assert Run(Init(), prog).cells == cells;
      forall name | name in Refs(prog)
        ensures exists c :: 0 <= c < |cells| && !cells[c].Lit? && cells[c].name == name
      {
        if name in Refs(init) {
          var c :| 0 <= c < |mid.cells| && !mid.cells[c].Lit? && mid.cells[c].name == name;
          assert cells[c] == mid.cells[c];
        } else {
          RefPlaceholder(mid.ip, last);
          assert cells[|mid.cells| + 1] == e[1];
        }
      }
    }
  }

  /** The label table holds exactly the names declared so far. */
  lemma {:induction false} LabelKeys(s: State, prog: seq<Instr>)
    ensures Run(s, prog).labels.Keys == s.labels.Keys + Declarations(prog)
  {
    if prog != [] {
      LabelKeys(s, prog[..|prog| - 1]);
    }
  }

  /** A program compiles if and only if every label it refers to is declared
      somewhere in it, before or after the reference. */
  lemma ProgramCompilesIffDeclared(prog: seq<Instr>)
    ensures var fin := Run(Init(), prog);
            Resolve(fin.cells, fin.labels).Ok? <==> Refs(prog) <= Declarations(prog)
  {
    var fin := Run(Init(), prog);
    LabelKeys(Init(), prog);
    assert fin.labels.Keys == Declarations(prog);
    PlaceholdersReferenced(prog);
    assert PlaceholdersIn(fin.cells, Refs(prog));
    ReferencesPlaced(prog);
    ResolveOkIffDeclared(fin.cells, fin.labels);
    if Refs(prog) <= Declarations(prog) {
      assert forall c :: 0 <= c < |fin.cells| ==> Declared(fin.cells[c], fin.labels);
    } else {
      var name :| name in Refs(prog) && name !in Declarations(prog);
      var c :| 0 <= c < |fin.cells| && !fin.cells[c].Lit? && fin.cells[c].name == name;
      assert !Declared(fin.cells[c], fin.labels);
    }
  }

  /** A forward reference compiles: a jump over one NOP to a label declared
      after it assembles to EB 03 90, the distance counted from the jump's start. */
  lemma ForwardReferenceCompiles()
    ensures var fin := Run(Init(), [JmpN(Ref("L")), Nop, Label("L")]);
            fin.labels == map["L" := 0x103]
            && Resolve(fin.cells, fin.labels) == Ok([0xEB, 0x03, 0x90])
  {
    var prog := [JmpN(Ref("L")), Nop, Label("L")];
    RunThree(Init(), JmpN(Ref("L")), Nop, Label("L"));
    var fin := Run(Init(), prog);
    var jump := [Lit(0xEB), Rel8(0x100, "L")];
    assert fin.cells == jump + [Lit(0x90)];
    assert Mask8(0x103 - 0x100) == 0x03;
    assert fin.labels == map["L" := 0x103];
    ResolvePair(Lit(0xEB), Rel8(0x100, "L"), fin.labels);
    Rel8Resolves(0x100, "L", fin.labels);
    assert [0xEB] + [0x03] == [0xEB, 0x03];
    assert Resolve(jump, fin.labels) == Ok([0xEB, 0x03]);
    assert [0xEB, 0x03] + [0x90] == [0xEB, 0x03, 0x90];
    assert (jump + [Lit(0x90)])[..2] == jump;
  }

  // ---------------------------------------------------------------------
  // Byte range of the image

  /** Without CMPAX and DATA every literal an instruction appends is a byte. */
  lemma EncodeBytes(ip: nat, i: Instr)
    requires !i.CmpAx? && !i.Data?
    ensures ByteCells(Encode(ip, i))
  {
    var e := Encode(ip, i);
    match i
    case MovR8(r, v) => RegisterOpcodes(ip, r, v, Imm(0));
    case MovR16(r, src) =>
      RegisterOpcodes(ip, r, 0, src);
      if src.Imm? {
        assert forall j :: 1 <= j < |e| ==> e[j] == LitCells(Word(src.value))[j - 1];
      }
    case Inc(r) => RegisterOpcodes(ip, r, 0, Imm(0));
    case Dec(r) => RegisterOpcodes(ip, r, 0, Imm(0));
    case Pop(r) => RegisterOpcodes(ip, r, 0, Imm(0));
    case Push(r) => RegisterOpcodes(ip, r, 0, Imm(0));
    case _ =>
  }

  lemma {:induction false} RunBytes(prog: seq<Instr>)
    requires InSyncProgram(prog)
    ensures ByteCells(Run(Init(), prog).cells)
  {
    if prog != [] {
      var init, last := prog[..|prog| - 1], prog[|prog| - 1];
      assert InSyncProgram(init) by {
        assert forall k :: 0 <= k < |init| ==> init[k] == prog[k];
      }
      RunBytes(init);
      var mid := Run(Init(), init);
      var e := Encode(mid.ip, last);
      EncodeBytes(mid.ip, last);
      var cells := mid.cells + e;
      assert Run(Init(), prog).cells == cells;
      forall k | 0 <= k < |cells| && cells[k].Lit?
        ensures 0 <= cells[k].value < 256
      {
        if k < |mid.cells| {
          assert cells[k] == mid.cells[k];
        } else {
          assert cells[k] == e[k - |mid.cells|];
        }
      }
    }
  }

  /** A program without CMPAX and DATA that compiles yields a byte string,
      ready for `bytes()`. */
  lemma InSyncOutputIsBytes(prog: seq<Instr>)
    requires InSyncProgram(prog)
    requires Resolve(Run(Init(), prog).cells, Run(Init(), prog).labels).Ok?
    ensures IsBytes(Resolve(Run(Init(), prog).cells, Run(Init(), prog).labels).value)
  {
    RunBytes(prog);
    ResolveBytes(Run(Init(), prog).cells, Run(Init(), prog).labels);
  }

  /** CMPAX leaves its 16-bit operand as one int: CMPAX(0x1234) compiles to
      [0x3D, 0x1234], which is not a byte string. */
  lemma CmpAxIsNotBytes()
    ensures var fin := Run(Init(), [CmpAx(0x1234)]);
            Resolve(fin.cells, fin.labels) == Ok([0x3D, 0x1234])
            && !IsBytes(Resolve(fin.cells, fin.labels).value)
  {
    RunOne(Init(), CmpAx(0x1234));
    var fin := Run(Init(), [CmpAx(0x1234)]);
    DivModUnique(0x1234, 0x10000, 0, 0x1234);
    assert fin.cells == [Lit(0x3D), Lit(0x1234)];
    ResolvePair(Lit(0x3D), Lit(0x1234), fin.labels);
    assert [0x3D] + [0x1234] == [0x3D, 0x1234];
    assert Resolve(fin.cells, fin.labels).value[1] == 0x1234;
  }

  /** DATA copies its items unmasked: DATA([300]) compiles to [300]. */
  lemma DataIsNotMasked()
    ensures var fin := Run(Init(), [Data([300])]);
            Resolve(fin.cells, fin.labels) == Ok([300])
            && !IsBytes(Resolve(fin.cells, fin.labels).value)
  {
    RunOne(Init(), Data([300]));
    var fin := Run(Init(), [Data([300])]);
    assert fin.cells == LitCells([300]);
    ResolveLiterals([300], fin.labels);
    assert Resolve(fin.cells, fin.labels).value[0] == 300;
  }
}
