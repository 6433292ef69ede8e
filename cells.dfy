/** The emitted cells and the resolution pass that turns them into bytes.

    A cell is a literal int or a placeholder that names a label: the label's
    absolute address as a little-endian word, or its distance from a fixed
    origin as one byte. Resolution replaces each cell, in order, by its bytes
    and fails on the first placeholder whose label was never declared. */
module Cells {
  import opened Encoding

  datatype Cell =
    | Lit(value: int)                      // copied to the output unchanged
    | AbsWord(name: string)                // the label's address, two bytes
    | Rel8(origin: nat, name: string)      // label minus origin, one byte

  /** The only failure of resolution: the label named by a placeholder is not in the table. */
  datatype Error = UnresolvedLabel(name: string)

  datatype Result<T> = Ok(value: T) | Err(error: Error)

  /** Label name to the instruction pointer recorded when it was declared. */
  type Labels = map<string, nat>

  predicate Declared(c: Cell, labels: Labels)
  {
    c.Lit? || c.name in labels
  }

  /** How many output bytes a cell resolves to. */
  function CellWidth(c: Cell): nat
  {
    if c.AbsWord? then 2 else 1
  }

  /** How many output bytes a cell sequence resolves to. */
  function Width(cells: seq<Cell>): nat
  {
    if cells == [] then 0 else Width(cells[..|cells| - 1]) + CellWidth(cells[|cells| - 1])
  }

  /** Each cell takes one or two output ints. */
  lemma {:induction false} WidthBounds(cells: seq<Cell>)
    ensures |cells| <= Width(cells) <= 2 * |cells|
  {
    if cells != [] {
      WidthBounds(cells[..|cells| - 1]);
    }
  }

  /** The cells that copy a list of ints verbatim. */
  function LitCells(vs: seq<int>): (cells: seq<Cell>)
    ensures |cells| == |vs|
    ensures forall i :: 0 <= i < |vs| ==> cells[i] == Lit(vs[i])
  {
    seq(|vs|, i requires 0 <= i < |vs| => Lit(vs[i]))
  }

  lemma {:induction false} WidthLitCells(vs: seq<int>)
    ensures Width(LitCells(vs)) == |vs|
  {
    if vs != [] {
      assert LitCells(vs)[..|vs| - 1] == LitCells(vs[..|vs| - 1]);
      WidthLitCells(vs[..|vs| - 1]);
    }
  }

  /** The bytes of one cell, as the loop body of `compile` extends its result. */
  function ResolveCell(c: Cell, labels: Labels): (r: Result<seq<int>>)
    ensures r.Ok? <==> Declared(c, labels)
    ensures r.Ok? ==> |r.value| == CellWidth(c)
    ensures !Declared(c, labels) ==> r == Err(UnresolvedLabel(c.name))
  {
    match c
    case Lit(v) => Ok([v])
    case AbsWord(l) =>
      if l in labels then Ok(Word(labels[l])) else Err(UnresolvedLabel(l))
    case Rel8(o, l) =>
      if l in labels then Ok([Mask8(labels[l] - o)]) else Err(UnresolvedLabel(l))
  }

  /** Sequencing of two partial results: the first failure wins, otherwise the bytes are concatenated. */
  function Then(a: Result<seq<int>>, b: Result<seq<int>>): Result<seq<int>>
  {
    if a.Err? then a else if b.Err? then b else Ok(a.value + b.value)
  }

  /** The byte stream `compile` returns, or the error it raises, for these cells and labels. */
  function Resolve(cells: seq<Cell>, labels: Labels): Result<seq<int>>
  {
    if cells == [] then Ok([])
    else Then(Resolve(cells[..|cells| - 1], labels), ResolveCell(cells[|cells| - 1], labels))
  }

  lemma ThenAssociative(a: Result<seq<int>>, b: Result<seq<int>>, c: Result<seq<int>>)
    ensures Then(Then(a, b), c) == Then(a, Then(b, c))
  {
    if a.Ok? && b.Ok? && c.Ok? {
      assert (a.value + b.value) + c.value == a.value + (b.value + c.value);
    }
  }

  /** Resolving a concatenation resolves the two parts in order. */
  lemma {:induction false} ResolveAppend(a: seq<Cell>, b: seq<Cell>, labels: Labels)
    ensures Resolve(a + b, labels) == Then(Resolve(a, labels), Resolve(b, labels))
  {
    if b == [] {
      assert a + b == a;
      if Resolve(a, labels).Ok? {
        assert Resolve(a, labels).value + [] == Resolve(a, labels).value;
      }
    } else {
      var b' := b[..|b| - 1];
      assert (a + b)[..|a + b| - 1] == a + b';
      assert (a + b)[|a + b| - 1] == b[|b| - 1];
      ResolveAppend(a, b', labels);
      ThenAssociative(Resolve(a, labels), Resolve(b', labels), ResolveCell(b[|b| - 1], labels));
    }
  }

  lemma {:induction false} WidthAppend(a: seq<Cell>, b: seq<Cell>)
    ensures Width(a + b) == Width(a) + Width(b)
  {
    if b == [] {
      assert a + b == a;
    } else {
      var b' := b[..|b| - 1];
      assert (a + b)[..|a + b| - 1] == a + b';
      WidthAppend(a, b');
    }
  }

  /** A successful resolution yields exactly Width(cells) bytes. */
  lemma {:induction false} ResolveLength(cells: seq<Cell>, labels: Labels)
    requires Resolve(cells, labels).Ok?
    ensures |Resolve(cells, labels).value| == Width(cells)
  {
    if cells != [] {
      ResolveLength(cells[..|cells| - 1], labels);
    }
  }

  /** Resolution succeeds exactly when every placeholder names a declared label. */
  lemma {:induction false} ResolveOkIffDeclared(cells: seq<Cell>, labels: Labels)
    ensures Resolve(cells, labels).Ok? <==> forall i :: 0 <= i < |cells| ==> Declared(cells[i], labels)
  {
    if cells != [] {
      var init := cells[..|cells| - 1];
      ResolveOkIffDeclared(init, labels);
      assert forall i :: 0 <= i < |init| ==> init[i] == cells[i];
    }
  }

  /** On failure, the error names the label of the first undeclared placeholder, as the
      source's loop raises at the first missing key. */
  lemma {:induction false} ResolveFailsAtFirstUnresolved(cells: seq<Cell>, labels: Labels, k: nat)
    requires k < |cells| && !Declared(cells[k], labels)
    requires forall i :: 0 <= i < k ==> Declared(cells[i], labels)
    ensures Resolve(cells, labels) == Err(UnresolvedLabel(cells[k].name))
  {
    var pre, rest := cells[..k], cells[k + 1..];
    assert cells == pre + [cells[k]] + rest;
    ResolveOkIffDeclared(pre, labels);
    ResolveAppend(pre + [cells[k]], rest, labels);
    ResolveAppend(pre, [cells[k]], labels);
    assert Resolve([cells[k]], labels) == Then(Resolve([], labels), ResolveCell(cells[k], labels));
  }

  /** One undeclared placeholder anywhere makes resolution fail. */
  lemma ResolveUndeclaredFails(cells: seq<Cell>, labels: Labels, k: nat)
    requires k < |cells| && !Declared(cells[k], labels)
    ensures Resolve(cells, labels).Err?
  {
    ResolveOkIffDeclared(cells, labels);
  }

  /** A placeholder-free sequence compiles to itself, whatever the label table. */
  lemma {:induction false} ResolveLiterals(vs: seq<int>, labels: Labels)
    ensures Resolve(LitCells(vs), labels) == Ok(vs)
  {
    if vs != [] {
      var init := vs[..|vs| - 1];
      assert LitCells(vs)[..|vs| - 1] == LitCells(init);
      ResolveLiterals(init, labels);
      assert init + [vs[|vs| - 1]] == vs;
    }
  }

  /** The bytes of cell k sit at offset Width(cells[..k]) of a successful result. */
  lemma ResolveAt(cells: seq<Cell>, labels: Labels, k: nat)
    requires k < |cells| && Resolve(cells, labels).Ok?
    ensures Width(cells[..k]) + CellWidth(cells[k]) <= |Resolve(cells, labels).value|
    ensures ResolveCell(cells[k], labels).Ok?
    ensures Resolve(cells, labels).value[Width(cells[..k])..Width(cells[..k]) + CellWidth(cells[k])]
         == ResolveCell(cells[k], labels).value
  {
    var pre, rest := cells[..k], cells[k + 1..];
    assert cells == (pre + [cells[k]]) + rest;
    ResolveAppend(pre + [cells[k]], rest, labels);
    ResolveAppend(pre, [cells[k]], labels);
    assert Resolve([cells[k]], labels) == Then(Resolve([], labels), ResolveCell(cells[k], labels));
    ResolveLength(pre, labels);
  }

  /** The cells e follow the cells p at the start of a longer sequence. */
  predicate PlacedAt(cells: seq<Cell>, p: seq<Cell>, e: seq<Cell>)
  {
    |p| + |e| <= |cells| && cells[..|p| + |e|] == p + e
  }

  /** The cells e placed after p resolve, within a successful result, to
      the slice that starts where the bytes of p end. */
  lemma ResolvePlaced(cells: seq<Cell>, labels: Labels, p: seq<Cell>, e: seq<Cell>)
    requires PlacedAt(cells, p, e)
    requires Resolve(cells, labels).Ok?
    ensures Resolve(e, labels).Ok?
    ensures Width(p) + Width(e) <= |Resolve(cells, labels).value|
    ensures Resolve(cells, labels).value[Width(p)..Width(p) + Width(e)] == Resolve(e, labels).value
  {
    var rest := cells[|p| + |e|..];
    assert cells == (p + e) + rest by {
      assert cells == cells[..|p| + |e|] + rest;
    }
    ResolveAppend(p + e, rest, labels);
    ResolveAppend(p, e, labels);
    ResolveLength(p, labels);
    ResolveLength(e, labels);
  }

  /** Two cells resolve to what each resolves to, in order. */
  lemma ResolvePair(a: Cell, b: Cell, labels: Labels)
    ensures Resolve([a, b], labels) == Then(ResolveCell(a, labels), ResolveCell(b, labels))
  {
    assert [a, b][..1] == [a];
    assert [a][..0] == [];
    assert Resolve([a], labels) == ResolveCell(a, labels) by {
      if ResolveCell(a, labels).Ok? {
        assert [] + ResolveCell(a, labels).value == ResolveCell(a, labels).value;
      }
    }
  }

  /** Two one-byte cells placed after p give the two output bytes at Width(p). */
  lemma ResolveTwoBytesAt(cells: seq<Cell>, labels: Labels, p: seq<Cell>, a: Cell, b: Cell)
    requires PlacedAt(cells, p, [a, b])
    requires !a.AbsWord? && !b.AbsWord?
    requires Resolve(cells, labels).Ok?
    ensures ResolveCell(a, labels).Ok? && ResolveCell(b, labels).Ok?
    ensures Width(p) + 2 <= |Resolve(cells, labels).value|
    ensures Resolve(cells, labels).value[Width(p)] == ResolveCell(a, labels).value[0]
    ensures Resolve(cells, labels).value[Width(p) + 1] == ResolveCell(b, labels).value[0]
  {
    var out := Resolve(cells, labels).value;
    var w := Width(p);
    ResolvePlaced(cells, labels, p, [a, b]);
    ResolvePair(a, b, labels);
    WidthPair(a, b);
    assert out[w] == out[w..w + 2][0];
    assert out[w + 1] == out[w..w + 2][1];
  }

  /** A declared relative cell becomes the masked distance from its origin. */
  lemma Rel8Resolves(origin: nat, name: string, labels: Labels)
    requires name in labels
    ensures ResolveCell(Rel8(origin, name), labels) == Ok([Mask8(labels[name] - origin)])
  {
  }

  lemma WidthSingle(c: Cell)
    ensures Width([c]) == CellWidth(c)
  {
    assert [c][..0] == [];
  }

  lemma WidthPair(a: Cell, b: Cell)
    ensures Width([a, b]) == CellWidth(a) + CellWidth(b)
  {
    assert [a, b][..1] == [a];
    WidthSingle(a);
  }

  /** An error in a prefix is the error of the whole sequence. */
  lemma ResolvePrefixErr(cells: seq<Cell>, labels: Labels, k: nat)
    requires k <= |cells| && Resolve(cells[..k], labels).Err?
    ensures Resolve(cells, labels) == Resolve(cells[..k], labels)
  {
    assert cells == cells[..k] + cells[k..];
    ResolveAppend(cells[..k], cells[k..], labels);
  }

  /** Every literal among the cells is a byte. */
  predicate ByteCells(cells: seq<Cell>)
  {
    forall k :: 0 <= k < |cells| && cells[k].Lit? ==> 0 <= cells[k].value < 256
  }

  /** The output is a byte string: what Python's `bytes()` accepts. */
  predicate IsBytes(out: seq<int>)
  {
    forall j :: 0 <= j < |out| ==> 0 <= out[j] < 256
  }

  /** Placeholders always resolve to bytes, so byte literals give a byte image. */
  lemma {:induction false} ResolveBytes(cells: seq<Cell>, labels: Labels)
    requires ByteCells(cells)
    requires Resolve(cells, labels).Ok?
    ensures IsBytes(Resolve(cells, labels).value)
  {
    if cells != [] {
      var init, last := cells[..|cells| - 1], cells[|cells| - 1];
      assert ByteCells(init) by {
        assert forall k :: 0 <= k < |init| ==> init[k] == cells[k];
      }
      ResolveBytes(init, labels);
      var a, b := Resolve(init, labels).value, ResolveCell(last, labels).value;
      assert IsBytes(b);
      assert Resolve(cells, labels).value == a + b;
    }
  }
}
