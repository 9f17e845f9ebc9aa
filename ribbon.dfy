/**
  The flux ribbon record and a value-level specification of how
  `importribbon` assembles one from the tables of the per-radius files.
  A table is what the numeric-table reader returns for one file: rows of
  columns, where column 0 is the position along the field line, 1 the
  density, 2 the ion temperature, 3 the Mach flow, 4 the particle source
  and 9 the electron temperature.
 */
module Ribbon {
  import opened Grids
  import Decimal

  /** One file's table: rows of columns, the same shape of data as a grid. */
  type Table = Grid

  const PositionCol: nat := 0
  const DensityCol: nat := 1
  const IonTempCol: nat := 2
  const FlowCol: nat := 3
  const SourceCol: nat := 4
  const ElectronTempCol: nat := 9

  /** A table the assembler can consume: `length` rows of at least ten columns. */
  predicate WellShaped(t: Table, length: nat) {
    |t| == length && forall i :: 0 <= i < |t| ==> |t[i]| >= 10
  }

  predicate AllWellShaped(tables: seq<Table>, length: nat) {
    forall n :: 0 <= n < |tables| ==> WellShaped(tables[n], length)
  }

  /**
    The record `importribbon` returns. The endpoints keep their default
    `[0, 0, 0]`; the electron temperature is not kept.
   */
  datatype FluxRibbon = FluxRibbon(
    density: Grid,
    temp: Grid,
    plaspres: Grid,
    flow: Grid,
    source: Grid,
    length: Grid,
    radius: Grid,
    start: seq<int> := [0, 0, 0],
    finish: seq<int> := [0, 0, 0])

  /**
    Name of the file for radial index `index`: `test_fl_plasma_`, the
    index in decimal, the tag and `.txt`.
   */
  function FileName(index: int, tag: string): (name: string)
    ensures |name| >= 20 + |tag|
    ensures name[..15] == "test_fl_plasma_" && name[|name| - |tag| - 4..] == tag + ".txt"
  {
    "test_fl_plasma_" + Decimal.IntToString(index) + tag + ".txt"
  }

  /** The text between prefix and tag is a decimal integer literal that reads back as the index. */
  lemma FileNameReadsBack(index: int, tag: string)
    ensures var name := FileName(index, tag);
      Decimal.IsIntLiteral(name[15..|name| - |tag| - 4]) &&
      Decimal.ParseInt(name[15..|name| - |tag| - 4]) == index
  {
    var name := FileName(index, tag);
    Decimal.ParseIntToString(index);
    assert name[15..|name| - |tag| - 4] == Decimal.IntToString(index);
  }

  /** Two radial indices with the same tag never share a file. */
  lemma FileNameInjective(i: int, j: int, tag: string)
    requires FileName(i, tag) == FileName(j, tag)
    ensures i == j
  {
    var a, b := Decimal.IntToString(i), Decimal.IntToString(j);
    var prefix, suffix := "test_fl_plasma_", tag + ".txt";
    assert FileName(i, tag) == prefix + a + suffix;
    assert FileName(j, tag) == prefix + b + suffix;
    assert |a| == |b|;
    assert (prefix + a + suffix)[|prefix|..|prefix| + |a|] == a;
    assert (prefix + b + suffix)[|prefix|..|prefix| + |b|] == b;
    Decimal.IntToStringInjective(i, j);
  }

  /** The column-`c` grid before sorting: row `i`, column `n` holds row `i` of table `n`. */
  function Gather(tables: seq<Table>, c: nat, length: nat): (g: Grid)
    requires AllWellShaped(tables, length) && c < 10
    ensures IsGrid(g, length, |tables|)
  {
    seq(length, i requires 0 <= i < length =>
      seq(|tables|, n requires 0 <= n < |tables| => tables[n][i][c]))
  }

  /** The position column of one table, used as a sort key. */
  function Positions(t: Table, length: nat): seq<real>
    requires WellShaped(t, length)
  {
    Column(t, PositionCol)
  }

  /** Column `n` of every row holds the radius `(start + n) / 10`. */
  function RadiusGrid(start: int, width: nat, length: nat): (g: Grid)
    ensures IsGrid(g, length, width)
  {
    seq(length, i requires 0 <= i < length =>
      seq(width, n requires 0 <= n < width => (start + n) as real / 10.0))
  }

  /**
    One quantity grid as the assembler leaves it: the gathered column with
    the key appended, rows sorted by that key, key column cut off.
   */
  function SortedQuantity(tables: seq<Table>, c: nat, length: nat): (r: Grid)
    requires |tables| >= 1 && AllWellShaped(tables, length) && c < 10
    ensures IsGrid(r, length, |tables|)
  {
    var width := |tables|;
    var g := WithKey(Gather(tables, c, length), Positions(tables[width - 1], length));
    WithKeyShape(Gather(tables, c, length), Positions(tables[width - 1], length), width);
    SortRowsShape(g, width, width + 1);
    Strip(SortRows(g, width), width)
  }

  /**
    The ribbon `importribbon` builds from the tables of radial indices
    `start, start + 1, ...`, one table per index.
   */
  function Assemble(start: int, length: nat, tables: seq<Table>): (r: FluxRibbon)
    requires |tables| >= 1 && AllWellShaped(tables, length)
    ensures var width := |tables|;
      IsGrid(r.density, length, width) && IsGrid(r.temp, length, width) &&
      IsGrid(r.plaspres, length, width) && IsGrid(r.flow, length, width) &&
      IsGrid(r.source, length, width) && IsGrid(r.length, length, width) &&
      IsGrid(r.radius, length, width)
    ensures r.start == [0, 0, 0] && r.finish == [0, 0, 0]
  {
    var width := |tables|;
    var n := SortedQuantity(tables, DensityCol, length);
    var ti := SortedQuantity(tables, IonTempCol, length);
    var te := SortedQuantity(tables, ElectronTempCol, length);
    var fl := SortedQuantity(tables, FlowCol, length);
    var s := SortedQuantity(tables, SourceCol, length);
    var l := SortRows(Gather(tables, PositionCol, length), 0);
    SortRowsShape(Gather(tables, PositionCol, length), 0, width);
    FluxRibbon(density := n, temp := ti, source := s, flow := fl,
               plaspres := Pressure(n, te, ti), length := l,
               radius := RadiusGrid(start, width, length))
  }

  /** The order in which the five quantity grids list their source rows: by the last file's positions. */
  function QuantityOrder(tables: seq<Table>, length: nat): seq<nat>
    requires |tables| >= 1 && AllWellShaped(tables, length)
  {
    ArgSort(Positions(tables[|tables| - 1], length))
  }

  /** The order in which the position grid lists its source rows: by the first file's positions. */
  function LengthOrder(tables: seq<Table>, length: nat): seq<nat>
    requires |tables| >= 1 && AllWellShaped(tables, length)
  {
    ArgSort(Positions(tables[0], length))
  }

  /**
    Appending the key, sorting by it and stripping it again reorders the
    rows of the gathered grid by `QuantityOrder`, whatever the column.
   */
  lemma SortedQuantityIsPermuted(tables: seq<Table>, c: nat, length: nat)
    requires |tables| >= 1 && AllWellShaped(tables, length) && c < 10
    ensures InRange(QuantityOrder(tables, length), length)
    ensures SortedQuantity(tables, c, length) == Permute(Gather(tables, c, length), QuantityOrder(tables, length))
  {
    var width := |tables|;
    var key := Positions(tables[width - 1], length);
    var gathered := Gather(tables, c, length);
    var g := WithKey(gathered, key);
    WithKeyShape(gathered, key, width);
    assert Column(g, width) == key;
    StripPermute(g, ArgSort(key), width);
    StripWithKey(gathered, key, length, width);
  }

  /**
    The position grid is the gathered positions reordered by `LengthOrder`,
    a permutation that lists the first file's positions in ascending order.
   */
  lemma LengthIsPermuted(tables: seq<Table>, length: nat)
    requires |tables| >= 1 && AllWellShaped(tables, length)
    ensures var q := LengthOrder(tables, length);
      IsPermutation(q, length) && SortedBy(Positions(tables[0], length), q)
    ensures SortRows(Gather(tables, PositionCol, length), 0)
         == Permute(Gather(tables, PositionCol, length), LengthOrder(tables, length))
  {
    ArgSortSpec(Positions(tables[0], length));
    assert Column(Gather(tables, PositionCol, length), 0) == Positions(tables[0], length);
  }

  /** The position grid ascends down its first column, the first file's positions. */
  lemma LengthSorted(start: int, length: nat, tables: seq<Table>)
    requires |tables| >= 1 && AllWellShaped(tables, length)
    ensures var l := Assemble(start, length, tables).length;
      forall i, j :: 0 <= i < j < length ==> l[i][0] <= l[j][0]
  {
    SortRowsSpec(Gather(tables, PositionCol, length), 0);
  }

  /**
    The pressure is formed after sorting, but equals the pressure of the
    unsorted grids reordered by the shared quantity permutation: forming it
    before the sort would give the same grid.
   */
  lemma PressureOfSorted(start: int, length: nat, tables: seq<Table>)
    requires |tables| >= 1 && AllWellShaped(tables, length)
    ensures InRange(QuantityOrder(tables, length), length)
    ensures Assemble(start, length, tables).plaspres
         == Permute(Pressure(Gather(tables, DensityCol, length), Gather(tables, ElectronTempCol, length),
                             Gather(tables, IonTempCol, length)), QuantityOrder(tables, length))
  {
    SharedQuantityOrder(start, length, tables);
    PressurePermute(Gather(tables, DensityCol, length), Gather(tables, ElectronTempCol, length),
                    Gather(tables, IonTempCol, length), QuantityOrder(tables, length));
  }

  /** One cell of a sorted quantity grid traced back to its table. */
  lemma SortedQuantityCell(tables: seq<Table>, c: nat, length: nat, i: nat, n: nat)
    requires |tables| >= 1 && AllWellShaped(tables, length) && c < 10
    requires i < length && n < |tables|
    ensures var p := QuantityOrder(tables, length);
      p[i] < length && SortedQuantity(tables, c, length)[i][n] == tables[n][p[i]][c]
  {
    SortedQuantityIsPermuted(tables, c, length);
  }

  /**
    Density, ion temperature, flow and source are all reordered by one
    shared permutation, which lists the rows in ascending order of the last
    file's positions; the pressure is formed from grids reordered the same way.
   */
  lemma SharedQuantityOrder(start: int, length: nat, tables: seq<Table>)
    requires |tables| >= 1 && AllWellShaped(tables, length)
    ensures var p := QuantityOrder(tables, length);
      IsPermutation(p, length) && SortedBy(Positions(tables[|tables| - 1], length), p)
    ensures var r, p := Assemble(start, length, tables), QuantityOrder(tables, length);
      r.density == Permute(Gather(tables, DensityCol, length), p) &&
      r.temp == Permute(Gather(tables, IonTempCol, length), p) &&
      r.flow == Permute(Gather(tables, FlowCol, length), p) &&
      r.source == Permute(Gather(tables, SourceCol, length), p) &&
      r.plaspres == Pressure(r.density, Permute(Gather(tables, ElectronTempCol, length), p), r.temp)
  {
    var r, p := Assemble(start, length, tables), QuantityOrder(tables, length);
    ArgSortSpec(Positions(tables[|tables| - 1], length));
    assert r.density == Permute(Gather(tables, DensityCol, length), p) by {
      SortedQuantityIsPermuted(tables, DensityCol, length);
    }
    assert r.temp == Permute(Gather(tables, IonTempCol, length), p) by {
      SortedQuantityIsPermuted(tables, IonTempCol, length);
    }
    assert r.flow == Permute(Gather(tables, FlowCol, length), p) by {
      SortedQuantityIsPermuted(tables, FlowCol, length);
    }
    assert r.source == Permute(Gather(tables, SourceCol, length), p) by {
      SortedQuantityIsPermuted(tables, SourceCol, length);
    }
    assert SortedQuantity(tables, ElectronTempCol, length) == Permute(Gather(tables, ElectronTempCol, length), p) by {
      SortedQuantityIsPermuted(tables, ElectronTempCol, length);
    }
  }

  /**
    Every quantity cell traced back to the tables: density, ion temperature,
    flow and source in row `i`, column `n` all come from one source row,
    row `QuantityOrder[i]` of table `n`.
   */
  lemma QuantityCell(start: int, length: nat, tables: seq<Table>, i: nat, n: nat)
    requires |tables| >= 1 && AllWellShaped(tables, length)
    requires i < length && n < |tables|
    ensures QuantityOrder(tables, length)[i] < length
    ensures var r := Assemble(start, length, tables);
      var row := tables[n][QuantityOrder(tables, length)[i]];
      r.density[i][n] == row[DensityCol] && r.temp[i][n] == row[IonTempCol] &&
      r.flow[i][n] == row[FlowCol] && r.source[i][n] == row[SourceCol]
  {
    var r := Assemble(start, length, tables);
    var row := tables[n][QuantityOrder(tables, length)[i]];
    assert r.density[i][n] == row[DensityCol] by {
      SortedQuantityCell(tables, DensityCol, length, i, n);
    }
    assert r.temp[i][n] == row[IonTempCol] by {
      SortedQuantityCell(tables, IonTempCol, length, i, n);
    }
    assert r.flow[i][n] == row[FlowCol] by {
      SortedQuantityCell(tables, FlowCol, length, i, n);
    }
    assert r.source[i][n] == row[SourceCol] by {
      SortedQuantityCell(tables, SourceCol, length, i, n);
    }
  }

  /**
    Every pressure cell is the density times the summed electron and ion
    temperatures of the same source row, row `QuantityOrder[i]` of table
    `n`: the pressure is formed after sorting, from grids sorted alike.
   */
  lemma PressureCellOfRibbon(start: int, length: nat, tables: seq<Table>, i: nat, n: nat)
    requires |tables| >= 1 && AllWellShaped(tables, length)
    requires i < length && n < |tables|
    ensures QuantityOrder(tables, length)[i] < length
    ensures var row := tables[n][QuantityOrder(tables, length)[i]];
      Assemble(start, length, tables).plaspres[i][n]
        == CellPressure(row[DensityCol], row[ElectronTempCol], row[IonTempCol])
  {
    var d := SortedQuantity(tables, DensityCol, length);
    var te := SortedQuantity(tables, ElectronTempCol, length);
    var ti := SortedQuantity(tables, IonTempCol, length);
    PressureCell(d, te, ti, i, n);
    SortedQuantityCell(tables, DensityCol, length, i, n);
    SortedQuantityCell(tables, IonTempCol, length, i, n);
    SortedQuantityCell(tables, ElectronTempCol, length, i, n);
  }

  /**
    Every coordinate cell traced back: the position in row `i`, column `n`
    comes from row `LengthOrder[i]` of table `n`, and the radius is
    `(start + n) / 10`, never reordered.
   */
  lemma CoordinateCell(start: int, length: nat, tables: seq<Table>, i: nat, n: nat)
    requires |tables| >= 1 && AllWellShaped(tables, length)
    requires i < length && n < |tables|
    ensures LengthOrder(tables, length)[i] < length
    ensures var r := Assemble(start, length, tables);
      r.length[i][n] == tables[n][LengthOrder(tables, length)[i]][PositionCol] &&
      r.radius[i][n] == (start + n) as real / 10.0
  {
    var q := LengthOrder(tables, length);
    assert SortRows(Gather(tables, PositionCol, length), 0)[i][n] == tables[n][q[i]][PositionCol] by {
      LengthIsPermuted(tables, length);
    }
  }

  /** Sorting reorders the rows of every grid and changes none of them. */
  lemma AssembleKeepsRows(start: int, length: nat, tables: seq<Table>)
    requires |tables| >= 1 && AllWellShaped(tables, length)
    ensures var r := Assemble(start, length, tables);
      multiset(r.density) == multiset(Gather(tables, DensityCol, length)) &&
      multiset(r.temp) == multiset(Gather(tables, IonTempCol, length)) &&
      multiset(r.flow) == multiset(Gather(tables, FlowCol, length)) &&
      multiset(r.source) == multiset(Gather(tables, SourceCol, length)) &&
      multiset(r.length) == multiset(Gather(tables, PositionCol, length))
  {
    var r := Assemble(start, length, tables);
    var key := Positions(tables[|tables| - 1], length);
    assert multiset(r.density) == multiset(Gather(tables, DensityCol, length)) by {
      SortedQuantityIsPermuted(tables, DensityCol, length);
      PermuteArgSort(Gather(tables, DensityCol, length), key);
    }
    assert multiset(r.temp) == multiset(Gather(tables, IonTempCol, length)) by {
      SortedQuantityIsPermuted(tables, IonTempCol, length);
      PermuteArgSort(Gather(tables, IonTempCol, length), key);
    }
    assert multiset(r.flow) == multiset(Gather(tables, FlowCol, length)) by {
      SortedQuantityIsPermuted(tables, FlowCol, length);
      PermuteArgSort(Gather(tables, FlowCol, length), key);
    }
    assert multiset(r.source) == multiset(Gather(tables, SourceCol, length)) by {
      SortedQuantityIsPermuted(tables, SourceCol, length);
      PermuteArgSort(Gather(tables, SourceCol, length), key);
    }
    assert multiset(r.length) == multiset(Gather(tables, PositionCol, length)) by {
      SortRowsSpec(Gather(tables, PositionCol, length), 0);
    }
  }

  /**
    When the first and last files list the same positions, the position grid
    is reordered by the same permutation as the quantity grids, so row `i`
    of every grid comes from the same source row.
   */
  lemma AlignedWhenPositionsAgree(start: int, length: nat, tables: seq<Table>)
    requires |tables| >= 1 && AllWellShaped(tables, length)
    requires Positions(tables[0], length) == Positions(tables[|tables| - 1], length)
    ensures Assemble(start, length, tables).length
         == Permute(Gather(tables, PositionCol, length), QuantityOrder(tables, length))
  {
    LengthIsPermuted(tables, length);
  }

  /** A table row with the given position and density, all other columns zero. */
  function SampleRow(position: real, density: real): seq<real> {
    [position, density, 0.0, 0.0, 0.0, 0.0, 0.0, 0.0, 0.0, 0.0]
  }

  /**
    Two files of two rows each whose position columns run in opposite
    directions: the first file lists positions 0.0, 1.0 and the last file
    1.0, 0.0.
   */
  function OppositeTables(): (tables: seq<Table>)
    ensures |tables| == 2 && AllWellShaped(tables, 2)
  {
    [[SampleRow(0.0, 10.0), SampleRow(1.0, 20.0)],
     [SampleRow(1.0, 30.0), SampleRow(0.0, 40.0)]]
  }

  /**
    When the first and last files disagree on the order of their positions,
    row 0 of the ribbon pairs a position with a density taken from another
    source row: position 0.0 (row 0 of the first file) sits beside the
    density 20.0 that the first file records at position 1.0 (its row 1).
   */
  lemma MisalignedWhenPositionsDisagree()
    ensures Assemble(0, 2, OppositeTables()).length[0][0] == 0.0
    ensures Assemble(0, 2, OppositeTables()).density[0][0] == 20.0
    ensures OppositeTables()[0][1][PositionCol] == 1.0
  {
    var tables := OppositeTables();
    assert QuantityOrder(tables, 2) == [1, 0] by {
      assert Positions(tables[1], 2) == [1.0, 0.0];
      ArgSortPair(1.0, 0.0);
    }
    assert LengthOrder(tables, 2) == [0, 1] by {
      assert Positions(tables[0], 2) == [0.0, 1.0];
      ArgSortPair(0.0, 1.0);
    }
    assert tables[0][1][DensityCol] == 20.0;
    QuantityCell(0, 2, tables, 0, 0);
    CoordinateCell(0, 2, tables, 0, 0);
  }
}
