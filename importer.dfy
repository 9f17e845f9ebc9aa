/**
  `importribbon` as the program runs it: seven preallocated arrays filled
  column by column, one column per radial file, then the key column, then
  the whole-array sorting, slicing and pressure of the `Ribbon` model.
  The file system is a map from file names to the tables the numeric-table
  reader would return for them; a name the map lacks is a missing file.
 */
module Importer {
  import opened Grids
  import opened Ribbon

  /**
    Why an import fails: a file of the range does not exist, or the reader
    returned a one-dimensional array for it (a file of fewer than two rows),
    which the first column assignment cannot index.
   */
  datatype LoadError = FileNotFound(name: string) | OneDimensional(name: string)

  datatype Result<T> = Ok(value: T) | Err(error: LoadError)

  /** Every file of the radial indices `start..finish` exists. */
  predicate AllPresent(files: map<string, Table>, start: int, finish: int, tag: string) {
    forall i :: start <= i <= finish ==> FileName(i, tag) in files
  }

  /**
    Every file of the radial indices `start..finish` that the loop reaches,
    that is every file that exists after a run of existing files from
    `start` on, holds a table the assembler can consume.
   */
  predicate Readable(files: map<string, Table>, start: int, finish: int, tag: string, length: nat) {
    forall i :: start <= i <= finish && AllPresent(files, start, i, tag) ==> WellShaped(files[FileName(i, tag)], length)
  }

  /** The file after a run of existing files is readable when it exists. */
  lemma NextReadable(files: map<string, Table>, start: int, finish: int, tag: string, length: nat, n: nat)
    requires start + n <= finish && Readable(files, start, finish, tag, length)
    requires AllPresent(files, start, start + n - 1, tag)
    ensures FileName(start + n, tag) in files ==> WellShaped(files[FileName(start + n, tag)], length)
  {
    if FileName(start + n, tag) in files {
      assert AllPresent(files, start, start + n, tag);
    }
  }

  /** The tables of the `count` files from radial index `start` on, in index order. */
  function TablesFor(files: map<string, Table>, start: int, count: nat, tag: string, length: nat): (tables: seq<Table>)
    requires AllPresent(files, start, start + count - 1, tag)
    requires Readable(files, start, start + count - 1, tag, length)
    ensures |tables| == count && AllWellShaped(tables, length)
  {
    if count == 0 then []
    else TablesFor(files, start, count - 1, tag, length) + [files[FileName(start + count - 1, tag)]]
  }

  /** Table `k` of the run is the table of file `start + k`. */
  lemma {:induction false} TablesForIndex(files: map<string, Table>, start: int, count: nat, tag: string, length: nat, k: nat)
    requires AllPresent(files, start, start + count - 1, tag)
    requires Readable(files, start, start + count - 1, tag, length)
    requires k < count
    ensures TablesFor(files, start, count, tag, length)[k] == files[FileName(start + k, tag)]
  {
    if k < count - 1 {
      TablesForIndex(files, start, count - 1, tag, length, k);
    }
  }

  /** The lowest radial index whose file is missing. */
  function FirstMissing(files: map<string, Table>, start: int, finish: int, tag: string): (i: int)
    requires !AllPresent(files, start, finish, tag)
    ensures start <= i <= finish && FileName(i, tag) !in files
    ensures forall j :: start <= j < i ==> FileName(j, tag) in files
    decreases finish - start
  {
    if FileName(start, tag) !in files then start
    else
      assert !AllPresent(files, start + 1, finish, tag);
      FirstMissing(files, start + 1, finish, tag)
  }

  /** Any missing index preceded only by present ones is the first missing one. */
  lemma {:induction false} FirstMissingUnique(files: map<string, Table>, start: int, finish: int, tag: string, n: nat)
    requires start + n <= finish
    requires FileName(start + n, tag) !in files
    requires AllPresent(files, start, start + n - 1, tag)
    ensures !AllPresent(files, start, finish, tag)
    ensures FirstMissing(files, start, finish, tag) == start + n
    decreases n
  {
    if n > 0 {
      FirstMissingUnique(files, start + 1, finish, tag, n - 1);
    }
  }

  /**
    One more present file extends the run of present, readable files, and
    its table is appended to the run's tables.
   */
  lemma ExtendRun(files: map<string, Table>, start: int, finish: int, tag: string, length: nat, n: nat)
    requires start + n <= finish && Readable(files, start, finish, tag, length)
    requires AllPresent(files, start, start + n - 1, tag) && FileName(start + n, tag) in files
    ensures AllPresent(files, start, start + n, tag) && Readable(files, start, start + n, tag, length)
    ensures TablesFor(files, start, n + 1, tag, length)
         == TablesFor(files, start, n, tag, length) + [files[FileName(start + n, tag)]]
  {
  }

  /** numpy `a[:, n] = col`: column `n` of `a` becomes `col`, every other cell keeps its value. */
  method SetColumn(a: array2<real>, n: nat, col: seq<real>)
    requires n < a.Length1 && |col| == a.Length0
    modifies a
    ensures forall i, j :: 0 <= i < a.Length0 && 0 <= j < a.Length1 ==>
      a[i, j] == if j == n then col[i] else old(a[i, j])
  {
    var k := 0;
    while k < a.Length0
      invariant 0 <= k <= a.Length0
      invariant forall i, j :: 0 <= i < a.Length0 && 0 <= j < a.Length1 ==>
        a[i, j] == if j == n && i < k then col[i] else old(a[i, j])
    {
      a[k, n] := col[k];
      k := k + 1;
    }
  }

  /** The contents of `a` as a grid of rows. */
  function Rows(a: array2<real>): (g: Grid)
    reads a
    ensures IsGrid(g, a.Length0, a.Length1)
  {
    seq(a.Length0, i requires 0 <= i < a.Length0 reads a =>
      seq(a.Length1, j requires 0 <= j < a.Length1 reads a => a[i, j]))
  }

  /** Columns `0..|tables|-1` of `a` hold column `c` of the tables, one table per column. */
  predicate Filled(a: array2<real>, tables: seq<Table>, c: nat)
    reads a
    requires AllWellShaped(tables, a.Length0) && c < 10 && |tables| <= a.Length1
  {
    forall i, j {:trigger a[i, j]} :: 0 <= i < a.Length0 && 0 <= j < |tables| ==> a[i, j] == tables[j][i][c]
  }

  /** Columns `0..n-1` of `a` hold the radius of their file. */
  predicate Radii(a: array2<real>, start: int, n: nat)
    reads a
    requires n <= a.Length1
  {
    forall i, j :: 0 <= i < a.Length0 && 0 <= j < n ==> a[i, j] == (start + j) as real / 10.0
  }

  /** Column `|tables|` of `a` holds the positions of the last table. */
  predicate Keyed(a: array2<real>, tables: seq<Table>)
    reads a
    requires |tables| >= 1 && AllWellShaped(tables, a.Length0) && |tables| < a.Length1
  {
    forall i {:trigger a[i, |tables|]} :: 0 <= i < a.Length0 ==> a[i, |tables|] == tables[|tables| - 1][i][PositionCol]
  }

  /**
    Copies column `c` of table `t` into column `n` of `a`, the step that
    turns `Filled` for the first `n` tables into `Filled` for one more.
   */
  method StoreColumn(a: array2<real>, n: nat, t: Table, c: nat, ghost tables: seq<Table>)
    requires AllWellShaped(tables, a.Length0) && |tables| == n && n < a.Length1
    requires WellShaped(t, a.Length0) && c < 10
    requires Filled(a, tables, c)
    modifies a
    ensures AllWellShaped(tables + [t], a.Length0) && Filled(a, tables + [t], c)
  {
    SetColumn(a, n, Column(t, c));
    assert forall k :: 0 <= k < n ==> (tables + [t])[k] == tables[k];
  }

  /** Writes the radius of file `n` into column `n` of `a`. */
  method StoreRadius(a: array2<real>, n: nat, start: int)
    requires n < a.Length1 && Radii(a, start, n)
    modifies a
    ensures Radii(a, start, n + 1)
  {
    SetColumn(a, n, seq(a.Length0, i => (start + n) as real / 10.0));
  }

  /** Writes the last table's positions into the extra last column of `a`. */
  method StoreKey(a: array2<real>, width: nat, key: seq<real>, ghost tables: seq<Table>, ghost c: nat)
    requires width == |tables| && |tables| >= 1 && AllWellShaped(tables, a.Length0) && c < 10 && a.Length1 == |tables| + 1
    requires key == Positions(tables[|tables| - 1], a.Length0)
    requires Filled(a, tables, c)
    modifies a
    ensures Filled(a, tables, c) && Keyed(a, tables)
  {
    SetColumn(a, width, key);
  }

  /** A filled quantity array with its key column is the gathered grid with the key appended. */
  lemma KeyedRows(a: array2<real>, tables: seq<Table>, c: nat)
    requires |tables| >= 1 && AllWellShaped(tables, a.Length0) && c < 10 && a.Length1 == |tables| + 1
    requires Filled(a, tables, c) && Keyed(a, tables)
    ensures Rows(a) == WithKey(Gather(tables, c, a.Length0), Positions(tables[|tables| - 1], a.Length0))
  {
    var g := WithKey(Gather(tables, c, a.Length0), Positions(tables[|tables| - 1], a.Length0));
    forall i | 0 <= i < a.Length0 ensures Rows(a)[i] == g[i] {
      assert forall j :: 0 <= j < a.Length1 ==> Rows(a)[i][j] == g[i][j];
    }
  }

  /**
    numpy `a[argsort(a[:, width])][:, 0:width]`: the rows of `a` sorted by
    the key in column `width`, with the key column cut off.
   */
  function SortedColumns(a: array2<real>, width: nat): (g: Grid)
    reads a
    requires a.Length1 == width + 1
    ensures IsGrid(g, a.Length0, width)
  {
    SortRowsShape(Rows(a), width, width + 1);
    Strip(SortRows(Rows(a), width), width)
  }

  /** Sorting a filled, keyed quantity array by its key and cutting the key off gives the specified grid. */
  lemma SortedFromArray(a: array2<real>, tables: seq<Table>, c: nat)
    requires |tables| >= 1 && AllWellShaped(tables, a.Length0) && c < 10 && a.Length1 == |tables| + 1
    requires Filled(a, tables, c) && Keyed(a, tables)
    ensures SortedColumns(a, |tables|) == SortedQuantity(tables, c, a.Length0)
  {
    KeyedRows(a, tables, c);
  }

  /** A filled position array is the gathered position grid. */
  lemma FilledRows(a: array2<real>, tables: seq<Table>, c: nat)
    requires AllWellShaped(tables, a.Length0) && c < 10 && a.Length1 == |tables|
    requires Filled(a, tables, c)
    ensures Rows(a) == Gather(tables, c, a.Length0)
  {
    var g := Gather(tables, c, a.Length0);
    forall i | 0 <= i < a.Length0 ensures Rows(a)[i] == g[i] {
      assert forall j :: 0 <= j < a.Length1 ==> Rows(a)[i][j] == g[i][j];
    }
  }

  /** A radius array is the radius grid. */
  lemma RadiiRows(a: array2<real>, start: int)
    requires Radii(a, start, a.Length1)
    ensures Rows(a) == RadiusGrid(start, a.Length1, a.Length0)
  {
    var g := RadiusGrid(start, a.Length1, a.Length0);
    forall i | 0 <= i < a.Length0 ensures Rows(a)[i] == g[i] {
      assert forall j :: 0 <= j < a.Length1 ==> Rows(a)[i][j] == g[i][j];
    }
  }

  /** No two of the seven arrays are the same object. */
  predicate Separate(L: array2<real>, R: array2<real>, N: array2<real>, Ti: array2<real>,
                     Te: array2<real>, FL: array2<real>, S: array2<real>)
  {
    L != R && L != N && L != Ti && L != Te && L != FL && L != S &&
    R != N && R != Ti && R != Te && R != FL && R != S &&
    N != Ti && N != Te && N != FL && N != S &&
    Ti != Te && Ti != FL && Ti != S &&
    Te != FL && Te != S &&
    FL != S
  }

  /**
    The shapes `importribbon` allocates: `length` rows each, `width`
    columns for the positions and radii, one more for each quantity.
   */
  predicate Shaped(L: array2<real>, R: array2<real>, N: array2<real>, Ti: array2<real>,
                   Te: array2<real>, FL: array2<real>, S: array2<real>, length: nat, width: nat)
  {
    L.Length0 == length && R.Length0 == length && N.Length0 == length && Ti.Length0 == length &&
    Te.Length0 == length && FL.Length0 == length && S.Length0 == length &&
    L.Length1 == width && R.Length1 == width && N.Length1 == width + 1 && Ti.Length1 == width + 1 &&
    Te.Length1 == width + 1 && FL.Length1 == width + 1 && S.Length1 == width + 1
  }

  /**
    The arrays hold the first `|tables|` files: positions in `L`, radii in
    `R`, and each quantity in its array, one column per file.
   */
  predicate Loaded(L: array2<real>, R: array2<real>, N: array2<real>, Ti: array2<real>,
                   Te: array2<real>, FL: array2<real>, S: array2<real>, start: int, tables: seq<Table>, length: nat)
    reads L, R, N, Ti, Te, FL, S
  {
    L.Length0 == length && R.Length0 == length && N.Length0 == length && Ti.Length0 == length &&
    Te.Length0 == length && FL.Length0 == length && S.Length0 == length &&
    |tables| <= L.Length1 && |tables| <= R.Length1 && |tables| <= N.Length1 && |tables| <= Ti.Length1 &&
    |tables| <= Te.Length1 && |tables| <= FL.Length1 && |tables| <= S.Length1 &&
    AllWellShaped(tables, length) &&
    Filled(L, tables, PositionCol) && Radii(R, start, |tables|) &&
    Filled(FL, tables, FlowCol) && Filled(S, tables, SourceCol) &&
    Filled(Ti, tables, IonTempCol) && Filled(Te, tables, ElectronTempCol) &&
    Filled(N, tables, DensityCol)
  }

  /** One pass of the reading loop: column `n` of every array from the table of file `n`. */
  method StoreFile(L: array2<real>, R: array2<real>, N: array2<real>, Ti: array2<real>,
                   Te: array2<real>, FL: array2<real>, S: array2<real>,
                   start: int, n: nat, targetdata: Table, ghost tables: seq<Table>)
    requires Separate(L, R, N, Ti, Te, FL, S)
    requires Loaded(L, R, N, Ti, Te, FL, S, start, tables, L.Length0) && |tables| == n
    requires n < L.Length1 && n < R.Length1 && n < N.Length1 && n < Ti.Length1 &&
             n < Te.Length1 && n < FL.Length1 && n < S.Length1
    requires WellShaped(targetdata, L.Length0)
    modifies L, R, N, Ti, Te, FL, S
    ensures Loaded(L, R, N, Ti, Te, FL, S, start, tables + [targetdata], L.Length0)
  {
    StoreColumn(L, n, targetdata, PositionCol, tables);
    StoreRadius(R, n, start);
    StoreColumn(FL, n, targetdata, FlowCol, tables);
    StoreColumn(S, n, targetdata, SourceCol, tables);
    StoreColumn(Ti, n, targetdata, IonTempCol, tables);
    StoreColumn(Te, n, targetdata, ElectronTempCol, tables);
    StoreColumn(N, n, targetdata, DensityCol, tables);
  }

  /**
    The ribbon built from the filled arrays once the key columns are in
    place: the five quantities sorted by the key and cut back to `width`
    columns, the positions sorted by the first file's positions, the radii
    as they are, and the pressure from the sorted grids.
   */
  function Packed(L: array2<real>, R: array2<real>, N: array2<real>, Ti: array2<real>,
                  Te: array2<real>, FL: array2<real>, S: array2<real>, width: nat): FluxRibbon
    reads L, R, N, Ti, Te, FL, S
    requires width >= 1 && L.Length1 == width && N.Length1 == width + 1 && Ti.Length1 == width + 1 &&
             Te.Length1 == width + 1 && FL.Length1 == width + 1 && S.Length1 == width + 1
    requires Ti.Length0 == N.Length0 && Te.Length0 == N.Length0
  {
    var density := SortedColumns(N, width);
    var ti := SortedColumns(Ti, width);
    var te := SortedColumns(Te, width);
    FluxRibbon(density := density, temp := ti, source := SortedColumns(S, width),
               flow := SortedColumns(FL, width), plaspres := Pressure(density, te, ti),
               length := SortRows(Rows(L), 0), radius := Rows(R))
  }

  /** Filled arrays with their key columns pack into the ribbon `Assemble` specifies. */
  lemma PackedIsAssembled(L: array2<real>, R: array2<real>, N: array2<real>, Ti: array2<real>,
                          Te: array2<real>, FL: array2<real>, S: array2<real>, start: int, tables: seq<Table>)
    requires |tables| >= 1
    requires Loaded(L, R, N, Ti, Te, FL, S, start, tables, L.Length0)
    requires L.Length1 == |tables| && R.Length1 == |tables| && N.Length1 == |tables| + 1 && Ti.Length1 == |tables| + 1 &&
             Te.Length1 == |tables| + 1 && FL.Length1 == |tables| + 1 && S.Length1 == |tables| + 1
    requires Keyed(N, tables) && Keyed(Ti, tables) && Keyed(Te, tables) && Keyed(FL, tables) && Keyed(S, tables)
    ensures Packed(L, R, N, Ti, Te, FL, S, |tables|) == Assemble(start, L.Length0, tables)
  {
    SortedFromArray(N, tables, DensityCol);
    SortedFromArray(S, tables, SourceCol);
    SortedFromArray(Ti, tables, IonTempCol);
    SortedFromArray(Te, tables, ElectronTempCol);
    SortedFromArray(FL, tables, FlowCol);
    FilledRows(L, tables, PositionCol);
    RadiiRows(R, start);
  }

  /**
    Everything after the reading loop: the last file's positions go into
    the extra column of the five quantity arrays, and the ribbon is packed
    from the arrays.
   */
  method Pack(L: array2<real>, R: array2<real>, N: array2<real>, Ti: array2<real>,
              Te: array2<real>, FL: array2<real>, S: array2<real>,
              start: int, width: nat, targetdata: Table, ghost tables: seq<Table>)
    returns (ribbon: FluxRibbon)
    requires Separate(L, R, N, Ti, Te, FL, S)
    requires width == |tables| && width >= 1 && targetdata == tables[width - 1]
    requires Shaped(L, R, N, Ti, Te, FL, S, L.Length0, width)
    requires Loaded(L, R, N, Ti, Te, FL, S, start, tables, L.Length0)
    modifies N, Ti, Te, FL, S
    ensures ribbon == Assemble(start, L.Length0, tables)
  {
    var key := Positions(targetdata, L.Length0);
    StoreKey(N, width, key, tables, DensityCol);
    StoreKey(S, width, key, tables, SourceCol);
    StoreKey(Ti, width, key, tables, IonTempCol);
    StoreKey(Te, width, key, tables, ElectronTempCol);
    StoreKey(FL, width, key, tables, FlowCol);
    PackedIsAssembled(L, R, N, Ti, Te, FL, S, start, tables);
    ribbon := Packed(L, R, N, Ti, Te, FL, S, width);
  }

  /**
    One pass of the reading loop: builds the name of file `start + n`,
    looks it up, and on success stores its columns as column `n` of the
    arrays.
   */
  method ReadFile(L: array2<real>, R: array2<real>, N: array2<real>, Ti: array2<real>,
                  Te: array2<real>, FL: array2<real>, S: array2<real>,
                  start: int, n: nat, tag: string, files: map<string, Table>, ghost tables: seq<Table>)
    returns (name: string, found: bool, targetdata: Table)
    requires Separate(L, R, N, Ti, Te, FL, S)
    requires Loaded(L, R, N, Ti, Te, FL, S, start, tables, L.Length0) && |tables| == n
    requires n < L.Length1 && n < R.Length1 && n < N.Length1 && n < Ti.Length1 &&
             n < Te.Length1 && n < FL.Length1 && n < S.Length1
    requires FileName(start + n, tag) in files ==> WellShaped(files[FileName(start + n, tag)], L.Length0)
    modifies L, R, N, Ti, Te, FL, S
    ensures name == FileName(start + n, tag)
    ensures found <==> name in files
    ensures found ==> targetdata == files[name] && Loaded(L, R, N, Ti, Te, FL, S, start, tables + [targetdata], L.Length0)
  {
    name := FileName(start + n, tag);
    found := name in files;
    targetdata := [];
    if found {
      targetdata := files[name];
      StoreFile(L, R, N, Ti, Te, FL, S, start, n, targetdata, tables);
    }
  }

  /** numpy `ones`: the seven arrays, every cell 1.0, none of them filled yet. */
  method Allocate(start: int, length: nat, width: nat)
    returns (L: array2<real>, R: array2<real>, N: array2<real>, Ti: array2<real>,
             Te: array2<real>, FL: array2<real>, S: array2<real>)
    ensures fresh(L) && fresh(R) && fresh(N) && fresh(Ti) && fresh(Te) && fresh(FL) && fresh(S)
    ensures Separate(L, R, N, Ti, Te, FL, S) && Shaped(L, R, N, Ti, Te, FL, S, length, width)
    ensures Loaded(L, R, N, Ti, Te, FL, S, start, [], length)
  {
    L := new real[length, width]((i, j) => 1.0);
    R := new real[length, width]((i, j) => 1.0);
    N := new real[length, width + 1]((i, j) => 1.0);
    Ti := new real[length, width + 1]((i, j) => 1.0);
    Te := new real[length, width + 1]((i, j) => 1.0);
    FL := new real[length, width + 1]((i, j) => 1.0);
    S := new real[length, width + 1]((i, j) => 1.0);
  }

  /**
    The reading loop: file after file from `start` to `finish`, each stored
    as one more column of the arrays, stopping at the first missing file.
   */
  method ReadAll(L: array2<real>, R: array2<real>, N: array2<real>, Ti: array2<real>,
                 Te: array2<real>, FL: array2<real>, S: array2<real>,
                 start: int, finish: int, tag: string, files: map<string, Table>)
    returns (ok: bool, name: string, targetdata: Table, ghost read: seq<Table>)
    requires finish >= start && Separate(L, R, N, Ti, Te, FL, S)
    requires Shaped(L, R, N, Ti, Te, FL, S, L.Length0, finish - start + 1)
    requires Loaded(L, R, N, Ti, Te, FL, S, start, [], L.Length0)
    requires Readable(files, start, finish, tag, L.Length0)
    modifies L, R, N, Ti, Te, FL, S
    ensures ok <==> AllPresent(files, start, finish, tag)
    ensures !ok ==> name == FileName(FirstMissing(files, start, finish, tag), tag)
    ensures ok ==> read == TablesFor(files, start, finish - start + 1, tag, L.Length0)
    ensures ok ==> targetdata == read[|read| - 1] && Loaded(L, R, N, Ti, Te, FL, S, start, read, L.Length0)
  {
    var width := finish - start + 1;
    var n := 0;
    read := [];
    name, targetdata := "", [];
    while n < width
      invariant 0 <= n <= width && |read| == n
      invariant AllPresent(files, start, start + n - 1, tag)
      invariant Readable(files, start, start + n - 1, tag, L.Length0)
      invariant read == TablesFor(files, start, n, tag, L.Length0)
      invariant n > 0 ==> targetdata == read[n - 1]
      invariant Loaded(L, R, N, Ti, Te, FL, S, start, read, L.Length0)
    {
      NextReadable(files, start, finish, tag, L.Length0, n);
      var found;
      name, found, targetdata := ReadFile(L, R, N, Ti, Te, FL, S, start, n, tag, files, read);
      if !found {
        FirstMissingUnique(files, start, finish, tag, n);
        return false, name, targetdata, read;
      }
      ExtendRun(files, start, finish, tag, L.Length0, n);
      read := read + [targetdata];
      n := n + 1;
    }
    ok := true;
  }

  /**
    `importribbon(start, finish, tag, length)`. Reads the files of radial
    indices `start..finish` in order and fails on the first one that is
    missing; otherwise returns the ribbon `Assemble` specifies for their
    tables. With fewer than two rows per file the first file read is a
    one-dimensional array, and the first pass of the loop fails on it.
   */
  method ImportRibbon(start: int, finish: int, tag: string, files: map<string, Table>, length: nat := 200)
    returns (r: Result<FluxRibbon>)
    requires finish >= start
    requires Readable(files, start, finish, tag, length)
    ensures r.Ok? <==> AllPresent(files, start, finish, tag) && length >= 2
    ensures r.Ok? ==> r.value == Assemble(start, length, TablesFor(files, start, finish - start + 1, tag, length))
    ensures r.Err? && length >= 2 ==> r.error == FileNotFound(FileName(FirstMissing(files, start, finish, tag), tag))
    ensures length < 2 ==>
              r.Err? && r.error.name == FileName(start, tag) &&
              (r.error.FileNotFound? <==> FileName(start, tag) !in files)
  {
    if length < 2 {
      var name := FileName(start, tag);
      if name !in files {
        return Err(FileNotFound(name));
      }
      return Err(OneDimensional(name));
    }
    var width := finish - start + 1;
    var L, R, N, Ti, Te, FL, S := Allocate(start, length, width);

    var ok, name, targetdata, read := ReadAll(L, R, N, Ti, Te, FL, S, start, finish, tag, files);
    if !ok {
      return Err(FileNotFound(name));
    }
    var ribbon := Pack(L, R, N, Ti, Te, FL, S, start, width, targetdata, read);
    r := Ok(ribbon);
  }
}
