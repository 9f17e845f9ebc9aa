# Flux ribbon assembler

A Dafny model of `importribbon` from `mistakenot.py`. It builds a flux
ribbon from EMC3-EIRENE post-processing output. There is one text table per
radial start point `start, start + 1, ..., finish` (in mm). Each table is read
from `test_fl_plasma_<index><tag>.txt`, and each row is a point along the
field line:

| column | content |
|---|---|
| 0 | position along the line |
| 1 | density |
| 2 | ion temperature |
| 3 | Mach flow |
| 4 | particle source |
| 9 | electron temperature |

The assembler does the following:

- It allocates seven arrays:
  - `L` (positions) and `R` (radii) have `width = finish - start + 1` columns;
  - `N`, `Ti`, `Te`, `FL` and `S` have one extra column.
- It fills the arrays column by column, one file per column.
- It writes the last file's positions into the extra column of the five quantity arrays.
- It sorts the rows of each quantity array by that extra column, and `L` by its own column 0.
- It cuts the extra column off again.
- It computes the static pressure `N * (Te + Ti)`.
- It returns everything as a `FluxRibbon`.

The project has four modules:

- `Decimal` (decimal.dfy) is Python's `str` of an integer and its inverse. It is used for the file names.
- `Grids` (grids.dfy) holds the whole-array numpy operations on grids of reals:
  - column selection;
  - `argsort`, as a stable insertion sort on indices;
  - fancy indexing by a permutation;
  - appending and slicing columns;
  - the elementwise pressure.
- `Ribbon` (ribbon.dfy) holds the `FluxRibbon` record and `Assemble`. `Assemble` is a value-level specification of the ribbon built from a sequence of tables. The lemmas about it cover:
  - shape, radii, column sources and the shared row permutation;
  - sortedness of the position grid and of the quantity grids' order, and the pressure formula;
  - what happens when the first and last files order their positions differently.
- `Importer` (importer.dfy) is the routine as the program runs it:
  - the arrays are `array2<real>` filled in place by a `while` loop (`ReadAll`) and by key-column writes (`Pack`);
  - the file system is a map from file names to the tables the numeric-table reader would return;
  - `ImportRibbon` is proved to return exactly `Assemble` of the tables it read, or the error for the first missing file, or, with `length < 2`, a failure on the first file.

## Model

| member | source | states |
|---|---|---|
| Ribbon.Assemble | mistakenot.py:86-143 | For at least one table, all `length` rows and at least ten columns each: all seven grids of the ribbon have shape `(length, width)`. `start` and `finish` keep their default `[0, 0, 0]`. |
| Importer.ImportRibbon | mistakenot.py:86-143 | Returns a ribbon exactly when every file `start..finish` exists and `length >= 2`. The ribbon is `Assemble` of those files' tables in index order. With `length >= 2`, a failure is `FileNotFound` naming the lowest missing index. With `length < 2`, the first pass fails on the first file: `FileNotFound` if it is missing, otherwise `OneDimensional`, because the reader returned a one-dimensional array that line 104 cannot index. `length` defaults to 200. |
| Importer.ReadAll | mistakenot.py:99-111 | The reading loop succeeds exactly when every file exists. On success it has read the tables of files `start..finish` in order, and column `n` of `L, R, FL, S, Ti, Te, N` holds table `n`'s columns 0, radius, 3, 4, 2, 9, 1. On failure it names the first missing file. |
| Importer.ReadFile | mistakenot.py:101-110 | One pass builds the name `test_fl_plasma_<start+n><tag>.txt`. It finds the file exactly when the name is in the file system. When found, column `n` of `R` is set to `(start + n) / 10`, and column `n` of every other array is filled from that file's table. |
| Importer.StoreFile | mistakenot.py:104-110 | One pass of the fill loop: from arrays holding the first `n` tables, it writes column `n` of all seven arrays. Afterwards they hold `n + 1` tables: positions, flow, source, ion and electron temperature and density from the new table, and radius `(start + n) / 10`. |
| Importer.StoreColumn | mistakenot.py:104 | Writing one column of one table into column `n` extends "columns `0..n-1` hold column `c` of tables `0..n-1`" to one more table. |
| Importer.StoreRadius | mistakenot.py:105 | After writing column `n`, every cell of columns `0..n` of `R` is `(start + column) / 10`. |
| Importer.SetColumn | mistakenot.py:104-110 | numpy `a[:, n] = col`: column `n` becomes `col`, and every other cell keeps its value. |
| Importer.StoreKey | mistakenot.py:114-118 | Writing the last file's positions into the extra column keeps the filled columns. The extra column then holds those positions. |
| Importer.Pack | mistakenot.py:113-141 | From arrays holding the tables read, the key writes, sorts, strips and pressure give exactly `Assemble` of those tables. |
| Importer.PackedIsAssembled | mistakenot.py:123-141 | The ribbon read off filled arrays with key columns equals `Assemble`. |
| Importer.SortedFromArray | mistakenot.py:123-135 | Sorting a filled, keyed quantity array by its key and slicing the key off gives the specified sorted quantity grid. |
| Importer.KeyedRows | mistakenot.py:104-118 | A filled, keyed quantity array, read as rows, is the gathered quantity grid with the last file's positions appended. |
| Importer.FilledRows | mistakenot.py:104 | The filled position array, read as rows, is the gathered position grid. |
| Importer.RadiiRows | mistakenot.py:105 | The radius array, read as rows, is the radius grid. |
| Importer.Allocate | mistakenot.py:89-97 | numpy `ones`: seven distinct fresh arrays. `L` and `R` are `(length, width)`, the other five `(length, width + 1)`, and nothing is filled yet. |
| Importer.TablesForIndex | mistakenot.py:100-103 | Table `k` of the tables read is the table of file `start + k`. The files are read in index order, one per column. |
| Importer.FirstMissing | mistakenot.py:100-103 | The index at which the loop stops: within `start..finish`, its file is missing, and every earlier file exists. |
| Importer.FirstMissingUnique | mistakenot.py:100-103 | Any missing index whose predecessors all exist is the one `FirstMissing` names. |
| Importer.NextReadable | mistakenot.py:103-110 | The file the loop reaches next holds a consumable table when it exists. |
| Importer.ExtendRun | mistakenot.py:100-111 | One more existing file extends the run of files read, and its table is appended to the tables read. |
| Ribbon.FileName | mistakenot.py:101-102 | The name starts with `test_fl_plasma_` and ends with the tag followed by `.txt`. |
| Ribbon.FileNameReadsBack | mistakenot.py:101-102 | The text between the prefix and the tag is a decimal integer literal that reads back as the radial index. |
| Ribbon.FileNameInjective | mistakenot.py:101-102 | Two radial indices with the same tag never share a file name. |
| Decimal.ParseIntToString | mistakenot.py:101 | `str(i)` is an integer literal, negative exactly when `i` is, and `int(str(i)) == i`. |
| Decimal.IntToStringInjective | mistakenot.py:101 | Distinct integers render as distinct strings. |
| Decimal.NatToDigitsShape | mistakenot.py:101 | The rendering of a natural is a non-empty digit string. Its first digit is `0` exactly when the number is 0. |
| Decimal.ParseNatToDigits | mistakenot.py:101 | Reading the digits of a natural back gives the natural. |
| Decimal.DivisionByTen | mistakenot.py:101 | The digit-splitting helpers are integer division and remainder by ten. |
| Grids.ArgSortSpec | mistakenot.py:123-128 | `argsort` returns a permutation of the row indices that lists the keys in ascending order. |
| Grids.ArgSortPair | mistakenot.py:123-128 | `argsort` of two keys swaps them exactly when the second is smaller. |
| Grids.PermuteArgSort | mistakenot.py:123-128 | Reordering rows by `argsort` of any key of matching length keeps the multiset of rows. |
| Grids.SortRowsSpec | mistakenot.py:123-128 | `g[argsort(g[:, k])]` keeps the multiset of rows and leaves column `k` non-decreasing down the rows. |
| Grids.SortRowsShape | mistakenot.py:123-128 | Sorting rows keeps the grid's shape. |
| Grids.StripWithKey | mistakenot.py:114-135 | Slicing off an appended last column gives back the grid it was appended to. |
| Grids.StripPermute | mistakenot.py:123-135 | Slicing columns commutes with reordering rows. |
| Grids.WithKeyShape | mistakenot.py:93-118 | Appending a key column to a `(rows, cols)` grid gives a `(rows, cols + 1)` grid. |
| Grids.PressurePermute | mistakenot.py:123-138 | Reordering density and both temperatures by one row permutation and then forming `N * (Te + Ti)` gives the unsorted pressure reordered by that permutation. |
| Ribbon.PressureOfSorted | mistakenot.py:123-141 | The ribbon's pressure, formed after sorting, equals the pressure of the gathered, unsorted grids reordered by the shared quantity permutation. |
| Ribbon.SortedQuantityIsPermuted | mistakenot.py:114-135 | For every quantity column, the append-key, sort and strip steps reorder the gathered grid by `argsort` of the last file's positions. |
| Ribbon.LengthIsPermuted | mistakenot.py:128 | The position grid is the gathered positions reordered by `LengthOrder`. `LengthOrder` is a permutation of the rows that lists the first file's positions in ascending order. |
| Ribbon.LengthSorted | mistakenot.py:128-141 | The ribbon's position grid ascends down its first column, which holds the first file's positions. |
| Ribbon.SharedQuantityOrder | mistakenot.py:114-141 | Density, ion temperature, flow, source and the electron temperature behind the pressure are all reordered by one permutation. That permutation sorts the last file's positions. |
| Ribbon.QuantityCell | mistakenot.py:104-141 | Cell `(i, n)` of the density, temperature, flow and source grids comes from one source row of table `n`, so all four stay aligned. |
| Ribbon.PressureCellOfRibbon | mistakenot.py:109-141 | Each pressure cell is the density times the summed electron and ion temperatures of one source row. The pressure is formed after sorting. |
| Ribbon.CoordinateCell | mistakenot.py:104-141 | Position cell `(i, n)` comes from table `n` at the row `argsort` of the first file's positions puts at `i`. Every radius cell of column `n` is `(start + n) / 10`, never reordered. |
| Ribbon.AssembleKeepsRows | mistakenot.py:123-141 | Sorting changes only the order of the rows of the density, temperature, flow, source and position grids. |
| Ribbon.SortedQuantityCell | mistakenot.py:114-135 | One cell of a sorted quantity grid traced back to its table and source row. |
| Ribbon.AlignedWhenPositionsAgree | mistakenot.py:114-128 | When the first and last files list the same positions, the position grid is reordered by the same permutation as the quantity grids. |
| Ribbon.MisalignedWhenPositionsDisagree | mistakenot.py:114-141 | With two files whose positions run in opposite directions, row 0 of the ribbon pairs position 0.0 with the density the first file records at position 1.0. |

## Left out

- Reading and parsing the text tables (`np.loadtxt`) is not modelled. The file system is a map from file names to the parsed tables, and a name missing from the map is a missing file (`FileNotFound`).
- A file that exists but cannot be parsed is not modelled. A file of fewer than two rows, which the reader returns as a one-dimensional array, is modelled only through `length < 2`: the shape precondition ties every file the loop reaches to `length` rows.
- Importer.ImportRibbon: requires `finish >= start`, because the code has no range check. For `finish < start - 1`, numpy raises an error on the negative width. For `finish == start - 1`, the loop never runs and `targetdata` is unbound when the key column is written.
- Importer.ImportRibbon: requires every file the loop reaches to have exactly `length` rows and at least ten columns. The code has no shape check; the column assignments fail inside numpy.
- Grids.ArgSort: numpy's default `argsort` is not stable. The model breaks ties by position order, so tied keys may be ordered differently than numpy orders them. The sortedness, permutation, shared-permutation and multiset lemmas are proved for this insertion sort only; they would also hold for any deterministic argsort, but that is not proved here. The exact grids of `Assemble` and the cell lemmas assume this tie order when the keys contain ties. `MisalignedWhenPositionsDisagree` uses keys without ties.
- Floating point is not modelled. Values are `real`, so rounding of `(start + n) / 10` and of the pressure product, and NaN ordering in `argsort`, are left out. The radius is Python 3's true division `(start + n) / 10`.
- `FluxRibbon`'s other constructor defaults (scalar `0` for the grid fields) are not modelled. The code only builds the record with all seven grids given. The shared mutable default `[0, 0, 0]` of `start` and `finish` is a plain value here.
- The electron temperature grid `Te` is computed and sorted but, as in the code, not stored in the ribbon. It appears only through the pressure.
- `FluxRibbon.plt` (matplotlib figures) is not part of this model: it only draws.
- `explainname` is not part of this model: it only prints text.
- A negative `length` is ruled out by its type `nat`. The code passes it to `np.ones` at line 91, which raises `ValueError` for a negative dimension.
- `tag` is a string. The comment at mistakenot.py:83-84 allows a number, but a number tag makes the string concatenation at line 102 raise `TypeError`, so only string tags reach the loop.
- The rows of `L` are sorted by the first file's positions, while the five quantity grids are sorted by the last file's. This is modelled as written. `AlignedWhenPositionsAgree` and `MisalignedWhenPositionsDisagree` state its consequence. It is not listed as a defect because the code does not say which files' positions it expects to agree.
