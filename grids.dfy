/**
  Two-dimensional numeric grids as sequences of rows, and the whole-array
  numpy operations the ribbon assembler applies to them: taking a column,
  `argsort` on a key column, fancy-indexing rows by a permutation,
  appending a column, slicing columns off, and the elementwise pressure.
 */
module Grids {

  type Row = seq<real>
  type Grid = seq<Row>

  /** `g` has shape `(rows, cols)`. */
  predicate IsGrid(g: Grid, rows: nat, cols: nat) {
    |g| == rows && forall i :: 0 <= i < |g| ==> |g[i]| == cols
  }

  /** Every row of `g` has a column `k`. */
  predicate HasColumn(g: Grid, k: nat) {
    forall i :: 0 <= i < |g| ==> k < |g[i]|
  }

  /** numpy `g[:, k]`. */
  function Column(g: Grid, k: nat): seq<real>
    requires HasColumn(g, k)
  {
    seq(|g|, i requires 0 <= i < |g| => g[i][k])
  }

  /** Every entry of `p` indexes a sequence of length `n`. */
  predicate InRange(p: seq<nat>, n: nat) {
    forall i :: 0 <= i < |p| ==> p[i] < n
  }

  /** Reading `keys` in the order `p` gives a non-decreasing sequence. */
  predicate SortedBy(keys: seq<real>, p: seq<nat>)
    requires InRange(p, |keys|)
  {
    forall i, j :: 0 <= i < j < |p| ==> keys[p[i]] <= keys[p[j]]
  }

  /** `0, 1, ..., n-1`. */
  function Indices(n: nat): seq<nat> {
    seq(n, i requires 0 <= i < n => i as nat)
  }

  /** `p` lists each of `0, ..., n-1` exactly once. */
  predicate IsPermutation(p: seq<nat>, n: nat) {
    multiset(p) == multiset(Indices(n))
  }

  /** Puts index `x` into the key-ordered index list `p`, after every index whose key is not larger. */
  function Insert(keys: seq<real>, p: seq<nat>, x: nat): (r: seq<nat>)
    requires x < |keys| && InRange(p, |keys|)
    ensures |r| == |p| + 1 && InRange(r, |keys|)
    ensures multiset(r) == multiset(p) + multiset{x}
    decreases |p|
  {
    if p == [] then [x]
    else if keys[x] < keys[p[0]] then [x] + p
    else
      assert p == [p[0]] + p[1..];
      [p[0]] + Insert(keys, p[1..], x)
  }

  lemma {:induction false} InsertSorted(keys: seq<real>, p: seq<nat>, x: nat)
    requires x < |keys| && InRange(p, |keys|) && SortedBy(keys, p)
    ensures SortedBy(keys, Insert(keys, p, x))
    decreases |p|
  {
    if p != [] && keys[p[0]] <= keys[x] {
      var rest := Insert(keys, p[1..], x);
      InsertSorted(keys, p[1..], x);
      forall k | 0 <= k < |rest| ensures keys[p[0]] <= keys[rest[k]] {
        assert rest[k] in multiset(rest);
        assert rest[k] in multiset(p[1..]) || rest[k] == x;
        if rest[k] != x {
          var m :| 0 <= m < |p[1..]| && p[1..][m] == rest[k];
          assert p[1 + m] == rest[k];
        }
      }
    }
  }

  /** The indices `0, ..., m-1` ordered by their keys. */
  function ArgSortPrefix(keys: seq<real>, m: nat): (p: seq<nat>)
    requires m <= |keys|
    ensures |p| == m && InRange(p, |keys|)
  {
    if m == 0 then [] else Insert(keys, ArgSortPrefix(keys, m - 1), m - 1)
  }

  lemma {:induction false} ArgSortPrefixSorted(keys: seq<real>, m: nat)
    requires m <= |keys|
    ensures IsPermutation(ArgSortPrefix(keys, m), m) && SortedBy(keys, ArgSortPrefix(keys, m))
  {
    if m > 0 {
      ArgSortPrefixSorted(keys, m - 1);
      InsertSorted(keys, ArgSortPrefix(keys, m - 1), m - 1);
      assert Indices(m) == Indices(m - 1) + [m - 1];
    }
  }

  /**
    numpy `argsort(keys)`: a permutation of the positions of `keys` that
    lists them in ascending key order. Ties are kept in position order here;
    numpy's default sort leaves their order unspecified, and no property
    below depends on it.
   */
  function ArgSort(keys: seq<real>): (p: seq<nat>)
    ensures |p| == |keys| && InRange(p, |keys|)
  {
    ArgSortPrefix(keys, |keys|)
  }

  /** `argsort` returns a permutation that orders the keys. */
  lemma ArgSortSpec(keys: seq<real>)
    ensures IsPermutation(ArgSort(keys), |keys|) && SortedBy(keys, ArgSort(keys))
  {
    ArgSortPrefixSorted(keys, |keys|);
  }

  /** `argsort` of two keys swaps them exactly when the second is smaller. */
  lemma ArgSortPair(a: real, b: real)
    ensures ArgSort([a, b]) == if b < a then [1, 0] else [0, 1]
  {
    var keys := [a, b];
    assert ArgSortPrefix(keys, 1) == [0];
    assert ArgSort(keys) == Insert(keys, [0], 1);
    if b >= a {
      assert Insert(keys, [0], 1) == [0] + Insert(keys, [], 1);
    }
  }

  /** numpy fancy indexing `s[p]`: the elements of `s` in the order `p`. */
  function Permute<T>(s: seq<T>, p: seq<nat>): seq<T>
    requires InRange(p, |s|)
  {
    seq(|p|, i requires 0 <= i < |p| => s[p[i]])
  }

  lemma PermuteCons<T>(s: seq<T>, a: nat, p: seq<nat>)
    requires a < |s| && InRange(p, |s|)
    ensures Permute(s, [a] + p) == [s[a]] + Permute(s, p)
  {
  }

  lemma {:induction false} PermuteInsert<T>(s: seq<T>, keys: seq<real>, p: seq<nat>, x: nat)
    requires |s| == |keys| && x < |keys| && InRange(p, |keys|)
    ensures multiset(Permute(s, Insert(keys, p, x))) == multiset(Permute(s, p)) + multiset{s[x]}
    decreases |p|
  {
    if p == [] {
      assert Permute(s, [x]) == [s[x]];
    } else if keys[x] < keys[p[0]] {
      PermuteCons(s, x, p);
    } else {
      PermuteInsert(s, keys, p[1..], x);
      PermuteCons(s, p[0], Insert(keys, p[1..], x));
      PermuteCons(s, p[0], p[1..]);
      assert [p[0]] + p[1..] == p;
    }
  }

  lemma PrefixSnoc<T>(s: seq<T>, m: nat)
    requires 0 < m <= |s|
    ensures s[..m] == s[..m - 1] + [s[m - 1]]
  {
  }

  lemma {:induction false} PermuteArgSortPrefix<T>(s: seq<T>, keys: seq<real>, m: nat)
    requires |s| == |keys| && m <= |keys|
    ensures multiset(Permute(s, ArgSortPrefix(keys, m))) == multiset(s[..m])
  {
    if m > 0 {
      PermuteArgSortPrefix(s, keys, m - 1);
      PermuteInsert(s, keys, ArgSortPrefix(keys, m - 1), m - 1);
      PrefixSnoc(s, m);
    }
  }

  /** Reordering a sequence by `argsort` of any key sequence of its length keeps its elements. */
  lemma PermuteArgSort<T>(s: seq<T>, keys: seq<real>)
    requires |s| == |keys|
    ensures multiset(Permute(s, ArgSort(keys))) == multiset(s)
  {
    PermuteArgSortPrefix(s, keys, |s|);
    assert s[..|s|] == s;
  }

  /**
    numpy `g[argsort(g[:, k])]`: the rows of `g` reordered so that column
    `k` ascends; the rows themselves are unchanged, only their order.
   */
  function SortRows(g: Grid, k: nat): (r: Grid)
    requires HasColumn(g, k)
    ensures |r| == |g|
  {
    Permute(g, ArgSort(Column(g, k)))
  }

  /** Sorting keeps the rows of `g` and leaves column `k` ascending. */
  lemma SortRowsSpec(g: Grid, k: nat)
    requires HasColumn(g, k)
    ensures HasColumn(SortRows(g, k), k)
    ensures multiset(SortRows(g, k)) == multiset(g)
    ensures forall i, j :: 0 <= i < j < |g| ==> SortRows(g, k)[i][k] <= SortRows(g, k)[j][k]
  {
    ArgSortSpec(Column(g, k));
    PermuteArgSort(g, Column(g, k));
  }

  /** Reordering rows keeps the shape of the grid. */
  lemma SortRowsShape(g: Grid, k: nat, cols: nat)
    requires IsGrid(g, |g|, cols) && k < cols
    ensures IsGrid(SortRows(g, k), |g|, cols)
  {
  }

  /** numpy `hstack`-style append of `key` as one extra last column. */
  function WithKey(g: Grid, key: seq<real>): (r: Grid)
    requires |g| == |key|
  {
    seq(|g|, i requires 0 <= i < |g| => g[i] + [key[i]])
  }

  lemma WithKeyShape(g: Grid, key: seq<real>, cols: nat)
    requires IsGrid(g, |key|, cols)
    ensures IsGrid(WithKey(g, key), |key|, cols + 1)
  {
  }

  /** numpy `g[:, 0:w]`. */
  function Strip(g: Grid, w: nat): Grid
    requires forall i :: 0 <= i < |g| ==> w <= |g[i]|
  {
    seq(|g|, i requires 0 <= i < |g| => g[i][..w])
  }

  /** Cutting off an appended column gives back the grid it was appended to. */
  lemma StripWithKey(g: Grid, key: seq<real>, rows: nat, w: nat)
    requires IsGrid(g, rows, w) && |key| == rows
    ensures Strip(WithKey(g, key), w) == g
  {
    forall i | 0 <= i < rows ensures Strip(WithKey(g, key), w)[i] == g[i] {
      assert (g[i] + [key[i]])[..w] == g[i];
    }
  }

  /** Slicing columns commutes with reordering rows. */
  lemma StripPermute(g: Grid, p: seq<nat>, w: nat)
    requires InRange(p, |g|)
    requires forall i :: 0 <= i < |g| ==> w <= |g[i]|
    ensures Strip(Permute(g, p), w) == Permute(Strip(g, w), p)
  {
  }

  /** Static plasma pressure of one cell: density times the sum of electron and ion temperatures. */
  function CellPressure(density: real, te: real, ti: real): real {
    density * (te + ti)
  }

  /** numpy `multiply(n, te + ti)`: elementwise density times summed temperatures. */
  function Pressure(n: Grid, te: Grid, ti: Grid): (p: Grid)
    requires |te| == |n| && |ti| == |n|
    requires forall i :: 0 <= i < |n| ==> |te[i]| == |n[i]| && |ti[i]| == |n[i]|
    ensures |p| == |n| && forall i :: 0 <= i < |n| ==> |p[i]| == |n[i]|
  {
    seq(|n|, i requires 0 <= i < |n| =>
      seq(|n[i]|, j requires 0 <= j < |n[i]| => CellPressure(n[i][j], te[i][j], ti[i][j])))
  }

  /**
    Reordering the rows of density and temperatures alike and then forming
    the pressure gives the pressure of the unsorted grids, reordered the same way.
   */
  lemma PressurePermute(n: Grid, te: Grid, ti: Grid, p: seq<nat>)
    requires |te| == |n| && |ti| == |n| && InRange(p, |n|)
    requires forall i :: 0 <= i < |n| ==> |te[i]| == |n[i]| && |ti[i]| == |n[i]|
    ensures Pressure(Permute(n, p), Permute(te, p), Permute(ti, p)) == Permute(Pressure(n, te, ti), p)
  {
  }

  /** One cell of the pressure grid. */
  lemma PressureCell(n: Grid, te: Grid, ti: Grid, i: nat, j: nat)
    requires |te| == |n| && |ti| == |n|
    requires forall i :: 0 <= i < |n| ==> |te[i]| == |n[i]| && |ti[i]| == |n[i]|
    requires i < |n| && j < |n[i]|
    ensures Pressure(n, te, ti)[i][j] == CellPressure(n[i][j], te[i][j], ti[i][j])
  {
  }
}
