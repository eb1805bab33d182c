/**
 * The per-diagnosis accumulator `SummaryXYz(X, Y, diagnosis)` that the batch loop feeds:
 * for every pair (X[i], Y[j]) it keeps the number of encounters seen in each of the
 * eight combinations of (X[i] observed, Y[j] observed, diagnosis observed).
 * The class in `mutual_information.mf` is not part of this model; this one counts
 * exactly what its documentation says it counts.
 */
module Joint {
  import opened Seqs

  /** One encounter as an accumulator sees it: its X phenotypes, its Y phenotypes, its diagnosis. */
  datatype JointRow = JointRow(x: seq<bool>, y: seq<bool>, z: bool)

  /** The cell of the 2 x 2 x 2 table for (x, y, z). */
  function Cell(a: bool, b: bool, c: bool): (k: nat)
    ensures k < 8
  {
    (if a then 4 else 0) + (if b then 2 else 0) + (if c then 1 else 0)
  }

  /** The eight combinations go to eight different cells. */
  lemma CellInjective(a: bool, b: bool, c: bool, a': bool, b': bool, c': bool)
    ensures Cell(a, b, c) == Cell(a', b', c') <==> a == a' && b == b' && c == c'
  {
  }

  /** Every row has m X values and n Y values. */
  predicate Fits(rows: seq<JointRow>, m: nat, n: nat) {
    forall k :: 0 <= k < |rows| ==> |rows[k].x| == m && |rows[k].y| == n
  }

  /** Column i of X and column j of Y exist in every row. */
  predicate InRange(rows: seq<JointRow>, i: nat, j: nat) {
    forall k :: 0 <= k < |rows| ==> i < |rows[k].x| && j < |rows[k].y|
  }

  predicate Match(row: JointRow, i: nat, j: nat, a: bool, b: bool, c: bool)
    requires i < |row.x| && j < |row.y|
  {
    row.x[i] == a && row.y[j] == b && row.z == c
  }

  /** Number of rows with X[i] = a, Y[j] = b and diagnosis c. */
  function Count(rows: seq<JointRow>, i: nat, j: nat, a: bool, b: bool, c: bool): nat
    requires InRange(rows, i, j)
  {
    if rows == [] then 0
    else Count(rows[..|rows| - 1], i, j, a, b, c) + (if Match(rows[|rows| - 1], i, j, a, b, c) then 1 else 0)
  }

  /** The keys of the rows in cell (a, b, c) of pair (i, j), one key per row. */
  ghost function CellKeys<K>(keys: seq<K>, rows: seq<JointRow>, i: nat, j: nat, a: bool, b: bool, c: bool): set<K>
    requires |keys| == |rows| && InRange(rows, i, j)
  {
    set k | 0 <= k < |rows| && Match(rows[k], i, j, a, b, c) :: keys[k]
  }

  /** The keys in a cell are those of the rows before the last, and the last row's key if it is in the cell. */
  lemma CellKeysLast<K>(keys: seq<K>, rows: seq<JointRow>, i: nat, j: nat, a: bool, b: bool, c: bool)
    requires |keys| == |rows| > 0 && InRange(rows, i, j)
    ensures var n := |rows| - 1;
      CellKeys(keys, rows, i, j, a, b, c) ==
        CellKeys(keys[..n], rows[..n], i, j, a, b, c) + (if Match(rows[n], i, j, a, b, c) then {keys[n]} else {})
  {
  }

  /** When every row has a key of its own, a cell counts the keys of its rows. */
  lemma {:induction false} CountDistinctKeys<K>(keys: seq<K>, rows: seq<JointRow>, i: nat, j: nat, a: bool, b: bool, c: bool)
    requires NoDuplicates(keys) && |keys| == |rows| && InRange(rows, i, j)
    ensures Count(rows, i, j, a, b, c) == |CellKeys(keys, rows, i, j, a, b, c)|
  {
    if rows != [] {
      var n := |rows| - 1;
      var ks := keys[..n];
      var rs := rows[..n];
      assert NoDuplicates(ks);
      CountDistinctKeys(ks, rs, i, j, a, b, c);
      CellKeysLast(keys, rows, i, j, a, b, c);
      assert keys[n] !in CellKeys(ks, rs, i, j, a, b, c) by {
        forall k | 0 <= k < n ensures ks[k] != keys[n] {
          assert ks[k] == keys[k];
        }
      }
    }
  }

  /** The eight counts of one pair, added up. */
  function PairSum(rows: seq<JointRow>, i: nat, j: nat): nat
    requires InRange(rows, i, j)
  {
    Count(rows, i, j, false, false, false) + Count(rows, i, j, false, false, true) +
    Count(rows, i, j, false, true, false) + Count(rows, i, j, false, true, true) +
    Count(rows, i, j, true, false, false) + Count(rows, i, j, true, false, true) +
    Count(rows, i, j, true, true, false) + Count(rows, i, j, true, true, true)
  }

  /** Each row is in exactly one of the eight cells, so the counts of a pair add up to the number of rows. */
  lemma {:induction false} CountSumsToRows(rows: seq<JointRow>, i: nat, j: nat)
    requires InRange(rows, i, j)
    ensures PairSum(rows, i, j) == |rows|
  {
    if rows != [] {
      CountSumsToRows(rows[..|rows| - 1], i, j);
    }
  }

  /** Counting over two lists of rows is adding the counts of each. */
  lemma {:induction false} CountAppend(r1: seq<JointRow>, r2: seq<JointRow>, i: nat, j: nat, a: bool, b: bool, c: bool)
    requires InRange(r1, i, j) && InRange(r2, i, j)
    ensures InRange(r1 + r2, i, j)
    ensures Count(r1 + r2, i, j, a, b, c) == Count(r1, i, j, a, b, c) + Count(r2, i, j, a, b, c)
  {
    if r2 == [] {
      assert r1 + r2 == r1;
    } else {
      var r2' := r2[..|r2| - 1];
      CountAppend(r1, r2', i, j, a, b, c);
      assert (r1 + r2)[..|r1 + r2| - 1] == r1 + r2';
    }
  }

  /** Taking row k out of a list takes its contribution out of the count. */
  lemma CountRemove(rows: seq<JointRow>, k: nat, i: nat, j: nat, a: bool, b: bool, c: bool)
    requires InRange(rows, i, j) && k < |rows|
    ensures InRange(rows[..k] + rows[k + 1..], i, j)
    ensures Count(rows, i, j, a, b, c) ==
      Count(rows[..k] + rows[k + 1..], i, j, a, b, c) + (if Match(rows[k], i, j, a, b, c) then 1 else 0)
  {
    var before, x, after := rows[..k], rows[k], rows[k + 1..];
    assert rows == before + [x] + after;
    assert InRange(before, i, j) && InRange(after, i, j) && InRange([x], i, j);
    CountAppend(before, after, i, j, a, b, c);
    CountAppend(before, [x], i, j, a, b, c);
    CountAppend(before + [x], after, i, j, a, b, c);
    assert [x][..0] == [];
  }

  lemma MultisetRemove<T>(s: seq<T>, k: nat)
    requires k < |s|
    ensures multiset(s) == multiset(s[..k] + s[k + 1..]) + multiset{s[k]}
  {
    assert s == s[..k] + [s[k]] + s[k + 1..];
  }

  /** The counts depend only on which rows were seen, not on their order or how they were batched. */
  lemma {:induction false} CountPermutation(r1: seq<JointRow>, r2: seq<JointRow>, i: nat, j: nat, a: bool, b: bool, c: bool)
    requires InRange(r1, i, j) && InRange(r2, i, j) && multiset(r1) == multiset(r2)
    ensures Count(r1, i, j, a, b, c) == Count(r2, i, j, a, b, c)
    decreases |r1|
  {
    if r1 == [] {
      assert |multiset(r2)| == 0;
    } else {
      var x := r1[|r1| - 1];
      var r1' := r1[..|r1| - 1];
      assert x in multiset(r1);
      assert x in multiset(r2);
      var k :| 0 <= k < |r2| && r2[k] == x;
      var rest := r2[..k] + r2[k + 1..];
      MultisetRemove(r2, k);
      MultisetRemove(r1, |r1| - 1);
      assert r1[..|r1| - 1] + r1[|r1|..] == r1';
      assert multiset(r1') == multiset(r1) - multiset{x};
      assert multiset(rest) == multiset(r2) - multiset{x};
      assert InRange(r1', i, j);
      CountRemove(r2, k, i, j, a, b, c);
      CountPermutation(r1', rest, i, j, a, b, c);
      assert Count(r1, i, j, a, b, c) == Count(r1', i, j, a, b, c) + (if Match(x, i, j, a, b, c) then 1 else 0);
    }
  }

  /** When X and Y are the same vectors, the table of (i, j) is that of (j, i) with X and Y swapped. */
  lemma {:induction false} SelfPairSymmetric(rows: seq<JointRow>, i: nat, j: nat, a: bool, b: bool, c: bool)
    requires InRange(rows, i, j) && InRange(rows, j, i)
    requires forall k :: 0 <= k < |rows| ==> rows[k].x == rows[k].y
    ensures Count(rows, i, j, a, b, c) == Count(rows, j, i, b, a, c)
  {
    if rows != [] {
      SelfPairSymmetric(rows[..|rows| - 1], i, j, a, b, c);
    }
  }

  /** When X and Y are the same vectors, a term is never seen both present and absent: (i, i) only fills cells with x = y. */
  lemma {:induction false} SelfPairDiagonal(rows: seq<JointRow>, i: nat, a: bool, b: bool, c: bool)
    requires InRange(rows, i, i) && a != b
    requires forall k :: 0 <= k < |rows| ==> rows[k].x == rows[k].y
    ensures Count(rows, i, i, a, b, c) == 0
  {
    if rows != [] {
      SelfPairDiagonal(rows[..|rows| - 1], i, a, b, c);
    }
  }

  /** The rows of one batch: encounter r has X vector mx[r], Y vector my[r] and diagnosis z[r]. */
  function Rows(mx: seq<seq<bool>>, my: seq<seq<bool>>, z: seq<bool>): (rows: seq<JointRow>)
    requires |mx| == |z| && |my| == |z|
    ensures |rows| == |z| && forall r :: 0 <= r < |z| ==> rows[r] == JointRow(mx[r], my[r], z[r])
  {
    seq(|z|, r requires 0 <= r < |z| => JointRow(mx[r], my[r], z[r]))
  }

  /** The table holds, for every pair (i, j) and every cell, the count over `rows`. */
  predicate Tracks(table: seq<seq<seq<nat>>>, rows: seq<JointRow>, m: nat, n: nat)
    requires Fits(rows, m, n)
  {
    && |table| == m
    && forall i :: 0 <= i < m ==>
      && |table[i]| == n
      && forall j :: 0 <= j < n ==>
        && |table[i][j]| == 8
        && forall a, b, c :: table[i][j][Cell(a, b, c)] == Count(rows, i, j, a, b, c)
  }

  /** An m x n table of zeroed cells. */
  function Zeros(m: nat, n: nat): (t: seq<seq<seq<nat>>>)
    ensures Tracks(t, [], m, n)
  {
    seq(m, i requires 0 <= i < m => seq(n, j requires 0 <= j < n => seq(8, k requires 0 <= k < 8 => 0)))
  }

  /** The table after one more row: each pair's cell for that row goes up by one. */
  function Bump(table: seq<seq<seq<nat>>>, row: JointRow, m: nat, n: nat): seq<seq<seq<nat>>>
    requires |row.x| == m && |row.y| == n && |table| == m
    requires forall i :: 0 <= i < m ==> |table[i]| == n && forall j :: 0 <= j < n ==> |table[i][j]| == 8
  {
    seq(m, i requires 0 <= i < m =>
      seq(n, j requires 0 <= j < n =>
        seq(8, k requires 0 <= k < 8 =>
          table[i][j][k] + (if k == Cell(row.x[i], row.y[j], row.z) then 1 else 0))))
  }

  /** Bumping a table that counts `rows` gives one that counts `rows + [row]`. */
  lemma BumpTracks(table: seq<seq<seq<nat>>>, rows: seq<JointRow>, row: JointRow, m: nat, n: nat)
    requires Fits(rows, m, n) && |row.x| == m && |row.y| == n && Tracks(table, rows, m, n)
    ensures Fits(rows + [row], m, n)
    ensures Tracks(Bump(table, row, m, n), rows + [row], m, n)
  {
    var rows' := rows + [row];
    assert rows'[..|rows'| - 1] == rows;
    var t' := Bump(table, row, m, n);
    forall i, j, a, b, c | 0 <= i < m && 0 <= j < n
      ensures t'[i][j][Cell(a, b, c)] == Count(rows', i, j, a, b, c)
    {
      CellInjective(a, b, c, row.x[i], row.y[j], row.z);
    }
  }

  /**
   * The accumulator of one diagnosis: X and Y terms, the diagnosis, and the count table.
   * `seen` is the history of encounters added so far, in the order they were added.
   */
  class SummaryXYz {
    const xs: seq<string>
    const ys: seq<string>
    const diagnosis: string
    var table: seq<seq<seq<nat>>>
    ghost var seen: seq<JointRow>

    ghost predicate Valid()
      reads this
    {
      Fits(seen, |xs|, |ys|) && Tracks(table, seen, |xs|, |ys|)
    }

    /** A fresh accumulator has seen no encounter. */
    constructor (xs: seq<string>, ys: seq<string>, diagnosis: string)
      ensures this.xs == xs && this.ys == ys && this.diagnosis == diagnosis
      ensures seen == [] && Valid()
    {
      this.xs := xs;
      this.ys := ys;
      this.diagnosis := diagnosis;
      table := Zeros(|xs|, |ys|);
      seen := [];
    }

    /** `add_batch(X matrix, Y matrix, diagnosis vector)`: the batch's encounters are appended to what was seen. */
    method AddBatch(mx: seq<seq<bool>>, my: seq<seq<bool>>, z: seq<bool>)
      requires Valid() && |mx| == |z| && |my| == |z|
      requires forall r :: 0 <= r < |z| ==> |mx[r]| == |xs| && |my[r]| == |ys|
      modifies this
      ensures Valid() && seen == old(seen) + Rows(mx, my, z)
    {
      var rows := Rows(mx, my, z);
      var r := 0;
      while r < |z|
        invariant 0 <= r <= |z|
        invariant Valid() && seen == old(seen) + rows[..r]
      {
        var row := JointRow(mx[r], my[r], z[r]);
        BumpTracks(table, seen, row, |xs|, |ys|);
        table := Bump(table, row, |xs|, |ys|);
        seen := seen + [row];
        assert rows[..r + 1] == rows[..r] + [row];
        r := r + 1;
      }
      assert rows[..|z|] == rows;
    }

    /** The number of encounters seen with X[i] = a, Y[j] = b and diagnosis c. */
    method Get(i: nat, j: nat, a: bool, b: bool, c: bool) returns (count: nat)
      requires Valid() && i < |xs| && j < |ys|
      ensures count == Count(seen, i, j, a, b, c)
    {
      count := table[i][j][Cell(a, b, c)];
    }

    /** The eight cells of a pair add up to the number of encounters seen. */
    method PairTotal(i: nat, j: nat) returns (total: nat)
      requires Valid() && i < |xs| && j < |ys|
      ensures total == |seen|
    {
      var cells := table[i][j];
      total := cells[0] + cells[1] + cells[2] + cells[3] + cells[4] + cells[5] + cells[6] + cells[7];
      assert cells[Cell(false, false, false)] == cells[0] && cells[Cell(false, false, true)] == cells[1];
      assert cells[Cell(false, true, false)] == cells[2] && cells[Cell(false, true, true)] == cells[3];
      assert cells[Cell(true, false, false)] == cells[4] && cells[Cell(true, false, true)] == cells[5];
      assert cells[Cell(true, true, false)] == cells[6] && cells[Cell(true, true, true)] == cells[7];
      CountSumsToRows(seen, i, j);
    }
  }
}
