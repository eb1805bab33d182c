/**
 * Turning the flat phenotype query results of one batch into matrices:
 * `reshape([batch_size_actual, size], order='F')` of the VALUE and MAP_TO
 * columns, and the row-0 label check that guards it.
 */
module Reshape {
  import opened Batching
  import opened Cohort

  /** The two phenotype sources: text mining of reports and lab tests. */
  datatype Family = TextHpo | LabHpo

  /** A row of textHpoFlat or labHpoFlat: an encounter, an HPO term and whether it was called. */
  datatype Observation = Observation(enc: EncounterId, code: string, value: bool)

  /** A matrix with `rows` rows of `cols` entries each. */
  predicate Shaped<T>(m: seq<seq<T>>, rows: nat, cols: nat) {
    |m| == rows && forall r :: 0 <= r < rows ==> |m[r]| == cols
  }

  /** Position of entry (r, c) of a rows x cols matrix in its column-major (Fortran order) flattening. */
  function FlatIndex(rows: nat, cols: nat, r: nat, c: nat): (k: nat)
    requires r < rows && c < cols
    ensures k < rows * cols
  {
    MulMonotone(c, cols - 1, rows);
    assert (cols - 1) * rows == cols * rows - rows;
    c * rows + r
  }

  /** `flat.reshape([rows, cols], order='F')`. */
  function ColumnMajor<T>(flat: seq<T>, rows: nat, cols: nat): (m: seq<seq<T>>)
    requires |flat| == rows * cols
    ensures Shaped(m, rows, cols)
    ensures forall r, c :: 0 <= r < rows && 0 <= c < cols ==> m[r][c] == flat[FlatIndex(rows, cols, r, c)]
  {
    seq(rows, r requires 0 <= r < rows =>
      seq(cols, c requires 0 <= c < cols => flat[FlatIndex(rows, cols, r, c)]))
  }

  /** The first k columns of m, one after the other: the column-major flattening of m[.., ..k]. */
  function Flatten<T>(m: seq<seq<T>>, rows: nat, cols: nat, k: nat): (f: seq<T>)
    requires Shaped(m, rows, cols) && k <= cols
    ensures |f| == k * rows
  {
    if k == 0 then []
    else
      assert k * rows == (k - 1) * rows + rows;
      Flatten(m, rows, cols, k - 1) + seq(rows, r requires 0 <= r < rows => m[r][k - 1])
  }

  /** Entry (r, c) of m sits at FlatIndex(rows, k, r, c) of the flattening of its first k columns. */
  lemma {:induction false} FlattenIndex<T>(m: seq<seq<T>>, rows: nat, cols: nat, k: nat)
    requires Shaped(m, rows, cols) && k <= cols
    ensures forall r, c :: 0 <= r < rows && 0 <= c < k ==> Flatten(m, rows, cols, k)[FlatIndex(rows, k, r, c)] == m[r][c]
  {
    if k > 0 {
      FlattenIndex(m, rows, cols, k - 1);
      var f := Flatten(m, rows, cols, k);
      var prefix := Flatten(m, rows, cols, k - 1);
      assert k * rows == (k - 1) * rows + rows;
      forall r, c | 0 <= r < rows && 0 <= c < k
        ensures f[FlatIndex(rows, k, r, c)] == m[r][c]
      {
        if c < k - 1 {
          assert FlatIndex(rows, k, r, c) == FlatIndex(rows, k - 1, r, c);
        } else {
          assert FlatIndex(rows, k, r, c) == |prefix| + r;
        }
      }
    }
  }

  /** Every index i of a rows x cols flattening is the position of entry (i % rows, i / rows). */
  lemma FlatIndexOnto(rows: nat, cols: nat, i: nat)
    requires i < rows * cols
    ensures rows > 0 && i % rows < rows && i / rows < cols
    ensures FlatIndex(rows, cols, i % rows, i / rows) == i
  {
    assert rows > 0;
    assert i == (i / rows) * rows + i % rows;
    if i / rows >= cols {
      MulMonotone(cols, i / rows, rows);
    }
  }

  /** Flattening a reshaped list in column-major order gives the list back. */
  lemma FlattenReshape<T>(flat: seq<T>, rows: nat, cols: nat)
    requires |flat| == rows * cols
    ensures Flatten(ColumnMajor(flat, rows, cols), rows, cols, cols) == flat
  {
    var m := ColumnMajor(flat, rows, cols);
    var f := Flatten(m, rows, cols, cols);
    FlattenIndex(m, rows, cols, cols);
    forall i | 0 <= i < |flat|
      ensures f[i] == flat[i]
    {
      FlatIndexOnto(rows, cols, i);
      assert f[FlatIndex(rows, cols, i % rows, i / rows)] == m[i % rows][i / rows];
    }
  }

  /** Reshaping the column-major flattening of a matrix gives the matrix back. */
  lemma ReshapeFlatten<T>(m: seq<seq<T>>, rows: nat, cols: nat)
    requires Shaped(m, rows, cols)
    ensures ColumnMajor(Flatten(m, rows, cols, cols), rows, cols) == m
  {
    FlattenIndex(m, rows, cols, cols);
    var f := Flatten(m, rows, cols, cols);
    var m' := ColumnMajor(f, rows, cols);
    forall r | 0 <= r < rows
      ensures m'[r] == m[r]
    {
      assert forall c :: 0 <= c < cols ==> m'[r][c] == m[r][c];
    }
  }

  /** The MAP_TO column. */
  function Codes(flat: seq<Observation>): (s: seq<string>)
    ensures |s| == |flat| && forall k :: 0 <= k < |flat| ==> s[k] == flat[k].code
  {
    seq(|flat|, k requires 0 <= k < |flat| => flat[k].code)
  }

  /** The VALUE column. */
  function Values(flat: seq<Observation>): (s: seq<bool>)
    ensures |s| == |flat| && forall k :: 0 <= k < |flat| ==> s[k] == flat[k].value
  {
    seq(|flat|, k requires 0 <= k < |flat| => flat[k].value)
  }

  /** `(labelsMatrix[0, :] == ofInterest).all()` for the column-major reshape of the MAP_TO column. */
  predicate Row0Matches(flat: seq<Observation>, rows: nat, ofInterest: seq<string>)
    requires rows > 0 && |flat| == rows * |ofInterest|
  {
    ColumnMajor(Codes(flat), rows, |ofInterest|)[0] == ofInterest
  }

  /**
   * The label check looks at exactly one entry per column: the first, at c * rows.
   * It passes iff each of those carries the term of its column.
   */
  lemma LabelCheckIff(flat: seq<Observation>, rows: nat, ofInterest: seq<string>)
    requires rows > 0 && |flat| == rows * |ofInterest|
    ensures Row0Matches(flat, rows, ofInterest) <==>
      forall c :: 0 <= c < |ofInterest| ==> flat[FlatIndex(rows, |ofInterest|, 0, c)].code == ofInterest[c]
  {
    var row0 := ColumnMajor(Codes(flat), rows, |ofInterest|)[0];
    if forall c :: 0 <= c < |ofInterest| ==> flat[FlatIndex(rows, |ofInterest|, 0, c)].code == ofInterest[c] {
      assert forall c :: 0 <= c < |ofInterest| ==> row0[c] == ofInterest[c];
    }
  }

  /**
   * The flat list is in the order the reshape assumes: encounter r of the batch and
   * term c of interest at position c * rows + r, for every r and c.
   */
  predicate LaidOut(flat: seq<Observation>, encs: seq<EncounterId>, ofInterest: seq<string>) {
    && |flat| == |encs| * |ofInterest|
    && forall r, c :: 0 <= r < |encs| && 0 <= c < |ofInterest| ==>
      flat[FlatIndex(|encs|, |ofInterest|, r, c)].enc == encs[r] &&
      flat[FlatIndex(|encs|, |ofInterest|, r, c)].code == ofInterest[c]
  }

  /** A laid-out non-empty batch passes the label check. */
  lemma LaidOutPasses(flat: seq<Observation>, encs: seq<EncounterId>, ofInterest: seq<string>)
    requires LaidOut(flat, encs, ofInterest) && |encs| > 0
    ensures Row0Matches(flat, |encs|, ofInterest)
  {
    LabelCheckIff(flat, |encs|, ofInterest);
  }

  /** The phenotype is called for the encounter: a profile row for the pair with OCCURRANCE >= minOccurrence. */
  predicate Called(profile: seq<ProfileRecord>, minOccurrence: int, enc: EncounterId, term: string) {
    exists rec :: rec in profile && rec.enc == enc && rec.term == term && rec.occurrence >= minOccurrence
  }

  /**
   * The rows of the batch phenotype query (encounters JOIN terms of interest LEFT JOIN the
   * filtered profile), in the encounter-fastest order that the reshape assumes.
   */
  function BatchObservations(encs: seq<EncounterId>, ofInterest: seq<string>, profile: seq<ProfileRecord>, minOccurrence: int)
    : seq<Observation>
  {
    var grid := seq(|encs|, r requires 0 <= r < |encs| =>
      seq(|ofInterest|, c requires 0 <= c < |ofInterest| =>
        Observation(encs[r], ofInterest[c], Called(profile, minOccurrence, encs[r], ofInterest[c]))));
    Flatten(grid, |encs|, |ofInterest|, |ofInterest|)
  }

  /**
   * Delivered in that order, the batch passes the check and its value matrix says,
   * for encounter r and term c, whether the term was called for the encounter.
   */
  lemma BatchObservationsReshape(encs: seq<EncounterId>, ofInterest: seq<string>, profile: seq<ProfileRecord>, minOccurrence: int)
    ensures var flat := BatchObservations(encs, ofInterest, profile, minOccurrence);
      && LaidOut(flat, encs, ofInterest)
      && (|encs| > 0 ==> Row0Matches(flat, |encs|, ofInterest))
      && forall r, c :: 0 <= r < |encs| && 0 <= c < |ofInterest| ==>
        ColumnMajor(Values(flat), |encs|, |ofInterest|)[r][c] == Called(profile, minOccurrence, encs[r], ofInterest[c])
  {
    var grid := seq(|encs|, r requires 0 <= r < |encs| =>
      seq(|ofInterest|, c requires 0 <= c < |ofInterest| =>
        Observation(encs[r], ofInterest[c], Called(profile, minOccurrence, encs[r], ofInterest[c]))));
    FlattenIndex(grid, |encs|, |ofInterest|, |ofInterest|);
    var flat := BatchObservations(encs, ofInterest, profile, minOccurrence);
    assert flat == Flatten(grid, |encs|, |ofInterest|, |ofInterest|);
    if |encs| > 0 {
      LaidOutPasses(flat, encs, ofInterest);
    }
  }

  /**
   * The check does not look past row 0: two encounters whose second-row labels are swapped
   * pass it, although the list is not laid out, so e2's value for term b lands in column a.
   */
  lemma SwappedRowPasses(e1: EncounterId, e2: EncounterId, a: string, b: string, v1: bool, v2: bool, v3: bool, v4: bool)
    requires a != b
    ensures var encs, terms := [e1, e2], [a, b];
      var flat := [Observation(e1, a, v1), Observation(e2, b, v2), Observation(e1, b, v3), Observation(e2, a, v4)];
      && Row0Matches(flat, |encs|, terms)
      && !LaidOut(flat, encs, terms)
      && ColumnMajor(Values(flat), |encs|, |terms|)[1] == [v2, v4]
  {
    var encs, terms := [e1, e2], [a, b];
    var flat := [Observation(e1, a, v1), Observation(e2, b, v2), Observation(e1, b, v3), Observation(e2, a, v4)];
    var n := |encs|;
    assert FlatIndex(n, n, 0, 0) == 0 && FlatIndex(n, n, 0, 1) == 2;
    assert FlatIndex(n, n, 1, 0) == 1 && FlatIndex(n, n, 1, 1) == 3;
    LabelCheckIff(flat, n, terms);
    assert flat[FlatIndex(n, n, 1, 0)].code != terms[0];
  }
}
