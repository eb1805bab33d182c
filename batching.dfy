/**
 * The ROW_ID ranges that one diagnosis run fetches, batch by batch
 * (`summarize_diagnosis_textHpo_labHpo`: batch_N, TOTAL_BATCH and the
 * start/end computation of the batch loop).
 */
module Batching {

  /** An inclusive ROW_ID range, as in `ROW_ID BETWEEN first AND last`. */
  datatype Range = Range(first: int, last: int)

  predicate Contains(r: Range, id: int) {
    r.first <= id <= r.last
  }

  /** Number of ROW_IDs the range spans. */
  function Size(r: Range): int {
    r.last - r.first + 1
  }

  /** math.ceil(n / b) for a non-negative n and a positive b. */
  function CeilDiv(n: nat, b: nat): (t: nat)
    requires b > 0
    ensures (t - 1) * b < n <= t * b
  {
    var q := (n + b - 1) / b;
    assert n + b - 1 == q * b + (n + b - 1) % b;
    q
  }

  /** TOTAL_BATCH: batch_N = max - min + 1 ids, in batches of b. */
  function TotalBatches(min: int, max: int, b: nat): nat
    requires min <= max && b > 0
  {
    CeilDiv(max - min + 1, b)
  }

  /** The range of batch i: b ids from min + i*b, except the last one, which ends at batch_N. */
  function BatchRange(min: int, max: int, b: nat, i: nat): Range
    requires min <= max && b > 0 && i < TotalBatches(min, max, b)
  {
    var start := i * b + min;
    if i < TotalBatches(min, max, b) - 1 then Range(start, start + b - 1)
    else Range(start, max - min + 1)
  }

  /** All ranges of one run, in increasing order of i. */
  function Plan(min: int, max: int, b: nat): seq<Range>
    requires min <= max && b > 0
  {
    seq(TotalBatches(min, max, b), i requires 0 <= i < TotalBatches(min, max, b) => BatchRange(min, max, b, i))
  }

  lemma MulMonotone(x: int, y: int, b: nat)
    requires x <= y
    ensures x * b <= y * b
  {
    assert y * b - x * b == (y - x) * b;
  }

  /** v / b is the k with k*b <= v < (k+1)*b. */
  lemma DivUnique(v: nat, b: nat, k: int)
    requires b > 0 && k * b <= v < (k + 1) * b
    ensures v / b == k
  {
    var q := v / b;
    assert v == q * b + v % b;
    if k < q {
      MulMonotone(k + 1, q, b);
    } else if q < k {
      MulMonotone(q + 1, k, b);
    }
  }

  /**
   * Shape of the plan for any min: one range or more, the first starts at min,
   * every range but the last spans exactly b ids and is followed by the next id,
   * and the last range ends at batch_N = max - min + 1, which is max exactly when min = 1.
   */
  lemma PlanShape(min: int, max: int, b: nat)
    requires min <= max && b > 0
    ensures var p := Plan(min, max, b);
      && |p| == CeilDiv(max - min + 1, b) >= 1
      && p[0].first == min
      && (forall k :: 0 <= k < |p| - 1 ==> Size(p[k]) == b && p[k + 1].first == p[k].last + 1)
      && p[|p| - 1].last == max - min + 1
      && (p[|p| - 1].last == max <==> min == 1)
  {
    var p := Plan(min, max, b);
    var t := |p|;
    assert max - min + 1 <= t * b;
    forall k | 0 <= k < t - 1
      ensures Size(p[k]) == b && p[k + 1].first == p[k].last + 1
    {
      assert p[k] == BatchRange(min, max, b, k);
      assert p[k + 1] == BatchRange(min, max, b, k + 1);
      assert (k + 1) * b == k * b + b;
    }
  }

  /** Non-empty ranges inside [1, max], the first starting at 1, each starting right after the previous one ends. */
  predicate Contiguous(q: seq<Range>, max: int) {
    && |q| >= 1
    && q[0].first == 1
    && (forall k :: 0 <= k < |q| ==> 1 <= q[k].first <= q[k].last <= max)
    && (forall k :: 0 <= k < |q| - 1 ==> q[k + 1].first == q[k].last + 1)
  }

  /** Contiguous ranges whose last one ends at max: they tile [1, max]. */
  predicate Tiles(q: seq<Range>, max: int) {
    Contiguous(q, max) && q[|q| - 1].last == max
  }

  /** With min = 1 (ROW_ID is a fresh AUTO_INCREMENT column) the ranges tile [1, max]. */
  lemma PlanTiles(max: int, b: nat)
    requires 1 <= max && b > 0
    ensures Tiles(Plan(1, max, b), max)
  {
    PlanShape(1, max, b);
    var p := Plan(1, max, b);
    var t := |p|;
    forall k | 0 <= k < t
      ensures 1 <= p[k].first <= p[k].last <= max
    {
      assert p[k] == BatchRange(1, max, b, k);
      assert p[k].first == k * b + 1;
      assert k * b >= 0;
      if k < t - 1 {
        MulMonotone(k + 1, t - 1, b);
        assert (k + 1) * b == k * b + b;
      } else {
        assert (t - 1) * b < max;
      }
    }
  }

  /** Range k of the plan with min = 1 starts at k*b + 1 and ends at k*b + b or at max, whichever is first. */
  lemma RangeBounds(max: int, b: nat, k: nat)
    requires 1 <= max && b > 0 && k < TotalBatches(1, max, b)
    ensures var r := BatchRange(1, max, b, k);
      && r.first == k * b + 1
      && r.last <= max && r.last <= k * b + b
      && (r.last == max || r.last == k * b + b)
  {
    var t := TotalBatches(1, max, b);
    var kb := k * b;
    assert (k + 1) * b == kb + b;
    if k < t - 1 {
      MulMonotone(k + 1, t - 1, b);
    } else {
      assert (t - 1) * b < max <= t * b;
    }
  }

  /** v lies in the block of b values that starts at (v / b) * b. */
  lemma DivBounds(v: nat, b: nat)
    requires b > 0
    ensures (v / b) * b <= v < (v / b) * b + b
  {
    assert v == (v / b) * b + v % b;
  }

  /** One range k of the plan with min = 1: it holds id iff id is in [1, max] and k == (id - 1) / b. */
  lemma RangeMembership(max: int, b: nat, k: nat, id: int)
    requires 1 <= max && b > 0 && k < TotalBatches(1, max, b)
    ensures Contains(BatchRange(1, max, b, k), id) <==> 1 <= id <= max && k == (id - 1) / b
  {
    var r := BatchRange(1, max, b, k);
    RangeBounds(max, b, k);
    assert k * b >= 0;
    if Contains(r, id) {
      assert (k + 1) * b == k * b + b;
      DivUnique(id - 1, b, k);
    }
    if 1 <= id <= max && k == (id - 1) / b {
      DivBounds(id - 1, b);
    }
  }

  /**
   * Coverage and disjointness with min = 1: an id lies in range k iff it is in [1, max]
   * and k is (id - 1) / b. So every id of [1, max] is in exactly one range and no other id is in any.
   */
  lemma PlanCovers(max: int, b: nat, id: int)
    requires 1 <= max && b > 0
    ensures var p := Plan(1, max, b);
      forall k :: 0 <= k < |p| ==> (Contains(p[k], id) <==> 1 <= id <= max && k == (id - 1) / b)
  {
    var p := Plan(1, max, b);
    forall k | 0 <= k < |p|
      ensures Contains(p[k], id) <==> 1 <= id <= max && k == (id - 1) / b
    {
      RangeMembership(max, b, k, id);
    }
  }

  /**
   * Sizes with min = 1: the count of ranges is ceil(N / b), every range but the last
   * spans b ids, the last spans N - (T-1)*b ids, which is between 1 and b, and
   * N <= b gives exactly one range.
   */
  lemma PlanSizes(max: int, b: nat)
    requires 1 <= max && b > 0
    ensures var p := Plan(1, max, b);
      && (|p| - 1) * b < max <= |p| * b
      && (forall k :: 0 <= k < |p| - 1 ==> Size(p[k]) == b)
      && Size(p[|p| - 1]) == max - (|p| - 1) * b
      && 1 <= Size(p[|p| - 1]) <= b
      && (max <= b ==> |p| == 1)
  {
    PlanShape(1, max, b);
    var p := Plan(1, max, b);
    var t := |p|;
    assert p[t - 1] == BatchRange(1, max, b, t - 1);
    assert t * b == (t - 1) * b + b;
    if max <= b && t > 1 {
      MulMonotone(1, t - 1, b);
    }
  }

  /** Ten ids in batches of four: [1,4], [5,8], [9,10]. */
  lemma TenIdsInBatchesOfFour()
    ensures Plan(1, 10, 4) == [Range(1, 4), Range(5, 8), Range(9, 10)]
  {
    assert CeilDiv(10, 4) == 3;
  }

  /** A batch size no smaller than the population gives one range over the whole population. */
  lemma OversizedBatch(max: int, b: nat)
    requires 1 <= max <= b
    ensures Plan(1, max, b) == [Range(1, max)]
  {
    PlanSizes(max, b);
    var p := Plan(1, max, b);
    assert |p| == 1;
    assert 0 * b == 0;
    assert p[0] == BatchRange(1, max, b, 0) == Range(1, max);
  }

  /**
   * Without min = 1 the formula loses ids: a population of at most b ids from min > 1 gives
   * the single range [min, batch_N], which ends before max.
   */
  lemma ShiftedMinLosesIds(min: int, max: int, b: nat)
    requires 1 < min <= max && max - min + 1 <= b
    ensures Plan(min, max, b) == [Range(min, max - min + 1)]
    ensures !Contains(Plan(min, max, b)[0], max)
  {
    PlanShape(min, max, b);
    var p := Plan(min, max, b);
    assert |p| == 1 by {
      if |p| > 1 {
        MulMonotone(1, |p| - 1, b);
      }
    }
    assert p[0] == BatchRange(min, max, b, 0);
  }
}
