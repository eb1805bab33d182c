/**
 * The tables of one diagnosis run: JAX_encounterOfInterest, the phenotype profiles,
 * the labelled table JAX_mf_diag built by `createDiagnosisTable`, its ROW_ID
 * index (`indexDiagnosisTable`) and the rows a batch range selects.
 */
module Cohort {
  import opened Wrappers
  import opened Seqs
  import opened Batching

  /** An encounter: a (SUBJECT_ID, HADM_ID) pair. */
  datatype EncounterId = EncounterId(subject: int, hadm: int)

  /** A row of JAX_diagnosisProfile: one ICD-9 code of one encounter, with its rank SEQ_NUM. */
  datatype DiagnosisRecord = DiagnosisRecord(enc: EncounterId, icd9: string, seqNum: int)

  /**
   * A row of JAX_textHpoProfile or JAX_labHpoProfile: how often the HPO term MAP_TO
   * was seen in one encounter (OCCURRANCE).
   */
  datatype ProfileRecord = ProfileRecord(enc: EncounterId, term: string, occurrence: int)

  /** The default N of `encounterOfInterest`. */
  const DebugLimit: nat := 100

  /**
   * JAX_encounterOfInterest: the distinct admissions; in debug mode `LIMIT limit`.
   * Either the limit is reached or every admission is kept.
   */
  function EncountersOfInterest(admissions: seq<EncounterId>, debug: bool, limit: nat): (r: seq<EncounterId>)
    ensures NoDuplicates(r)
    ensures forall e :: e in r ==> e in admissions
    ensures debug ==> |r| <= limit
    ensures !debug || |r| < limit ==> forall e :: e in admissions ==> e in r
  {
    var d := Distinct(admissions);
    if debug && limit < |d| then d[..limit] else d
  }

  /** With at least `DebugLimit` distinct admissions, debug mode keeps exactly 100 encounters. */
  lemma DebugModeKeepsLimit(admissions: seq<EncounterId>)
    requires |set e | e in admissions| >= DebugLimit
    ensures |EncountersOfInterest(admissions, true, DebugLimit)| == 100
  {
    var r := EncountersOfInterest(admissions, true, DebugLimit);
    NoDuplicatesCardinality(r);
    if |r| < DebugLimit {
      assert (set e | e in admissions) <= (set e | e in r);
      SubsetCardinality(set e | e in admissions, set e | e in r);
    }
  }

  /** `ICD9_CODE LIKE 'p%'`: the code starts with p (the same or a more detailed code). */
  predicate IsPrefix(p: string, s: string) {
    |p| <= |s| && s[..|p|] == p
  }

  /** A diagnosis row that counts for `diagnosis`; with primaryOnly only the primary (SEQ_NUM = 1) row counts. */
  predicate Matches(rec: DiagnosisRecord, diagnosis: string, primaryOnly: bool) {
    IsPrefix(diagnosis, rec.icd9) && (primaryOnly ==> rec.seqNum == 1)
  }

  /** The CTE `d`: encounters with a row that counts. */
  function PositiveEncounters(profile: seq<DiagnosisRecord>, diagnosis: string, primaryOnly: bool): set<EncounterId>
  {
    set rec | rec in profile && Matches(rec, diagnosis, primaryOnly) :: rec.enc
  }

  /** A row of JAX_mf_diag before it is indexed. */
  datatype LabelledEncounter = LabelledEncounter(enc: EncounterId, diagnosis: bool)

  /**
   * JAX_mf_diag: DISTINCT encounters of interest LEFT JOIN d; DIAGNOSIS is 1 iff
   * the encounter has a row that counts, and 0 for every unmatched encounter.
   */
  function DiagnosisTable(encounters: seq<EncounterId>, profile: seq<DiagnosisRecord>, diagnosis: string, primaryOnly: bool)
    : (t: seq<LabelledEncounter>)
    ensures |t| == |Distinct(encounters)|
    ensures forall k :: 0 <= k < |t| ==> t[k].enc == Distinct(encounters)[k]
    ensures forall k :: 0 <= k < |t| ==>
      (t[k].diagnosis <==> exists rec :: rec in profile && rec.enc == t[k].enc && Matches(rec, diagnosis, primaryOnly))
  {
    var positives := PositiveEncounters(profile, diagnosis, primaryOnly);
    var encs := Distinct(encounters);
    seq(|encs|, k requires 0 <= k < |encs| => LabelledEncounter(encs[k], encs[k] in positives))
  }

  /** The labelled table has exactly one row per encounter of interest. */
  lemma OneRowPerEncounter(encounters: seq<EncounterId>, profile: seq<DiagnosisRecord>, diagnosis: string, primaryOnly: bool)
    ensures var t := DiagnosisTable(encounters, profile, diagnosis, primaryOnly);
      && (forall e :: e in encounters <==> exists k :: 0 <= k < |t| && t[k].enc == e)
      && (forall k1, k2 :: 0 <= k1 < |t| && 0 <= k2 < |t| && t[k1].enc == t[k2].enc ==> k1 == k2)
  {
    var t := DiagnosisTable(encounters, profile, diagnosis, primaryOnly);
    var d := Distinct(encounters);
    forall e | e in encounters
      ensures exists k :: 0 <= k < |t| && t[k].enc == e
    {
      assert e in d;
      var k :| 0 <= k < |d| && d[k] == e;
      assert t[k].enc == e;
    }
    forall k1, k2 | 0 <= k1 < |t| && 0 <= k2 < |t| && t[k1].enc == t[k2].enc
      ensures k1 == k2
    {
      assert d[k1] == d[k2];
    }
  }

  /** A row of the indexed JAX_mf_diag, with its ROW_ID. */
  datatype IndexedRow = IndexedRow(rowId: int, enc: EncounterId, diagnosis: bool)

  /** ROW_IDs are 1, 2, ... in table order. */
  predicate Numbered(ix: seq<IndexedRow>) {
    forall k :: 0 <= k < |ix| ==> ix[k].rowId == k + 1
  }

  /** `ADD COLUMN ROW_ID INT AUTO_INCREMENT PRIMARY KEY` on a fresh table numbers the rows from 1. */
  function IndexDiagnosisTable(t: seq<LabelledEncounter>): (ix: seq<IndexedRow>)
    ensures Numbered(ix) && |ix| == |t|
    ensures forall k :: 0 <= k < |t| ==> ix[k].enc == t[k].enc && ix[k].diagnosis == t[k].diagnosis
  {
    seq(|t|, k requires 0 <= k < |t| => IndexedRow(k + 1, t[k].enc, t[k].diagnosis))
  }

  /** `SELECT MIN(ROW_ID), MAX(ROW_ID)`; both are NULL on an empty table. */
  function RowIdRange(ix: seq<IndexedRow>): (r: Option<(int, int)>)
    ensures r.None? <==> ix == []
    ensures r.Some? ==> r.value.0 <= r.value.1
    ensures r.Some? ==> forall k :: 0 <= k < |ix| ==> r.value.0 <= ix[k].rowId <= r.value.1
    ensures r.Some? ==> exists k :: 0 <= k < |ix| && ix[k].rowId == r.value.0
    ensures r.Some? ==> exists k :: 0 <= k < |ix| && ix[k].rowId == r.value.1
  {
    if ix == [] then None
    else
      var id := ix[|ix| - 1].rowId;
      var rest := RowIdRange(ix[..|ix| - 1]);
      assert forall k :: 0 <= k < |ix| - 1 ==> ix[..|ix| - 1][k] == ix[k];
      match rest
      case None => Some((id, id))
      case Some((lo, hi)) => Some((if id < lo then id else lo, if id > hi then id else hi))
  }

  /** The indexed table's ROW_IDs run from exactly 1 to its size: the planner's min is 1. */
  lemma NumberedRange(ix: seq<IndexedRow>)
    requires Numbered(ix) && |ix| > 0
    ensures RowIdRange(ix) == Some((1, |ix|))
  {
    var r := RowIdRange(ix);
    assert ix[0].rowId == 1 && ix[|ix| - 1].rowId == |ix|;
  }

  /** `SELECT * FROM JAX_mf_diag WHERE ROW_ID BETWEEN first AND last`, in ROW_ID order. */
  function RowsBetween(ix: seq<IndexedRow>, first: int, last: int): seq<IndexedRow>
  {
    if ix == [] then []
    else
      var row := ix[|ix| - 1];
      RowsBetween(ix[..|ix| - 1], first, last) + (if first <= row.rowId <= last then [row] else [])
  }

  /** A range selects exactly the rows whose ROW_ID lies in it. */
  lemma {:induction false} RowsBetweenMembers(ix: seq<IndexedRow>, first: int, last: int)
    ensures forall x :: x in RowsBetween(ix, first, last) <==> x in ix && first <= x.rowId <= last
  {
    if ix != [] {
      var p := ix[..|ix| - 1];
      RowsBetweenMembers(p, first, last);
      assert ix == p + [ix[|ix| - 1]];
    }
  }

  /** Selecting from two tables one after the other is selecting from their concatenation. */
  lemma {:induction false} RowsBetweenAppend(a: seq<IndexedRow>, b: seq<IndexedRow>, first: int, last: int)
    ensures RowsBetween(a + b, first, last) == RowsBetween(a, first, last) + RowsBetween(b, first, last)
  {
    if b == [] {
      assert a + b == a;
    } else {
      var b' := b[..|b| - 1];
      RowsBetweenAppend(a, b', first, last);
      assert (a + b)[..|a + b| - 1] == a + b';
    }
  }

  /** A range that holds every ROW_ID of a table selects all of it. */
  lemma {:induction false} RowsBetweenAll(ix: seq<IndexedRow>, first: int, last: int)
    requires forall k :: 0 <= k < |ix| ==> first <= ix[k].rowId <= last
    ensures RowsBetween(ix, first, last) == ix
  {
    if ix != [] {
      RowsBetweenAll(ix[..|ix| - 1], first, last);
    }
  }

  /** A range that holds no ROW_ID of a table selects nothing. */
  lemma {:induction false} RowsBetweenNone(ix: seq<IndexedRow>, first: int, last: int)
    requires forall k :: 0 <= k < |ix| ==> !(first <= ix[k].rowId <= last)
    ensures RowsBetween(ix, first, last) == []
  {
    if ix != [] {
      RowsBetweenNone(ix[..|ix| - 1], first, last);
    }
  }

  /** On a numbered table a range inside [1, size] selects the contiguous slice of its ROW_IDs. */
  lemma NumberedSlice(ix: seq<IndexedRow>, first: int, last: int)
    requires Numbered(ix) && 1 <= first && first - 1 <= last <= |ix|
    ensures RowsBetween(ix, first, last) == ix[first - 1..last]
  {
    var before, inside, after := ix[..first - 1], ix[first - 1..last], ix[last..];
    assert ix == before + inside + after;
    forall k | 0 <= k < |before| ensures !(first <= before[k].rowId <= last) {
      assert before[k] == ix[k];
    }
    forall k | 0 <= k < |inside| ensures first <= inside[k].rowId <= last {
      assert inside[k] == ix[first - 1 + k];
    }
    forall k | 0 <= k < |after| ensures !(first <= after[k].rowId <= last) {
      assert after[k] == ix[last + k];
    }
    RowsBetweenNone(before, first, last);
    RowsBetweenAll(inside, first, last);
    RowsBetweenNone(after, first, last);
    RowsBetweenAppend(before, inside, first, last);
    assert RowsBetween(before + inside, first, last) == inside;
    RowsBetweenAppend(before + inside, after, first, last);
  }

  /** The rows that the first k ranges of a plan select, concatenated in plan order. */
  function Gathered(ix: seq<IndexedRow>, plan: seq<Range>, k: nat): seq<IndexedRow>
    requires k <= |plan|
  {
    if k == 0 then []
    else Gathered(ix, plan, k - 1) + RowsBetween(ix, plan[k - 1].first, plan[k - 1].last)
  }

  /** Range k of contiguous ranges extends what the ranges before it gather up to its own end. */
  lemma GatheredNext(ix: seq<IndexedRow>, q: seq<Range>, k: nat)
    requires Numbered(ix) && Contiguous(q, |ix|) && 1 <= k <= |q|
    requires k > 1 ==> Gathered(ix, q, k - 1) == ix[..q[k - 2].last]
    ensures Gathered(ix, q, k) == ix[..q[k - 1].last]
  {
    var r := q[k - 1];
    assert 1 <= r.first <= r.last <= |ix|;
    NumberedSlice(ix, r.first, r.last);
    if k > 1 {
      assert q[k - 2].last == r.first - 1;
      PrefixSplit(ix, r.first - 1, r.last);
    } else {
      assert r.first == 1 && Gathered(ix, q, 0) == [];
    }
  }

  /** Contiguous ranges inside [1, size] starting at 1: the first k gather the table up to the end of range k. */
  lemma {:induction false} GatheredTiles(ix: seq<IndexedRow>, q: seq<Range>, k: nat)
    requires Numbered(ix) && Contiguous(q, |ix|) && 1 <= k <= |q|
    ensures Gathered(ix, q, k) == ix[..q[k - 1].last]
    ensures k == |q| && Tiles(q, |ix|) ==> Gathered(ix, q, k) == ix
  {
    if k > 1 {
      GatheredTiles(ix, q, k - 1);
    }
    GatheredNext(ix, q, k);
    if k == |q| && Tiles(q, |ix|) {
      assert ix[..|ix|] == ix;
    }
  }

  /** Over the whole plan every row of the table is fetched once, in ROW_ID order. */
  lemma PlanPartitionsTable(ix: seq<IndexedRow>, b: nat)
    requires Numbered(ix) && |ix| > 0 && b > 0
    ensures Gathered(ix, Plan(1, |ix|, b), |Plan(1, |ix|, b)|) == ix
  {
    PlanTiles(|ix|, b);
    GatheredTiles(ix, Plan(1, |ix|, b), |Plan(1, |ix|, b)|);
  }

  /** The DIAGNOSIS column of fetched rows, as the diagnosis vector. */
  function DiagnosisVector(rows: seq<IndexedRow>): (z: seq<bool>)
    ensures |z| == |rows| && forall k :: 0 <= k < |rows| ==> z[k] == rows[k].diagnosis
  {
    seq(|rows|, k requires 0 <= k < |rows| => rows[k].diagnosis)
  }
}
