/**
 * `summarize_diagnosis_textHpo_labHpo`: for every diagnosis of interest, label the encounters,
 * rank the phenotypes, plan the ROW_ID batches, validate and reshape each batch, and feed the
 * non-empty ones to three accumulators (text x lab, text x text, lab x lab).
 *
 * The database is a value: the queries are the functions of the other modules, except the two
 * batch phenotype queries, whose rows (for a diagnosis and a ROW_ID range) are arbitrary inputs
 * because the SQL gives them no ORDER BY.
 */
module Pipeline {
  import opened Wrappers
  import opened Seqs
  import opened Batching
  import opened Cohort
  import opened Reshape
  import opened Joint
  import opened Ranking
  import opened Variables

  /** `batch_size = 100`. */
  const BatchSize: nat := 100

  /** The diagnoses of the older analysis.py, which overwrites the calculated list with them. */
  const LegacyDiseases: seq<string> := ["428", "584", "038"]

  /** The parameters of a run. */
  datatype Config = Config(
    primaryOnly: bool,
    textMinOccurrence: int,
    labMinOccurrence: int,
    diagnosisThresholdMin: int,
    textThresholdMin: int,
    textThresholdMax: int,
    labThresholdMin: int,
    labThresholdMax: int,
    diseases: DiseaseArg)

  /**
   * What a run reads: the encounters of interest, DIAGNOSES_ICD, the two phenotype profiles,
   * and the rows textHpoFlat and labHpoFlat that the batch queries return for a diagnosis and
   * a ROW_ID range.
   */
  datatype Database = Database(
    encounters: seq<EncounterId>,
    diagnoses: seq<DiagnosisRecord>,
    textProfile: seq<ProfileRecord>,
    labProfile: seq<ProfileRecord>,
    textRows: (string, int, int) -> seq<Observation>,
    labRows: (string, int, int) -> seq<Observation>)

  /** JAX_mf_diag for a diagnosis, as indexed by `indexDiagnosisTable`. */
  function DiagnosisRows(db: Database, cfg: Config, d: string): (ix: seq<IndexedRow>)
    ensures Numbered(ix) && |ix| == |Distinct(db.encounters)|
  {
    IndexDiagnosisTable(DiagnosisTable(db.encounters, db.diagnoses, d, cfg.primaryOnly))
  }

  /** textHpoOfInterest: the MAP_TO of JAX_textHpoFrequencyRank rows with N between the thresholds. */
  function TextOfInterest(db: Database, cfg: Config, d: string): seq<string> {
    KeysBetween(RankHpo(db.textProfile, db.diagnoses, d, cfg.textMinOccurrence), cfg.textThresholdMin, cfg.textThresholdMax)
  }

  /** labHpoOfInterest, likewise from JAX_labHpoFrequencyRank. */
  function LabOfInterest(db: Database, cfg: Config, d: string): seq<string> {
    KeysBetween(RankHpo(db.labProfile, db.diagnoses, d, cfg.labMinOccurrence), cfg.labThresholdMin, cfg.labThresholdMax)
  }

  /** Which assert of the batch loop fails. */
  datatype Misalignment = RowCountMismatch(family: Family) | LabelMismatch(family: Family)

  /**
   * Why a run stops: a failed batch assert (AssertionError), NULL MIN/MAX ROW_ID on an
   * empty JAX_mf_diag (the arithmetic on them raises), or an unsupported
   * `disease_of_interest` (RuntimeError).
   */
  datatype Error = Misaligned(cause: Misalignment) | NullRowRange | Unsupported(selection: SelectionError)

  /** A validated batch: the text and lab value matrices and the diagnosis vector. */
  datatype Batch = Batch(text: seq<seq<bool>>, lab: seq<seq<bool>>, z: seq<bool>)

  /** The flat list has rows * |terms| entries, and for a non-empty batch its row-0 labels are the terms. */
  predicate Aligned(flat: seq<Observation>, rows: nat, terms: seq<string>) {
    |flat| == rows * |terms| && (rows > 0 ==> Row0Matches(flat, rows, terms))
  }

  /** One matrix row per entry of the diagnosis vector. */
  predicate WellShaped(b: Batch) {
    |b.text| == |b.z| && |b.lab| == |b.z|
  }

  /** One matrix row per encounter of the batch, one column per term. */
  predicate BatchFits(b: Batch, textTerms: seq<string>, labTerms: seq<string>) {
    WellShaped(b) && Shaped(b.text, |b.z|, |textTerms|) && Shaped(b.lab, |b.z|, |labTerms|)
  }

  /**
   * The checks and reshapes of one batch, in the order of the loop body: the two length
   * asserts, then (only for a non-empty batch) the reshapes and the two label asserts.
   * An empty batch passes and is skipped.
   */
  function CheckBatch(rows: seq<IndexedRow>, text: seq<Observation>, lab: seq<Observation>,
                      textTerms: seq<string>, labTerms: seq<string>): (r: Result<Option<Batch>, Misalignment>)
    ensures r.Ok? <==> Aligned(text, |rows|, textTerms) && Aligned(lab, |rows|, labTerms)
    ensures r.Ok? ==> (r.value.None? <==> rows == [])
    ensures r == Err(RowCountMismatch(TextHpo)) <==> |text| != |rows| * |textTerms|
    ensures r == Err(RowCountMismatch(LabHpo)) <==> |text| == |rows| * |textTerms| && |lab| != |rows| * |labTerms|
    ensures r.Err? && r.error.LabelMismatch? ==> |rows| > 0
    ensures r.Ok? && r.value.Some? ==>
      var b := r.value.value;
      && b.z == DiagnosisVector(rows)
      && BatchFits(b, textTerms, labTerms)
      && (forall i, c :: 0 <= i < |rows| && 0 <= c < |textTerms| ==>
            b.text[i][c] == text[FlatIndex(|rows|, |textTerms|, i, c)].value)
      && (forall i, c :: 0 <= i < |rows| && 0 <= c < |labTerms| ==>
            b.lab[i][c] == lab[FlatIndex(|rows|, |labTerms|, i, c)].value)
  {
    var n := |rows|;
    if |text| != n * |textTerms| then Err(RowCountMismatch(TextHpo))
    else if |lab| != n * |labTerms| then Err(RowCountMismatch(LabHpo))
    else if n == 0 then Ok(None)
    else if !Row0Matches(text, n, textTerms) then Err(LabelMismatch(TextHpo))
    else if !Row0Matches(lab, n, labTerms) then Err(LabelMismatch(LabHpo))
    else Ok(Some(Batch(ColumnMajor(Values(text), n, |textTerms|), ColumnMajor(Values(lab), n, |labTerms|), DiagnosisVector(rows))))
  }

  /** The encounters of fetched rows, in order. */
  function Encounters(rows: seq<IndexedRow>): (e: seq<EncounterId>)
    ensures |e| == |rows| && forall k :: 0 <= k < |rows| ==> e[k] == rows[k].enc
  {
    seq(|rows|, k requires 0 <= k < |rows| => rows[k].enc)
  }

  /**
   * A batch whose phenotype rows come in the order the reshape assumes passes every check,
   * and its value matrices say, per encounter and term, whether the term was called.
   */
  lemma QueriedBatchIsAccepted(rows: seq<IndexedRow>, textTerms: seq<string>, labTerms: seq<string>,
                               textProfile: seq<ProfileRecord>, labProfile: seq<ProfileRecord>,
                               textMin: int, labMin: int)
    ensures var r := CheckBatch(rows, BatchObservations(Encounters(rows), textTerms, textProfile, textMin),
                                BatchObservations(Encounters(rows), labTerms, labProfile, labMin), textTerms, labTerms);
      && r.Ok? && (r.value.Some? <==> rows != [])
      && (r.value.Some? ==>
            && (forall i, c :: 0 <= i < |rows| && 0 <= c < |textTerms| ==>
                  r.value.value.text[i][c] == Called(textProfile, textMin, rows[i].enc, textTerms[c]))
            && (forall i, c :: 0 <= i < |rows| && 0 <= c < |labTerms| ==>
                  r.value.value.lab[i][c] == Called(labProfile, labMin, rows[i].enc, labTerms[c])))
  {
    var encs := Encounters(rows);
    BatchObservationsReshape(encs, textTerms, textProfile, textMin);
    BatchObservationsReshape(encs, labTerms, labProfile, labMin);
  }

  /**
   * The batches the loop keeps after the first k ranges of the plan; the first failing
   * batch ends the run with its error.
   */
  function RunBatches(db: Database, d: string, ix: seq<IndexedRow>, plan: seq<Range>,
                      textTerms: seq<string>, labTerms: seq<string>, k: nat): (r: Result<seq<Batch>, Misalignment>)
    requires k <= |plan|
    ensures r.Ok? ==> forall j :: 0 <= j < |r.value| ==> BatchFits(r.value[j], textTerms, labTerms)
  {
    if k == 0 then Ok([])
    else
      match RunBatches(db, d, ix, plan, textTerms, labTerms, k - 1)
      case Err(e) => Err(e)
      case Ok(bs) =>
        var range := plan[k - 1];
        match CheckBatch(RowsBetween(ix, range.first, range.last), db.textRows(d, range.first, range.last),
                         db.labRows(d, range.first, range.last), textTerms, labTerms)
        case Err(e) => Err(e)
        case Ok(None) => Ok(bs)
        case Ok(Some(b)) => Ok(bs + [b])
  }

  /** The outcome of one diagnosis: its terms of interest and the batches fed to the accumulators. */
  datatype Run = Run(textTerms: seq<string>, labTerms: seq<string>, batches: seq<Batch>)

  /**
   * The iteration of the outer loop for one diagnosis. An empty JAX_mf_diag has NULL
   * MIN/MAX ROW_ID; otherwise they are 1 and the table size (NumberedRange), which fixes the plan.
   */
  function DiagnosisRun(db: Database, cfg: Config, d: string): Result<Run, Error> {
    var ix := DiagnosisRows(db, cfg, d);
    if ix == [] then Err(NullRowRange)
    else
      var plan := Plan(1, |ix|, BatchSize);
      match RunBatches(db, d, ix, plan, TextOfInterest(db, cfg, d), LabOfInterest(db, cfg, d), |plan|)
      case Err(e) => Err(Misaligned(e))
      case Ok(bs) => Ok(Run(TextOfInterest(db, cfg, d), LabOfInterest(db, cfg, d), bs))
  }

  /** A successful run carries the ranked terms of interest and batches shaped by them. */
  lemma DiagnosisRunFits(db: Database, cfg: Config, d: string)
    ensures var r := DiagnosisRun(db, cfg, d);
      && (r.Ok? ==> r.value.textTerms == TextOfInterest(db, cfg, d) && r.value.labTerms == LabOfInterest(db, cfg, d))
      && (r.Ok? ==> forall j :: 0 <= j < |r.value.batches| ==> BatchFits(r.value.batches[j], r.value.textTerms, r.value.labTerms))
  {
  }

  /** The three accumulators of a diagnosis. */
  datatype Pairing = TextLab | TextText | LabLab

  /** The X matrix a pairing passes to `add_batch`. */
  function Left(b: Batch, p: Pairing): seq<seq<bool>> {
    if p == LabLab then b.lab else b.text
  }

  /** The Y matrix a pairing passes to `add_batch`. */
  function Right(b: Batch, p: Pairing): seq<seq<bool>> {
    if p == TextText then b.text else b.lab
  }

  /** The terms of the X matrix of a pairing. */
  function XTerms(run: Run, p: Pairing): seq<string> {
    if p == LabLab then run.labTerms else run.textTerms
  }

  /** The terms of the Y matrix of a pairing. */
  function YTerms(run: Run, p: Pairing): seq<string> {
    if p == TextText then run.textTerms else run.labTerms
  }

  /** The encounter rows an accumulator of the pairing has been fed by the batches, in order. */
  function Feeds(bs: seq<Batch>, p: Pairing): seq<JointRow>
    requires forall k :: 0 <= k < |bs| ==> WellShaped(bs[k])
  {
    if bs == [] then []
    else
      var b := bs[|bs| - 1];
      assert WellShaped(b);
      Feeds(bs[..|bs| - 1], p) + Rows(Left(b, p), Right(b, p), b.z)
  }

  /** The diagnosis values of fed rows. */
  function Zs(rows: seq<JointRow>): (z: seq<bool>)
    ensures |z| == |rows| && forall k :: 0 <= k < |rows| ==> z[k] == rows[k].z
  {
    seq(|rows|, k requires 0 <= k < |rows| => rows[k].z)
  }

  /** The diagnosis vectors of the batches, one after the other. */
  function BatchZs(bs: seq<Batch>): seq<bool> {
    if bs == [] then [] else BatchZs(bs[..|bs| - 1]) + bs[|bs| - 1].z
  }

  lemma {:induction false} FeedsZs(bs: seq<Batch>, p: Pairing)
    requires forall k :: 0 <= k < |bs| ==> WellShaped(bs[k])
    ensures Zs(Feeds(bs, p)) == BatchZs(bs)
  {
    if bs != [] {
      var b := bs[|bs| - 1];
      var prefix := bs[..|bs| - 1];
      FeedsZs(prefix, p);
      var rows := Rows(Left(b, p), Right(b, p), b.z);
      assert Zs(rows) == b.z;
      assert Zs(Feeds(prefix, p) + rows) == Zs(Feeds(prefix, p)) + Zs(rows);
    }
  }

  /** Fed rows carry as many X and Y values as the pairing has terms. */
  lemma {:induction false} FeedsFit(bs: seq<Batch>, textTerms: seq<string>, labTerms: seq<string>)
    requires forall k :: 0 <= k < |bs| ==> BatchFits(bs[k], textTerms, labTerms)
    ensures forall k :: 0 <= k < |bs| ==> WellShaped(bs[k])
    ensures Fits(Feeds(bs, TextLab), |textTerms|, |labTerms|)
    ensures Fits(Feeds(bs, TextText), |textTerms|, |textTerms|)
    ensures Fits(Feeds(bs, LabLab), |labTerms|, |labTerms|)
  {
    if bs != [] {
      FeedsFit(bs[..|bs| - 1], textTerms, labTerms);
    }
  }

  /** Fed rows of a self pairing have X == Y. */
  lemma {:induction false} SelfFeeds(bs: seq<Batch>, p: Pairing)
    requires forall k :: 0 <= k < |bs| ==> WellShaped(bs[k])
    requires p != TextLab
    ensures forall k :: 0 <= k < |Feeds(bs, p)| ==> Feeds(bs, p)[k].x == Feeds(bs, p)[k].y
  {
    if bs != [] {
      SelfFeeds(bs[..|bs| - 1], p);
    }
  }

  lemma DiagnosisVectorAppend(a: seq<IndexedRow>, b: seq<IndexedRow>)
    ensures DiagnosisVector(a + b) == DiagnosisVector(a) + DiagnosisVector(b)
  {
    assert forall k :: 0 <= k < |a + b| ==> (a + b)[k] == if k < |a| then a[k] else b[k - |a|];
  }

  /** The kept batches' diagnosis vectors are the DIAGNOSIS column of the rows the first k ranges fetch. */
  lemma {:induction false} RunBatchesGather(db: Database, d: string, ix: seq<IndexedRow>, plan: seq<Range>,
                                            textTerms: seq<string>, labTerms: seq<string>, k: nat)
    requires k <= |plan| && RunBatches(db, d, ix, plan, textTerms, labTerms, k).Ok?
    ensures BatchZs(RunBatches(db, d, ix, plan, textTerms, labTerms, k).value) == DiagnosisVector(Gathered(ix, plan, k))
  {
    if k > 0 {
      RunBatchesGather(db, d, ix, plan, textTerms, labTerms, k - 1);
      var bs := RunBatches(db, d, ix, plan, textTerms, labTerms, k - 1).value;
      var range := plan[k - 1];
      var rows := RowsBetween(ix, range.first, range.last);
      DiagnosisVectorAppend(Gathered(ix, plan, k - 1), rows);
      var check := CheckBatch(rows, db.textRows(d, range.first, range.last), db.labRows(d, range.first, range.last), textTerms, labTerms);
      if check.value.Some? {
        var b := check.value.value;
        assert (bs + [b])[..|bs|] == bs;
      } else {
        assert DiagnosisVector(rows) == [];
      }
    }
  }

  /** A successful batch loop over the plan with min = 1 feeds the whole DIAGNOSIS column, in ROW_ID order. */
  lemma RunFeedsTable(db: Database, d: string, ix: seq<IndexedRow>, textTerms: seq<string>, labTerms: seq<string>,
                      bs: seq<Batch>, p: Pairing)
    requires Numbered(ix) && |ix| > 0
    requires RunBatches(db, d, ix, Plan(1, |ix|, BatchSize), textTerms, labTerms, |Plan(1, |ix|, BatchSize)|) == Ok(bs)
    ensures forall k :: 0 <= k < |bs| ==> WellShaped(bs[k])
    ensures Zs(Feeds(bs, p)) == DiagnosisVector(ix)
  {
    var plan := Plan(1, |ix|, BatchSize);
    PlanPartitionsTable(ix, BatchSize);
    RunBatchesGather(db, d, ix, plan, textTerms, labTerms, |plan|);
    FeedsZs(bs, p);
  }

  /**
   * Every encounter of interest reaches each accumulator exactly once, in JAX_mf_diag order,
   * carrying its DIAGNOSIS label: the fed rows' labels are the labelled table's column.
   */
  lemma EveryEncounterFedOnce(db: Database, cfg: Config, d: string, p: Pairing)
    requires DiagnosisRun(db, cfg, d).Ok?
    ensures var bs := DiagnosisRun(db, cfg, d).value.batches;
      var table := DiagnosisTable(db.encounters, db.diagnoses, d, cfg.primaryOnly);
      && |Feeds(bs, p)| == |table| == |Distinct(db.encounters)|
      && forall k :: 0 <= k < |table| ==> Feeds(bs, p)[k].z == table[k].diagnosis
  {
    var ix := DiagnosisRows(db, cfg, d);
    var bs := DiagnosisRun(db, cfg, d).value.batches;
    RunFeedsTable(db, d, ix, TextOfInterest(db, cfg, d), LabOfInterest(db, cfg, d), bs, p);
    assert forall k :: 0 <= k < |ix| ==> Zs(Feeds(bs, p))[k] == ix[k].diagnosis;
  }

  /** The self pairings count symmetrically, and a term never disagrees with itself. */
  lemma SelfPairsSymmetric(db: Database, cfg: Config, d: string, p: Pairing, i: nat, j: nat, a: bool, b: bool, c: bool)
    requires DiagnosisRun(db, cfg, d).Ok? && p != TextLab
    requires i < |XTerms(DiagnosisRun(db, cfg, d).value, p)| && j < |XTerms(DiagnosisRun(db, cfg, d).value, p)|
    ensures var rows := Feeds(DiagnosisRun(db, cfg, d).value.batches, p);
      && InRange(rows, i, j) && InRange(rows, j, i)
      && Count(rows, i, j, a, b, c) == Count(rows, j, i, b, a, c)
      && (a != b ==> Count(rows, i, i, a, b, c) == 0)
  {
    var run := DiagnosisRun(db, cfg, d).value;
    var rows := Feeds(run.batches, p);
    FeedsFit(run.batches, run.textTerms, run.labTerms);
    SelfFeeds(run.batches, p);
    SelfPairSymmetric(rows, i, j, a, b, c);
    if a != b {
      SelfPairDiagonal(rows, i, a, b, c);
    }
  }

  /** A diagnosis fails with NULL ROW_IDs exactly when there is no encounter of interest. */
  lemma EmptyPopulationFails(db: Database, cfg: Config, d: string)
    ensures DiagnosisRun(db, cfg, d) == Err(NullRowRange) <==> db.encounters == []
  {
    if db.encounters != [] {
      assert db.encounters[0] in Distinct(db.encounters);
    }
  }

  /**
   * The batch phenotype queries deliver their rows in the order the reshape assumes, for the
   * encounters that the range fetches from JAX_mf_diag.
   */
  ghost predicate Queried(db: Database, cfg: Config, d: string) {
    var ix := DiagnosisRows(db, cfg, d);
    && (forall first, last :: db.textRows(d, first, last) ==
          BatchObservations(Encounters(RowsBetween(ix, first, last)), TextOfInterest(db, cfg, d), db.textProfile, cfg.textMinOccurrence))
    && (forall first, last :: db.labRows(d, first, last) ==
          BatchObservations(Encounters(RowsBetween(ix, first, last)), LabOfInterest(db, cfg, d), db.labProfile, cfg.labMinOccurrence))
  }

  /** The batch of a range passes every check of the loop body. */
  predicate BatchPasses(db: Database, d: string, ix: seq<IndexedRow>, textTerms: seq<string>, labTerms: seq<string>, range: Range) {
    CheckBatch(RowsBetween(ix, range.first, range.last), db.textRows(d, range.first, range.last),
               db.labRows(d, range.first, range.last), textTerms, labTerms).Ok?
  }

  /** A run whose batches all pass keeps going to the end of the plan. */
  lemma {:induction false} PassingBatchesRun(db: Database, d: string, ix: seq<IndexedRow>, plan: seq<Range>,
                                             textTerms: seq<string>, labTerms: seq<string>, k: nat)
    requires k <= |plan| && forall j :: 0 <= j < k ==> BatchPasses(db, d, ix, textTerms, labTerms, plan[j])
    ensures RunBatches(db, d, ix, plan, textTerms, labTerms, k).Ok?
  {
    if k > 0 {
      PassingBatchesRun(db, d, ix, plan, textTerms, labTerms, k - 1);
      assert BatchPasses(db, d, ix, textTerms, labTerms, plan[k - 1]);
    }
  }

  lemma QueriedBatchPasses(db: Database, cfg: Config, d: string, range: Range)
    requires Queried(db, cfg, d)
    ensures BatchPasses(db, d, DiagnosisRows(db, cfg, d), TextOfInterest(db, cfg, d), LabOfInterest(db, cfg, d), range)
  {
    var rows := RowsBetween(DiagnosisRows(db, cfg, d), range.first, range.last);
    assert db.textRows(d, range.first, range.last) ==
      BatchObservations(Encounters(rows), TextOfInterest(db, cfg, d), db.textProfile, cfg.textMinOccurrence);
    assert db.labRows(d, range.first, range.last) ==
      BatchObservations(Encounters(rows), LabOfInterest(db, cfg, d), db.labProfile, cfg.labMinOccurrence);
    QueriedBatchIsAccepted(rows, TextOfInterest(db, cfg, d), LabOfInterest(db, cfg, d), db.textProfile, db.labProfile,
                           cfg.textMinOccurrence, cfg.labMinOccurrence);
  }

  /** With rows delivered in that order no assert of the batch loop fails: only an empty population stops a diagnosis. */
  lemma QueriedRunSucceeds(db: Database, cfg: Config, d: string)
    requires Queried(db, cfg, d)
    ensures DiagnosisRun(db, cfg, d).Ok? <==> db.encounters != []
  {
    EmptyPopulationFails(db, cfg, d);
    var ix := DiagnosisRows(db, cfg, d);
    if ix != [] {
      var plan := Plan(1, |ix|, BatchSize);
      forall j | 0 <= j < |plan|
        ensures BatchPasses(db, d, ix, TextOfInterest(db, cfg, d), LabOfInterest(db, cfg, d), plan[j])
      {
        QueriedBatchPasses(db, cfg, d, plan[j]);
      }
      PassingBatchesRun(db, d, ix, plan, TextOfInterest(db, cfg, d), LabOfInterest(db, cfg, d), |plan|);
    }
  }

  /** Whether each term is called for an encounter: the matrix row a value query is meant to give it. */
  function CalledRow(profile: seq<ProfileRecord>, minOccurrence: int, enc: EncounterId, terms: seq<string>): (v: seq<bool>)
    ensures |v| == |terms| && forall c :: 0 <= c < |terms| ==> v[c] == Called(profile, minOccurrence, enc, terms[c])
  {
    seq(|terms|, c requires 0 <= c < |terms| => Called(profile, minOccurrence, enc, terms[c]))
  }

  /**
   * The row an accumulator of the pairing is meant to receive for one encounter: whether each
   * text and lab term of interest is called for it, on the pairing's two sides, and its DIAGNOSIS label.
   */
  function EncounterRow(db: Database, cfg: Config, textTerms: seq<string>, labTerms: seq<string>,
                        enc: EncounterId, positive: bool, p: Pairing): (row: JointRow)
    ensures |row.x| == |if p == LabLab then labTerms else textTerms|
    ensures |row.y| == |if p == TextText then textTerms else labTerms|
  {
    var text := CalledRow(db.textProfile, cfg.textMinOccurrence, enc, textTerms);
    var lab := CalledRow(db.labProfile, cfg.labMinOccurrence, enc, labTerms);
    JointRow(if p == LabLab then lab else text, if p == TextText then text else lab, positive)
  }

  /** The rows meant for fetched rows of JAX_mf_diag, in order. */
  function EncounterRows(db: Database, cfg: Config, textTerms: seq<string>, labTerms: seq<string>,
                         rows: seq<IndexedRow>, p: Pairing): (r: seq<JointRow>)
    ensures |r| == |rows|
    ensures forall k :: 0 <= k < |rows| ==> r[k] == EncounterRow(db, cfg, textTerms, labTerms, rows[k].enc, rows[k].diagnosis, p)
  {
    seq(|rows|, k requires 0 <= k < |rows| => EncounterRow(db, cfg, textTerms, labTerms, rows[k].enc, rows[k].diagnosis, p))
  }

  lemma EncounterRowsAppend(db: Database, cfg: Config, textTerms: seq<string>, labTerms: seq<string>,
                            a: seq<IndexedRow>, b: seq<IndexedRow>, p: Pairing)
    ensures EncounterRows(db, cfg, textTerms, labTerms, a + b, p) ==
      EncounterRows(db, cfg, textTerms, labTerms, a, p) + EncounterRows(db, cfg, textTerms, labTerms, b, p)
  {
    var whole := EncounterRows(db, cfg, textTerms, labTerms, a + b, p);
    var parts := EncounterRows(db, cfg, textTerms, labTerms, a, p) + EncounterRows(db, cfg, textTerms, labTerms, b, p);
    forall k | 0 <= k < |whole| ensures whole[k] == parts[k] {
      if k < |a| {
        assert (a + b)[k] == a[k];
      } else {
        assert (a + b)[k] == b[k - |a|];
      }
    }
  }

  /** A batch whose matrices say which terms are called for its encounters feeds the rows meant for them. */
  lemma CalledBatchRows(db: Database, cfg: Config, textTerms: seq<string>, labTerms: seq<string>,
                        rows: seq<IndexedRow>, b: Batch, p: Pairing)
    requires BatchFits(b, textTerms, labTerms) && b.z == DiagnosisVector(rows)
    requires forall i, c :: 0 <= i < |rows| && 0 <= c < |textTerms| ==>
      b.text[i][c] == Called(db.textProfile, cfg.textMinOccurrence, rows[i].enc, textTerms[c])
    requires forall i, c :: 0 <= i < |rows| && 0 <= c < |labTerms| ==>
      b.lab[i][c] == Called(db.labProfile, cfg.labMinOccurrence, rows[i].enc, labTerms[c])
    ensures WellShaped(b) && Rows(Left(b, p), Right(b, p), b.z) == EncounterRows(db, cfg, textTerms, labTerms, rows, p)
  {
    forall i | 0 <= i < |rows|
      ensures b.text[i] == CalledRow(db.textProfile, cfg.textMinOccurrence, rows[i].enc, textTerms)
      ensures b.lab[i] == CalledRow(db.labProfile, cfg.labMinOccurrence, rows[i].enc, labTerms)
    {
    }
  }

  /** A range's batch passes the checks and feeds exactly the rows meant for its encounters. */
  ghost predicate RangeFeeds(db: Database, cfg: Config, d: string, ix: seq<IndexedRow>,
                             textTerms: seq<string>, labTerms: seq<string>, range: Range, p: Pairing) {
    var rows := RowsBetween(ix, range.first, range.last);
    var check := CheckBatch(rows, db.textRows(d, range.first, range.last), db.labRows(d, range.first, range.last),
                            textTerms, labTerms);
    && check.Ok?
    && (check.value.None? ==> rows == [])
    && (check.value.Some? ==>
          var b := check.value.value;
          WellShaped(b) && Rows(Left(b, p), Right(b, p), b.z) == EncounterRows(db, cfg, textTerms, labTerms, rows, p))
  }

  /** With rows delivered in reshape order, every range's batch feeds exactly the rows meant for its encounters. */
  lemma QueriedBatchRows(db: Database, cfg: Config, d: string, range: Range, p: Pairing)
    requires Queried(db, cfg, d)
    ensures RangeFeeds(db, cfg, d, DiagnosisRows(db, cfg, d), TextOfInterest(db, cfg, d), LabOfInterest(db, cfg, d), range, p)
  {
    var T := TextOfInterest(db, cfg, d);
    var L := LabOfInterest(db, cfg, d);
    var rows := RowsBetween(DiagnosisRows(db, cfg, d), range.first, range.last);
    assert db.textRows(d, range.first, range.last) ==
      BatchObservations(Encounters(rows), T, db.textProfile, cfg.textMinOccurrence);
    assert db.labRows(d, range.first, range.last) ==
      BatchObservations(Encounters(rows), L, db.labProfile, cfg.labMinOccurrence);
    QueriedBatchIsAccepted(rows, T, L, db.textProfile, db.labProfile, cfg.textMinOccurrence, cfg.labMinOccurrence);
    var check := CheckBatch(rows, db.textRows(d, range.first, range.last), db.labRows(d, range.first, range.last), T, L);
    if check.value.Some? {
      CalledBatchRows(db, cfg, T, L, rows, check.value.value, p);
    }
  }

  /** A checked batch that feeds the rows meant for its range extends what the kept batches feed by those rows. */
  lemma FeedsStep(bs: seq<Batch>, check: Result<Option<Batch>, Misalignment>, p: Pairing,
                  before: seq<JointRow>, now: seq<JointRow>)
    requires (forall j :: 0 <= j < |bs| ==> WellShaped(bs[j])) && Feeds(bs, p) == before
    requires check.Ok? && (check.value.None? ==> now == [])
    requires check.Ok? && check.value.Some? ==>
      var b := check.value.value;
      WellShaped(b) && Rows(Left(b, p), Right(b, p), b.z) == now
    ensures var kept := if check.value.Some? then bs + [check.value.value] else bs;
      && (forall j :: 0 <= j < |kept| ==> WellShaped(kept[j]))
      && Feeds(kept, p) == before + now
  {
    if check.value.Some? {
      FeedsAppend(bs, check.value.value, p);
    } else {
      assert before + now == before;
    }
  }

  /** One more range whose batch feeds the rows meant for it extends the rows fed by those it gathers. */
  lemma GatherStep(db: Database, cfg: Config, d: string, ix: seq<IndexedRow>,
                   textTerms: seq<string>, labTerms: seq<string>, plan: seq<Range>, k: nat, p: Pairing)
    requires 0 < k <= |plan| && RangeFeeds(db, cfg, d, ix, textTerms, labTerms, plan[k - 1], p)
    requires var r := RunBatches(db, d, ix, plan, textTerms, labTerms, k - 1);
      && r.Ok?
      && (forall j :: 0 <= j < |r.value| ==> WellShaped(r.value[j]))
      && Feeds(r.value, p) == EncounterRows(db, cfg, textTerms, labTerms, Gathered(ix, plan, k - 1), p)
    ensures var r := RunBatches(db, d, ix, plan, textTerms, labTerms, k);
      && r.Ok?
      && (forall j :: 0 <= j < |r.value| ==> WellShaped(r.value[j]))
      && Feeds(r.value, p) == EncounterRows(db, cfg, textTerms, labTerms, Gathered(ix, plan, k), p)
  {
    var bs := RunBatches(db, d, ix, plan, textTerms, labTerms, k - 1).value;
    var range := plan[k - 1];
    var rows := RowsBetween(ix, range.first, range.last);
    var check := CheckBatch(rows, db.textRows(d, range.first, range.last), db.labRows(d, range.first, range.last),
                            textTerms, labTerms);
    var before := EncounterRows(db, cfg, textTerms, labTerms, Gathered(ix, plan, k - 1), p);
    var now := EncounterRows(db, cfg, textTerms, labTerms, rows, p);
    EncounterRowsAppend(db, cfg, textTerms, labTerms, Gathered(ix, plan, k - 1), rows, p);
    FeedsStep(bs, check, p, before, now);
  }

  /** When the first k ranges' batches feed the rows meant for them, the kept batches feed the rows the ranges gather. */
  lemma {:induction false} GatherFeeds(db: Database, cfg: Config, d: string, ix: seq<IndexedRow>,
                                       textTerms: seq<string>, labTerms: seq<string>, plan: seq<Range>, k: nat, p: Pairing)
    requires k <= |plan| && forall j :: 0 <= j < k ==> RangeFeeds(db, cfg, d, ix, textTerms, labTerms, plan[j], p)
    ensures var r := RunBatches(db, d, ix, plan, textTerms, labTerms, k);
      && r.Ok?
      && (forall j :: 0 <= j < |r.value| ==> WellShaped(r.value[j]))
      && Feeds(r.value, p) == EncounterRows(db, cfg, textTerms, labTerms, Gathered(ix, plan, k), p)
  {
    if k > 0 {
      GatherFeeds(db, cfg, d, ix, textTerms, labTerms, plan, k - 1, p);
      assert RangeFeeds(db, cfg, d, ix, textTerms, labTerms, plan[k - 1], p);
      GatherStep(db, cfg, d, ix, textTerms, labTerms, plan, k, p);
    }
  }

  /**
   * With rows delivered in reshape order, each accumulator is fed one row per encounter of
   * JAX_mf_diag in ROW_ID order: whether each of the run's terms of interest is called for
   * that encounter, on either side of the pairing, and its DIAGNOSIS label.
   */
  lemma QueriedFeedsCalled(db: Database, cfg: Config, d: string, p: Pairing)
    requires Queried(db, cfg, d) && db.encounters != []
    ensures DiagnosisRun(db, cfg, d).Ok?
    ensures var run := DiagnosisRun(db, cfg, d).value;
      var rows := Feeds(run.batches, p);
      var table := DiagnosisTable(db.encounters, db.diagnoses, d, cfg.primaryOnly);
      && rows == EncounterRows(db, cfg, run.textTerms, run.labTerms, DiagnosisRows(db, cfg, d), p)
      && |rows| == |table|
      && forall k :: 0 <= k < |table| ==>
           rows[k] == EncounterRow(db, cfg, run.textTerms, run.labTerms, table[k].enc, table[k].diagnosis, p)
  {
    QueriedRunSucceeds(db, cfg, d);
    var ix := DiagnosisRows(db, cfg, d);
    var plan := Plan(1, |ix|, BatchSize);
    PlanPartitionsTable(ix, BatchSize);
    var T := TextOfInterest(db, cfg, d);
    var L := LabOfInterest(db, cfg, d);
    forall j | 0 <= j < |plan| ensures RangeFeeds(db, cfg, d, ix, T, L, plan[j], p) {
      QueriedBatchRows(db, cfg, d, plan[j], p);
    }
    GatherFeeds(db, cfg, d, ix, T, L, plan, |plan|, p);
  }

  /** A fetched row of JAX_mf_diag is labelled by membership in the CTE `d`. */
  lemma DiagnosisRowsLabels(db: Database, cfg: Config, d: string)
    ensures var ix := DiagnosisRows(db, cfg, d);
      && Encounters(ix) == Distinct(db.encounters)
      && forall k :: 0 <= k < |ix| ==> ix[k].diagnosis == (ix[k].enc in PositiveEncounters(db.diagnoses, d, cfg.primaryOnly))
  {
    var ix := DiagnosisRows(db, cfg, d);
    assert Encounters(ix) == Distinct(db.encounters);
  }

  /**
   * The encounters of interest that fall in cell (a, b, c) of pair (i, j): X term i called
   * or not as a, Y term j as b, and the diagnosis as c.
   */
  ghost function CellEncounters(db: Database, cfg: Config, d: string, textTerms: seq<string>, labTerms: seq<string>,
                                p: Pairing, i: nat, j: nat, a: bool, b: bool, c: bool): set<EncounterId>
    requires i < |if p == LabLab then labTerms else textTerms| && j < |if p == TextText then textTerms else labTerms|
  {
    set e | e in db.encounters &&
      Match(EncounterRow(db, cfg, textTerms, labTerms, e, e in PositiveEncounters(db.diagnoses, d, cfg.primaryOnly), p), i, j, a, b, c)
  }

  /** The keys of the table's rows in a cell are the encounters of interest in it. */
  lemma CellKeysOfTable(db: Database, cfg: Config, d: string, textTerms: seq<string>, labTerms: seq<string>,
                        p: Pairing, i: nat, j: nat, a: bool, b: bool, c: bool)
    requires i < |if p == LabLab then labTerms else textTerms| && j < |if p == TextText then textTerms else labTerms|
    ensures var ix := DiagnosisRows(db, cfg, d);
      CellKeys(Encounters(ix), EncounterRows(db, cfg, textTerms, labTerms, ix, p), i, j, a, b, c) ==
      CellEncounters(db, cfg, d, textTerms, labTerms, p, i, j, a, b, c)
  {
    CellKeysInCell(db, cfg, d, textTerms, labTerms, p, i, j, a, b, c);
    CellInCellKeys(db, cfg, d, textTerms, labTerms, p, i, j, a, b, c);
  }

  /** A table row in the cell is the row of its encounter, labelled as that encounter is. */
  lemma CellKeysInCell(db: Database, cfg: Config, d: string, textTerms: seq<string>, labTerms: seq<string>,
                       p: Pairing, i: nat, j: nat, a: bool, b: bool, c: bool)
    requires i < |if p == LabLab then labTerms else textTerms| && j < |if p == TextText then textTerms else labTerms|
    ensures var ix := DiagnosisRows(db, cfg, d);
      CellKeys(Encounters(ix), EncounterRows(db, cfg, textTerms, labTerms, ix, p), i, j, a, b, c) <=
      CellEncounters(db, cfg, d, textTerms, labTerms, p, i, j, a, b, c)
  {
    DiagnosisRowsLabels(db, cfg, d);
    var ix := DiagnosisRows(db, cfg, d);
    var rows := EncounterRows(db, cfg, textTerms, labTerms, ix, p);
    var encs := Encounters(ix);
    forall e | e in CellKeys(encs, rows, i, j, a, b, c) ensures e in CellEncounters(db, cfg, d, textTerms, labTerms, p, i, j, a, b, c) {
      var k :| 0 <= k < |rows| && Match(rows[k], i, j, a, b, c) && encs[k] == e;
      assert e in Distinct(db.encounters);
    }
  }

  /** An encounter of interest in the cell has its row in the table. */
  lemma CellInCellKeys(db: Database, cfg: Config, d: string, textTerms: seq<string>, labTerms: seq<string>,
                       p: Pairing, i: nat, j: nat, a: bool, b: bool, c: bool)
    requires i < |if p == LabLab then labTerms else textTerms| && j < |if p == TextText then textTerms else labTerms|
    ensures var ix := DiagnosisRows(db, cfg, d);
      CellEncounters(db, cfg, d, textTerms, labTerms, p, i, j, a, b, c) <=
      CellKeys(Encounters(ix), EncounterRows(db, cfg, textTerms, labTerms, ix, p), i, j, a, b, c)
  {
    DiagnosisRowsLabels(db, cfg, d);
    var ix := DiagnosisRows(db, cfg, d);
    var rows := EncounterRows(db, cfg, textTerms, labTerms, ix, p);
    var encs := Encounters(ix);
    forall e | e in CellEncounters(db, cfg, d, textTerms, labTerms, p, i, j, a, b, c) ensures e in CellKeys(encs, rows, i, j, a, b, c) {
      assert e in encs;
      var k :| 0 <= k < |encs| && encs[k] == e;
      assert Match(rows[k], i, j, a, b, c);
    }
  }

  /** Over the rows meant for JAX_mf_diag, a cell counts the encounters of interest in it. */
  lemma TableCounts(db: Database, cfg: Config, d: string, textTerms: seq<string>, labTerms: seq<string>,
                    p: Pairing, i: nat, j: nat, a: bool, b: bool, c: bool)
    requires i < |if p == LabLab then labTerms else textTerms| && j < |if p == TextText then textTerms else labTerms|
    ensures var rows := EncounterRows(db, cfg, textTerms, labTerms, DiagnosisRows(db, cfg, d), p);
      && InRange(rows, i, j)
      && Count(rows, i, j, a, b, c) == |CellEncounters(db, cfg, d, textTerms, labTerms, p, i, j, a, b, c)|
  {
    var ix := DiagnosisRows(db, cfg, d);
    DiagnosisRowsLabels(db, cfg, d);
    CountDistinctKeys(Encounters(ix), EncounterRows(db, cfg, textTerms, labTerms, ix, p), i, j, a, b, c);
    CellKeysOfTable(db, cfg, d, textTerms, labTerms, p, i, j, a, b, c);
  }

  /**
   * With rows delivered in reshape order, the count of cell (a, b, c) of pair (i, j) in the
   * rows a pairing is fed is the number of encounters of interest in that cell.
   */
  lemma QueriedCounts(db: Database, cfg: Config, d: string, p: Pairing, i: nat, j: nat, a: bool, b: bool, c: bool)
    requires Queried(db, cfg, d) && DiagnosisRun(db, cfg, d).Ok?
    requires i < |XTerms(DiagnosisRun(db, cfg, d).value, p)| && j < |YTerms(DiagnosisRun(db, cfg, d).value, p)|
    ensures var run := DiagnosisRun(db, cfg, d).value;
      var rows := Feeds(run.batches, p);
      && InRange(rows, i, j)
      && Count(rows, i, j, a, b, c) == |CellEncounters(db, cfg, d, run.textTerms, run.labTerms, p, i, j, a, b, c)|
  {
    EmptyPopulationFails(db, cfg, d);
    QueriedFeedsCalled(db, cfg, d, p);
    var run := DiagnosisRun(db, cfg, d).value;
    TableCounts(db, cfg, d, run.textTerms, run.labTerms, p, i, j, a, b, c);
  }

  /** The three summaries of one diagnosis. */
  datatype Summaries = Summaries(textLab: SummaryXYz, textText: SummaryXYz, labLab: SummaryXYz)

  /** The accumulators hold the run's terms and have been fed its batches, each in its pairing. */
  ghost predicate Produced(s: Summaries, run: Run, d: string)
    reads s.textLab, s.textText, s.labLab
  {
    && s.textLab.xs == run.textTerms && s.textLab.ys == run.labTerms
    && s.textText.xs == run.textTerms && s.textText.ys == run.textTerms
    && s.labLab.xs == run.labTerms && s.labLab.ys == run.labTerms
    && s.textLab.diagnosis == d && s.textText.diagnosis == d && s.labLab.diagnosis == d
    && s.textLab.Valid() && s.textText.Valid() && s.labLab.Valid()
    && (forall k :: 0 <= k < |run.batches| ==> WellShaped(run.batches[k]))
    && s.textLab.seen == Feeds(run.batches, TextLab)
    && s.textText.seen == Feeds(run.batches, TextText)
    && s.labLab.seen == Feeds(run.batches, LabLab)
  }

  /** The accumulator of a pairing. */
  function Accumulator(s: Summaries, p: Pairing): SummaryXYz {
    match p
    case TextLab => s.textLab
    case TextText => s.textText
    case LabLab => s.labLab
  }

  /**
   * Under that delivery, once SummarizeDiagnosis has produced the summaries, `Get(i, j, a, b, c)`
   * on a pairing's accumulator may be called and returns the number of encounters of interest in that cell.
   */
  lemma ProducedCounts(db: Database, cfg: Config, d: string, s: Summaries, p: Pairing,
                       i: nat, j: nat, a: bool, b: bool, c: bool)
    requires Queried(db, cfg, d) && DiagnosisRun(db, cfg, d).Ok?
    requires Produced(s, DiagnosisRun(db, cfg, d).value, d)
    requires i < |XTerms(DiagnosisRun(db, cfg, d).value, p)| && j < |YTerms(DiagnosisRun(db, cfg, d).value, p)|
    ensures var run := DiagnosisRun(db, cfg, d).value;
      var acc := Accumulator(s, p);
      && acc.Valid() && i < |acc.xs| && j < |acc.ys|
      && InRange(acc.seen, i, j)
      && Count(acc.seen, i, j, a, b, c) == |CellEncounters(db, cfg, d, run.textTerms, run.labTerms, p, i, j, a, b, c)|
  {
    QueriedCounts(db, cfg, d, p, i, j, a, b, c);
  }

  lemma FeedsAppend(bs: seq<Batch>, b: Batch, p: Pairing)
    requires forall k :: 0 <= k < |bs| ==> WellShaped(bs[k])
    requires WellShaped(b)
    ensures forall k :: 0 <= k < |bs + [b]| ==> WellShaped((bs + [b])[k])
    ensures Feeds(bs + [b], p) == Feeds(bs, p) + Rows(Left(b, p), Right(b, p), b.z)
  {
    assert (bs + [b])[..|bs|] == bs;
  }

  /** One more range: its batch is kept, skipped, or ends the run with its error. */
  lemma RunBatchesStep(db: Database, d: string, ix: seq<IndexedRow>, plan: seq<Range>,
                       textTerms: seq<string>, labTerms: seq<string>, k: nat, bs: seq<Batch>, check: Result<Option<Batch>, Misalignment>)
    requires k < |plan| && RunBatches(db, d, ix, plan, textTerms, labTerms, k) == Ok(bs)
    requires check == CheckBatch(RowsBetween(ix, plan[k].first, plan[k].last), db.textRows(d, plan[k].first, plan[k].last),
                                 db.labRows(d, plan[k].first, plan[k].last), textTerms, labTerms)
    ensures check.Err? ==> RunBatches(db, d, ix, plan, textTerms, labTerms, k + 1) == Err(check.error)
    ensures check == Ok(None) ==> RunBatches(db, d, ix, plan, textTerms, labTerms, k + 1) == Ok(bs)
    ensures check.Ok? && check.value.Some? ==> RunBatches(db, d, ix, plan, textTerms, labTerms, k + 1) == Ok(bs + [check.value.value])
  {
  }

  /** Once a batch fails the run stays failed with that error. */
  lemma {:induction false} RunBatchesFailed(db: Database, d: string, ix: seq<IndexedRow>, plan: seq<Range>,
                                            textTerms: seq<string>, labTerms: seq<string>, k: nat, j: nat)
    requires k <= j <= |plan| && RunBatches(db, d, ix, plan, textTerms, labTerms, k).Err?
    ensures RunBatches(db, d, ix, plan, textTerms, labTerms, j) == RunBatches(db, d, ix, plan, textTerms, labTerms, k)
    decreases j - k
  {
    if k < j {
      RunBatchesFailed(db, d, ix, plan, textTerms, labTerms, k, j - 1);
    }
  }

  /** DiagnosisRun over a non-empty table, whose MIN/MAX ROW_ID are 1 and its size. */
  lemma DiagnosisRunUnfold(db: Database, cfg: Config, d: string, first: int, last: int)
    requires RowIdRange(DiagnosisRows(db, cfg, d)) == Some((first, last))
    ensures first == 1 && last == |DiagnosisRows(db, cfg, d)|
    ensures var plan := Plan(first, last, BatchSize);
      var run := RunBatches(db, d, DiagnosisRows(db, cfg, d), plan, TextOfInterest(db, cfg, d), LabOfInterest(db, cfg, d), |plan|);
      && (run.Err? ==> DiagnosisRun(db, cfg, d) == Err(Misaligned(run.error)))
      && (run.Ok? ==> DiagnosisRun(db, cfg, d) == Ok(Run(TextOfInterest(db, cfg, d), LabOfInterest(db, cfg, d), run.value)))
  {
    NumberedRange(DiagnosisRows(db, cfg, d));
  }

  /** The three `add_batch` calls of a non-empty batch. */
  method FeedAll(tl: SummaryXYz, tt: SummaryXYz, ll: SummaryXYz, b: Batch, ghost bs: seq<Batch>)
    requires tl != tt && tt != ll && tl != ll
    requires tl.Valid() && tt.Valid() && ll.Valid()
    requires BatchFits(b, tl.xs, tl.ys) && tt.xs == tl.xs && tt.ys == tl.xs && ll.xs == tl.ys && ll.ys == tl.ys
    requires forall k :: 0 <= k < |bs| ==> WellShaped(bs[k])
    requires tl.seen == Feeds(bs, TextLab) && tt.seen == Feeds(bs, TextText) && ll.seen == Feeds(bs, LabLab)
    modifies tl, tt, ll
    ensures tl.Valid() && tt.Valid() && ll.Valid()
    ensures forall k :: 0 <= k < |bs + [b]| ==> WellShaped((bs + [b])[k])
    ensures tl.seen == Feeds(bs + [b], TextLab) && tt.seen == Feeds(bs + [b], TextText) && ll.seen == Feeds(bs + [b], LabLab)
  {
    FeedsAppend(bs, b, TextLab);
    FeedsAppend(bs, b, TextText);
    FeedsAppend(bs, b, LabLab);
    tl.AddBatch(b.text, b.lab, b.z);
    tt.AddBatch(b.text, b.text, b.z);
    ll.AddBatch(b.lab, b.lab, b.z);
  }

  /** The three accumulators of one diagnosis hold what the batches bs feed them. */
  ghost predicate Holding(tl: SummaryXYz, tt: SummaryXYz, ll: SummaryXYz, bs: seq<Batch>)
    reads tl, tt, ll
  {
    && (forall k :: 0 <= k < |bs| ==> WellShaped(bs[k]))
    && tl.Valid() && tt.Valid() && ll.Valid()
    && tl.seen == Feeds(bs, TextLab) && tt.seen == Feeds(bs, TextText) && ll.seen == Feeds(bs, LabLab)
  }

  /**
   * Batch i of the batch loop: ROW_IDs i * batch_size + MIN to the next boundary, or to
   * batch_N for the last batch; the batch is queried and checked and a non-empty one is
   * fed to the three accumulators.
   */
  method BatchStep(db: Database, d: string, ix: seq<IndexedRow>, first: int, last: int,
                   textTerms: seq<string>, labTerms: seq<string>, tl: SummaryXYz, tt: SummaryXYz, ll: SummaryXYz,
                   i: nat, ghost bs: seq<Batch>)
    returns (failure: Option<Misalignment>, ghost bs': seq<Batch>)
    requires first <= last && i < |Plan(first, last, BatchSize)|
    requires tl != tt && tt != ll && tl != ll
    requires tl.xs == textTerms && tl.ys == labTerms && tt.xs == textTerms && tt.ys == textTerms
    requires ll.xs == labTerms && ll.ys == labTerms
    requires RunBatches(db, d, ix, Plan(first, last, BatchSize), textTerms, labTerms, i) == Ok(bs)
    requires Holding(tl, tt, ll, bs)
    modifies tl, tt, ll
    ensures var run := RunBatches(db, d, ix, Plan(first, last, BatchSize), textTerms, labTerms, i + 1);
      && (failure.Some? <==> run.Err?)
      && (failure.Some? ==> run.error == failure.value)
      && (failure.None? ==> run == Ok(bs') && Holding(tl, tt, ll, bs'))
  {
    ghost var plan := Plan(first, last, BatchSize);
    var batchN := last - first + 1;
    var total := CeilDiv(batchN, BatchSize);
    var startIndex := i * BatchSize + first;
    var endIndex := if i < total - 1 then startIndex + BatchSize - 1 else batchN;
    assert plan[i] == Range(startIndex, endIndex);
    var rows := RowsBetween(ix, startIndex, endIndex);
    var checked := CheckBatch(rows, db.textRows(d, startIndex, endIndex), db.labRows(d, startIndex, endIndex), textTerms, labTerms);
    RunBatchesStep(db, d, ix, plan, textTerms, labTerms, i, bs, checked);
    if checked.Err? {
      return Some(checked.error), bs;
    }
    bs' := bs;
    if checked.value.Some? {
      FeedAll(tl, tt, ll, checked.value.value, bs);
      bs' := bs + [checked.value.value];
    }
    failure := None;
  }

  /**
   * The batch loop `for i in np.arange(TOTAL_BATCH)` over ROW_IDs first..last of the indexed
   * table: it stops at the first failing batch and feeds every other non-empty one to the
   * three accumulators.
   */
  method BatchLoop(db: Database, d: string, ix: seq<IndexedRow>, first: int, last: int,
                   textTerms: seq<string>, labTerms: seq<string>, tl: SummaryXYz, tt: SummaryXYz, ll: SummaryXYz)
    returns (failure: Option<Misalignment>, ghost bs: seq<Batch>)
    requires first <= last
    requires tl != tt && tt != ll && tl != ll
    requires tl.Valid() && tt.Valid() && ll.Valid() && tl.seen == [] && tt.seen == [] && ll.seen == []
    requires tl.xs == textTerms && tl.ys == labTerms && tt.xs == textTerms && tt.ys == textTerms
    requires ll.xs == labTerms && ll.ys == labTerms
    modifies tl, tt, ll
    ensures var plan := Plan(first, last, BatchSize);
      var run := RunBatches(db, d, ix, plan, textTerms, labTerms, |plan|);
      && (failure.Some? <==> run.Err?)
      && (failure.Some? ==> run.error == failure.value)
      && (failure.None? ==> run == Ok(bs) && Holding(tl, tt, ll, bs))
  {
    var total := CeilDiv(last - first + 1, BatchSize);
    ghost var plan := Plan(first, last, BatchSize);
    bs := [];
    var i := 0;
    while i < total
      invariant 0 <= i <= total == |plan|
      invariant RunBatches(db, d, ix, plan, textTerms, labTerms, i) == Ok(bs)
      invariant Holding(tl, tt, ll, bs)
    {
      var failed;
      failed, bs := BatchStep(db, d, ix, first, last, textTerms, labTerms, tl, tt, ll, i, bs);
      if failed.Some? {
        RunBatchesFailed(db, d, ix, plan, textTerms, labTerms, i + 1, |plan|);
        return failed, bs;
      }
      i := i + 1;
    }
    failure := None;
  }

  /**
   * One iteration of the diagnosis loop: build and index JAX_mf_diag, rank the phenotypes,
   * read MIN/MAX ROW_ID, create the three accumulators and run the batch loop.
   */
  method SummarizeDiagnosis(db: Database, cfg: Config, d: string) returns (r: Result<Summaries, Error>)
    ensures r.Err? <==> DiagnosisRun(db, cfg, d).Err?
    ensures r.Err? ==> r.error == DiagnosisRun(db, cfg, d).error
    ensures r.Ok? ==> fresh(r.value.textLab) && fresh(r.value.textText) && fresh(r.value.labLab)
    ensures r.Ok? ==> Produced(r.value, DiagnosisRun(db, cfg, d).value, d)
  {
    var table := DiagnosisTable(db.encounters, db.diagnoses, d, cfg.primaryOnly);
    var ix := IndexDiagnosisTable(table);
    var textTerms := TextOfInterest(db, cfg, d);
    var labTerms := LabOfInterest(db, cfg, d);
    var ids := RowIdRange(ix);
    if ids.None? {
      assert ix == DiagnosisRows(db, cfg, d);
      return Err(NullRowRange);
    }
    var (first, last) := ids.value;
    DiagnosisRunUnfold(db, cfg, d, first, last);
    var tl := new SummaryXYz(textTerms, labTerms, d);
    var tt := new SummaryXYz(textTerms, textTerms, d);
    var ll := new SummaryXYz(labTerms, labTerms, d);
    var failure, bs := BatchLoop(db, d, ix, first, last, textTerms, labTerms, tl, tt, ll);
    if failure.Some? {
      return Err(Misaligned(failure.value));
    }
    r := Ok(Summaries(tl, tt, ll));
  }

  /** The three dictionaries of a run, keyed by diagnosis. */
  datatype Dictionaries = Dictionaries(textLab: map<string, SummaryXYz>, textText: map<string, SummaryXYz>, labLab: map<string, SummaryXYz>)

  /** The summaries of a diagnosis in the dictionaries. */
  function Entry(dicts: Dictionaries, d: string): Summaries
    requires d in dicts.textLab && d in dicts.textText && d in dicts.labLab
  {
    Summaries(dicts.textLab[d], dicts.textText[d], dicts.labLab[d])
  }

  /** Every diagnosis of the list, and only those, has its three summaries of a successful run. */
  ghost predicate Summarized(db: Database, cfg: Config, diseases: seq<string>, dicts: Dictionaries)
    reads dicts.textLab.Values, dicts.textText.Values, dicts.labLab.Values
  {
    && (forall d :: d in dicts.textLab <==> d in diseases)
    && (forall d :: d in dicts.textText <==> d in diseases)
    && (forall d :: d in dicts.labLab <==> d in diseases)
    && forall d :: d in diseases ==> DiagnosisRun(db, cfg, d).Ok? && Produced(Entry(dicts, d), DiagnosisRun(db, cfg, d).value, d)
  }

  /** `textHpo_labHpo_dict[diagnosis] = summaryTextLab` and the same for the other two dictionaries. */
  function Record(dicts: Dictionaries, d: string, s: Summaries): Dictionaries {
    Dictionaries(dicts.textLab[d := s.textLab], dicts.textText[d := s.textText], dicts.labLab[d := s.labLab])
  }

  /** Recording the summaries of one more successful diagnosis extends what the dictionaries summarize. */
  lemma SummarizedStep(db: Database, cfg: Config, prefix: seq<string>, dicts: Dictionaries, d: string, s: Summaries)
    requires Summarized(db, cfg, prefix, dicts)
    requires DiagnosisRun(db, cfg, d).Ok? && Produced(s, DiagnosisRun(db, cfg, d).value, d)
    ensures Summarized(db, cfg, prefix + [d], Record(dicts, d, s))
  {
    var next := Record(dicts, d, s);
    forall e | e in prefix + [d]
      ensures DiagnosisRun(db, cfg, e).Ok? && Produced(Entry(next, e), DiagnosisRun(db, cfg, e).value, e)
    {
      if e != d {
        assert e in prefix;
        assert Entry(next, e) == Entry(dicts, e);
      } else {
        assert Entry(next, e) == s;
      }
    }
  }

  /** One iteration of the loop over the diagnoses: summarize diagnoses[k] and record its summaries. */
  method SummarizeNext(db: Database, cfg: Config, diseases: seq<string>, k: nat, dicts: Dictionaries)
    returns (r: Result<Dictionaries, Error>)
    requires k < |diseases| && Summarized(db, cfg, diseases[..k], dicts)
    ensures r.Err? <==> DiagnosisRun(db, cfg, diseases[k]).Err?
    ensures r.Err? ==> DiagnosisRun(db, cfg, diseases[k]) == Err(r.error)
    ensures r.Ok? ==> Summarized(db, cfg, diseases[..k + 1], r.value)
  {
    var d := diseases[k];
    var s := SummarizeDiagnosis(db, cfg, d);
    if s.Err? {
      return Err(s.error);
    }
    SummarizedStep(db, cfg, diseases[..k], dicts, d, s.value);
    TakeOneMore(diseases, k);
    r := Ok(Record(dicts, d, s.value));
  }

  /**
   * The loop over the diagnoses of interest: the first diagnosis that fails ends the whole
   * run with its error; otherwise every diagnosis has its summaries.
   */
  method RunJob(db: Database, cfg: Config, diseases: seq<string>) returns (r: Result<Dictionaries, Error>)
    ensures r.Ok? <==> forall k :: 0 <= k < |diseases| ==> DiagnosisRun(db, cfg, diseases[k]).Ok?
    ensures r.Err? ==> exists k :: (0 <= k < |diseases| && DiagnosisRun(db, cfg, diseases[k]) == Err(r.error) &&
      forall j :: 0 <= j < k ==> DiagnosisRun(db, cfg, diseases[j]).Ok?)
    ensures r.Ok? ==> Summarized(db, cfg, diseases, r.value)
  {
    var dicts := Dictionaries(map[], map[], map[]);
    var k := 0;
    while k < |diseases|
      invariant 0 <= k <= |diseases|
      invariant forall j :: 0 <= j < k ==> DiagnosisRun(db, cfg, diseases[j]).Ok?
      invariant Summarized(db, cfg, diseases[..k], dicts)
    {
      var next := SummarizeNext(db, cfg, diseases, k, dicts);
      if next.Err? {
        assert 0 <= k < |diseases| && DiagnosisRun(db, cfg, diseases[k]) == Err(next.error);
        return next;
      }
      dicts := next.value;
      k := k + 1;
    }
    assert diseases[..k] == diseases;
    r := Ok(dicts);
  }

  /**
   * `summarize_diagnosis_textHpo_labHpo`: rank the ICD-9 groups, select the diagnoses of
   * interest, then run the diagnosis loop.
   */
  method Summarize(db: Database, cfg: Config) returns (r: Result<Dictionaries, Error>)
    ensures var selected := SelectDiseases(cfg.diseases, RankIcd(db.diagnoses), cfg.diagnosisThresholdMin);
      && (selected.Err? ==> r == Err(Unsupported(selected.error)))
      && (selected.Ok? ==>
            && (r.Ok? <==> forall k :: 0 <= k < |selected.value| ==> DiagnosisRun(db, cfg, selected.value[k]).Ok?)
            && (r.Ok? ==> Summarized(db, cfg, selected.value, r.value)))
  {
    var ranked := RankIcd(db.diagnoses);
    var selected := SelectDiseases(cfg.diseases, ranked, cfg.diagnosisThresholdMin);
    if selected.Err? {
      return Err(Unsupported(selected.error));
    }
    r := RunJob(db, cfg, selected.value);
  }

  /** The older analysis.py: the calculated selection is discarded for the fixed list 428, 584, 038. */
  method SummarizeLegacy(db: Database, cfg: Config) returns (r: Result<Dictionaries, Error>)
    ensures r.Ok? <==> forall k :: 0 <= k < |LegacyDiseases| ==> DiagnosisRun(db, cfg, LegacyDiseases[k]).Ok?
    ensures r.Ok? ==> Summarized(db, cfg, LegacyDiseases, r.value)
  {
    r := RunJob(db, cfg, LegacyDiseases);
  }
}
