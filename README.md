# Batched diagnosis summaries of mimic_mf_analysis, in Dafny

mimic_mf_analysis computes mutual-information statistics between diagnoses and
phenotypes (HPO terms) in MIMIC-III admissions. This project models the part of it that
decides *which data* reaches the statistics. It proves what that part guarantees.

That part is `summarize_diagnosis_textHpo_labHpo`. For every diagnosis of interest it:

- labels every encounter of interest 0/1 for the diagnosis (`createDiagnosisTable`);
- numbers the labelled rows (`indexDiagnosisTable`);
- ranks the text-mined and laboratory phenotypes of the diagnosed encounters
  (`rankHpoFromText`, `rankHpoFromLab`) and keeps the terms whose count lies between two
  thresholds;
- splits the ROW_IDs into batches of 100;
- validates and reshapes each batch.

Each non-empty batch goes to three fresh `SummaryXYz` accumulators: text x lab, text x text
and lab x lab.

Around that sit the supporting functions:

- the ICD-9 ranking that feeds the 'calculated' disease selection (`rankICD`);
- the encounter population (`encounterOfInterest`);
- the column naming of `add_phenotype_columns`;
- the older copy of the orchestrator in `src/main/python/analysis.py`. It overwrites the
  calculated disease list with the fixed list 428, 584, 038.

The database is a value. Every temporary table the code builds is a function of the tables
it reads:

- `Cohort`: `JAX_encounterOfInterest`, `JAX_mf_diag` and its ROW_ID.
- `Ranking`: `JAX_diagFrequencyRank` and the two phenotype frequency tables.
- `Reshape`: the rows a batch query returns when delivered in the order the reshape assumes.

The two batch phenotype queries have no ORDER BY, so the rows they actually return are an
arbitrary input: the `textRows` and `labRows` fields of `Pipeline.Database`.

The modules:

- `Batching`: the ROW_ID range planner. It computes `batch_N`, `TOTAL_BATCH` and the
  start/end of each batch.
- `Cohort`: the encounter population, the labelled and numbered diagnosis table, and
  `ROW_ID BETWEEN` range fetches.
- `Reshape`: the Fortran-order `reshape` and the row-0 label check.
- `Joint`: a counting stand-in for `mf.SummaryXYz`. It is a class whose `AddBatch` updates a
  2 x 2 x 2 count table per term pair. A ghost history records the encounters fed so far.
- `Ranking`: ICD-9 grouping, `GROUP BY ... COUNT(*)`, `ORDER BY N DESC` (as an insertion
  sort), and the `N BETWEEN` / `N >` selections.
- `Variables`: the `disease_of_interest` selection and the `var_dict` of
  `add_phenotype_columns`.
- `Pipeline`: the per-batch checks, the batch loop, the per-diagnosis iteration and the loop
  over diagnoses. These are methods that create and update the accumulators. Each is
  specified against the functions `RunBatches`, `DiagnosisRun` and `Summarized`.

## Model

| member | source | states |
|---|---|---|
| Batching.CeilDiv | src/main/python/mimic_mf_analysis/analysis.py:233 | `math.ceil(batch_N / batch_size)` is the least t with `t * b >= N`, that is `(t-1)*b < N <= t*b`. |
| Batching.PlanShape | src/main/python/mimic_mf_analysis/analysis.py:232-245 | For any MIN <= MAX there are ceil(N/b) >= 1 ranges. The first starts at MIN. Every range but the last spans b ids and the next starts right after it. The last ends at batch_N = MAX - MIN + 1, which equals MAX exactly when MIN = 1. |
| Batching.PlanTiles | src/main/python/mimic_mf_analysis/analysis.py:240-245 | With MIN = 1 the ranges lie inside 1..MAX, are contiguous, start at 1 and end at MAX. |
| Batching.RangeMembership | src/main/python/mimic_mf_analysis/analysis.py:241-245 | With MIN = 1, ROW_ID id is in batch k iff 1 <= id <= MAX and k = (id-1) div b. |
| Batching.PlanCovers | src/main/python/mimic_mf_analysis/analysis.py:240-245 | Every ROW_ID of 1..MAX is fetched by exactly one batch, (id-1) div b. No batch fetches an id outside 1..MAX. |
| Batching.PlanSizes | src/main/python/mimic_mf_analysis/analysis.py:232-245 | With MIN = 1, (T-1)*b < MAX <= T*b. All batches but the last have b ids. The last has MAX-(T-1)*b ids, between 1 and b. MAX <= b gives one batch. |
| Batching.TenIdsInBatchesOfFour | src/main/python/mimic_mf_analysis/analysis.py:240-245 | Ten ids in batches of four are 1-4, 5-8 and 9-10. |
| Batching.OversizedBatch | src/main/python/mimic_mf_analysis/analysis.py:240-245 | A table no larger than the batch size is fetched as the single range 1..MAX. |
| Batching.ShiftedMinLosesIds | src/main/python/mimic_mf_analysis/analysis.py:245 | With MIN > 1 and a single batch, the last end is batch_N, not MAX, so ROW_ID MAX is never fetched. MIN is 1 in this program (Cohort.NumberedRange). |
| Cohort.EncountersOfInterest | src/main/python/preparation.py:6-26 | The population has no duplicates and only admissions. In debug mode it has at most `limit` rows. Otherwise, or when fewer than `limit` exist, every admission is kept. |
| Cohort.DebugModeKeepsLimit | src/unittest/python/test_preparation.py:8-12 | With at least 100 distinct admissions, debug mode yields exactly 100 encounters. |
| Cohort.DiagnosisTable | src/main/python/mimic_mf_analysis/analysis.py:14-45 | One row per distinct encounter of interest, in order. DIAGNOSIS is 1 iff some diagnosis row of the encounter has the code as a prefix (and SEQ_NUM = 1 under primary-only), 0 otherwise. The older copy, src/main/python/analysis.py lines 15-46, is the same statement. |
| Cohort.OneRowPerEncounter | src/main/python/mimic_mf_analysis/analysis.py:37-42 | The LEFT JOIN keeps every encounter of interest and no other. No encounter appears twice. |
| Cohort.IndexDiagnosisTable | src/main/python/mimic_mf_analysis/analysis.py:69-70 | The AUTO_INCREMENT column numbers the rows 1..n in table order and changes no encounter or label. The older copy has the same statement at src/main/python/analysis.py lines 384-385. |
| Cohort.RowIdRange | src/main/python/mimic_mf_analysis/analysis.py:230-231 | MIN/MAX ROW_ID are NULL iff the table is empty. Otherwise they bound every ROW_ID and are attained. |
| Cohort.NumberedRange | src/main/python/mimic_mf_analysis/analysis.py:230-232 | On the indexed table MIN is 1 and MAX is its size, so batch_N is the table size. |
| Cohort.RowsBetweenMembers | src/main/python/mimic_mf_analysis/analysis.py:92-94 | `ROW_ID BETWEEN first AND last` returns exactly the rows whose ROW_ID is in the range. |
| Cohort.NumberedSlice | src/main/python/mimic_mf_analysis/analysis.py:92-94 | On the indexed table the range query returns the slice of rows first..last, in order. |
| Cohort.GatheredTiles | src/main/python/mimic_mf_analysis/analysis.py:240-252 | The rows fetched by the first k contiguous batches are the table up to the k-th batch's end. A covering plan fetches the whole table. |
| Cohort.PlanPartitionsTable | src/main/python/mimic_mf_analysis/analysis.py:229-252 | The batches of the plan from 1 to the table size fetch, one after the other, every row of JAX_mf_diag exactly once and in ROW_ID order. |
| Reshape.ColumnMajor | src/main/python/mimic_mf_analysis/analysis.py:262-265 | `reshape([rows, cols], order='F')` yields a rows x cols matrix whose entry (r, c) is flat entry c*rows + r. |
| Reshape.FlatIndexOnto | src/main/python/mimic_mf_analysis/analysis.py:262-265 | Every flat position is entry (i mod rows, i div rows) of the matrix, so no value is dropped. |
| Reshape.FlattenReshape | src/main/python/mimic_mf_analysis/analysis.py:262-265 | Flattening the reshaped matrix in column order gives back the flat list. |
| Reshape.ReshapeFlatten | src/main/python/mimic_mf_analysis/analysis.py:262-265 | Reshaping a column-order flattening gives back the matrix. |
| Reshape.LabelCheckIff | src/main/python/mimic_mf_analysis/analysis.py:268-273 | The label assert passes iff the first entry of every column, at c*rows, carries term c. |
| Reshape.LaidOutPasses | src/main/python/mimic_mf_analysis/analysis.py:268-273 | A list in the order the reshape assumes passes the label assert. |
| Reshape.BatchObservationsReshape | src/main/python/mimic_mf_analysis/analysis.py:96-121 | The batch phenotype query, delivered encounter-fastest, is in that order and passes the assert. Its value matrix holds at (r, c) whether term c is called for encounter r, that is, has a profile row with OCCURRANCE >= the minimum. |
| Reshape.SwappedRowPasses | src/main/python/mimic_mf_analysis/analysis.py:272-273 | The assert inspects only row 0. A two-encounter list with swapped second-row labels passes it although it is not in order, and a value lands under the wrong term. |
| Joint.CellInjective | src/main/python/mimic_mf_analysis/analysis.py:278-280 | The eight (x, y, z) combinations counted per term pair go to eight distinct cells. |
| Joint.CountSumsToRows | src/main/python/mimic_mf_analysis/analysis.py:278-280 | For every term pair the eight counts add up to the number of encounters fed. |
| Joint.CountPermutation | src/main/python/mimic_mf_analysis/analysis.py:278-280 | The counts depend only on the multiset of encounters fed, not on order or batching. |
| Joint.SelfPairSymmetric | src/main/python/mimic_mf_analysis/analysis.py:279-280 | When X and Y are the same matrix the count of (i, j, a, b) equals that of (j, i, b, a). |
| Joint.SelfPairDiagonal | src/main/python/mimic_mf_analysis/analysis.py:279-280 | When X and Y are the same matrix a term is never counted present and absent at once. |
| Joint.CountDistinctKeys | src/main/python/mimic_mf_analysis/analysis.py:278-280 | When every fed row has its own key (an encounter), a cell's count is the number of distinct keys whose rows fall in that cell. |
| Joint.SummaryXYz.constructor | src/main/python/mimic_mf_analysis/analysis.py:235-237 | A new accumulator holds its X terms, Y terms and diagnosis, has seen nothing and counts zero everywhere. |
| Joint.SummaryXYz.AddBatch | src/main/python/mimic_mf_analysis/analysis.py:278-280 | `add_batch(X, Y, z)` appends the batch's encounter rows, in order, to what was seen, and keeps the table equal to the counts over everything seen. |
| Joint.SummaryXYz.Get | src/main/python/mimic_mf_analysis/analysis.py:278-286 | A cell read from the returned accumulator is the count over every encounter fed to it. |
| Joint.SummaryXYz.PairTotal | src/main/python/mimic_mf_analysis/analysis.py:278-286 | The eight cells of a pair add up to the number of encounters fed. |
| Ranking.GroupCodeShape | src/main/python/preparation.py:173-177 | The grouped code is a prefix of the code: 4 characters for 'E' codes, 3 for all others ('V' included), whole if shorter. |
| Ranking.GroupCodeIdempotent | src/main/python/preparation.py:173-177 | Grouping a grouped code changes nothing. |
| Ranking.GroupedDiagnosisIsPositive | src/main/python/mimic_mf_analysis/analysis.py:34 | An encounter counted under a grouped code is labelled 1 by `createDiagnosisTable` for that code (not primary-only). |
| Ranking.InsertPermutes | src/main/python/preparation.py:185-186 | One insertion step of the ORDER BY adds exactly the inserted row. |
| Ranking.InsertSorted | src/main/python/preparation.py:185-186 | One insertion step keeps N DESC order. |
| Ranking.SortDescSorted | src/main/python/preparation.py:185-186 | `ORDER BY N DESC` yields rows in non-increasing N that are a permutation of the grouped rows. |
| Ranking.SortDescMembers | src/main/python/preparation.py:185-186 | Sorting keeps exactly the rows it is given. |
| Ranking.InsertKeys | src/main/python/preparation.py:185-186 | One insertion step adds the inserted row's key to the keys. A key that was not there keeps the keys distinct. |
| Ranking.SortDescKeys | src/main/python/preparation.py:185-186 | Sorting keeps the set of keys, and distinct keys stay distinct. |
| Ranking.GroupCountsMembers | src/main/python/preparation.py:179-184 | `GROUP BY key, COUNT(*)` has a row for a key iff some input row has it, and its N is the number of such input rows. No key has two rows. |
| Ranking.IcdPairsMembers | src/main/python/preparation.py:171-178 | JAX_temp_diag holds exactly the (encounter, grouped code) pairs of the diagnosis rows. |
| Ranking.IcdGroupSize | src/main/python/preparation.py:171-184 | The COUNT(*) of a grouped code is the number of distinct encounters with a diagnosis in the group. A group exists iff some diagnosis maps to it. |
| Ranking.RankIcdCountsEncounters | src/main/python/preparation.py:164-187 | JAX_diagFrequencyRank is in N DESC order and has a row for a grouped code iff the code occurs, with N the number of its distinct encounters. No grouped code has two rows. |
| Ranking.CalledPairsMembers | src/main/python/preparation.py:200-215 | `pd` holds a pair iff a profile row with OCCURRANCE >= the minimum gives it for an encounter that has a diagnosis with the prefix (any SEQ_NUM). |
| Ranking.CalledPairsDistinct | src/main/python/preparation.py:200-215 | On a profile grouped by encounter and term, `pd` has no duplicate pair. |
| Ranking.CalledGroupSize | src/main/python/preparation.py:216-219 | A term's COUNT(*) is the number of diagnosed encounters for which it is called. Its row exists iff there is one. |
| Ranking.RankHpoCountsEncounters | src/main/python/preparation.py:190-254 | Each phenotype ranking (text and lab share one model) is in N DESC order and has a row for a term iff it is called for a diagnosed encounter. N counts those encounters. No term has two rows. |
| Ranking.LabThresholdExample | src/main/python/preparation.py:223-254 | With minimum occurrence 3, of three encounters with a phenotype, one under the minimum and one without a 428 code, the ranking for 428 has N = 1. |
| Ranking.KeysBetweenMembers | src/main/python/mimic_mf_analysis/analysis.py:219-226 | The terms of interest are the keys of the ranking rows with N BETWEEN min AND max, at most one per row. |
| Ranking.KeysAbove | src/main/python/mimic_mf_analysis/analysis.py:188-190 | `WHERE N > threshold` keeps the key of a row iff its N exceeds the threshold, at most one per row. |
| Ranking.KeysAboveNone | src/main/python/mimic_mf_analysis/analysis.py:188-190 | A sorted ranking whose top N is at most the threshold selects nothing. |
| Ranking.KeysAboveIsTop | src/main/python/mimic_mf_analysis/analysis.py:188-190 | On a ranking in N DESC order the selected codes are the keys of a leading block. Every row of that block is above the threshold; the others are not. |
| Variables.SelectDiseases | src/main/python/mimic_mf_analysis/analysis.py:188-196 | 'calculated' selects the ranked codes with N above the threshold. A non-empty list is taken as given. Anything else raises the RuntimeError. |
| Variables.CalculatedAreTopRanked | src/main/python/mimic_mf_analysis/analysis.py:188-190 | On a sorted ranking, 'calculated' selects the keys of exactly the leading rows above the threshold. |
| Variables.EmptyListIsRefused | src/main/python/mimic_mf_analysis/analysis.py:191-196 | An empty list, and a string other than 'calculated', raise the RuntimeError. |
| Variables.ParseNatToString | src/main/python/mimic_mf_analysis/analysis.py:306 | `str(i)` can be read back to i. |
| Variables.ColumnNameInjective | src/main/python/mimic_mf_analysis/analysis.py:303-321 | 'V' + str(i) and 'V' + str(j) are equal iff i = j. |
| Variables.ColumnNamesCount | src/main/python/mimic_mf_analysis/analysis.py:303-321 | The names V1 .. Vn are n distinct names. |
| Variables.ColumnMapContents | src/main/python/mimic_mf_analysis/analysis.py:300-333 | After n entries `var_dict` has exactly the keys V1 .. Vn, each mapped to its own term; no entry overwrites another. |
| Variables.PhenotypeColumns | src/main/python/mimic_mf_analysis/analysis.py:300-333 | `var_dict` has m + n entries V1 .. V(m+n). Vi is ('LabHpo', lab term i) for i <= m and ('TextHpo', text term i-m) after that. |
| Variables.ColumnValueIsStrict | src/main/python/mimic_mf_analysis/analysis.py:310-317 | A column is 1 iff OCCURRANCE > threshold, i.e. called at threshold + 1. The batch queries and rankings count `>=`. |
| Pipeline.DiagnosisRows | src/main/python/mimic_mf_analysis/analysis.py:211-212 | The indexed JAX_mf_diag of a diagnosis has one numbered row per distinct encounter of interest. |
| Pipeline.CheckBatch | src/main/python/mimic_mf_analysis/analysis.py:252-273 | A batch passes iff both flat lists have rows x terms entries and, when it is non-empty, carry the terms in their row-0 labels. The first failing assert, in code order, is the error. An empty batch passes and is skipped. A passing batch's matrices are the Fortran-order reshape of the values, with the DIAGNOSIS column as z. |
| Pipeline.QueriedBatchIsAccepted | src/main/python/mimic_mf_analysis/analysis.py:247-273 | A batch whose phenotype rows come in the reshape's order passes, and is kept iff it has encounters. Its matrices say, per encounter and term, whether the term is called. |
| Pipeline.RunBatches | src/main/python/mimic_mf_analysis/analysis.py:240-281 | Every batch kept by the loop has one matrix row per encounter and one column per term of interest. |
| Pipeline.DiagnosisRunFits | src/main/python/mimic_mf_analysis/analysis.py:219-281 | A successful diagnosis carries the terms of interest and batches shaped by them. |
| Pipeline.RunBatchesGather | src/main/python/mimic_mf_analysis/analysis.py:240-281 | The kept batches' diagnosis vectors, concatenated, are the DIAGNOSIS column of the rows of the first k ranges. |
| Pipeline.RunFeedsTable | src/main/python/mimic_mf_analysis/analysis.py:240-281 | A successful batch loop from ROW_ID 1 feeds each accumulator the whole DIAGNOSIS column, in ROW_ID order. |
| Pipeline.EveryEncounterFedOnce | src/main/python/mimic_mf_analysis/analysis.py:203-281 | For a successful diagnosis each accumulator is fed one row per row of the labelled JAX_mf_diag, in order, carrying that row's DIAGNOSIS label. |
| Pipeline.SelfPairsSymmetric | src/main/python/mimic_mf_analysis/analysis.py:279-280 | The text x text and lab x lab accumulators count symmetrically, and never see a term present and absent at once. |
| Pipeline.EmptyPopulationFails | src/main/python/mimic_mf_analysis/analysis.py:229-233 | A diagnosis fails on NULL MIN/MAX ROW_ID exactly when there is no encounter of interest. |
| Pipeline.PassingBatchesRun | src/main/python/mimic_mf_analysis/analysis.py:240-281 | If every batch passes its checks, the loop reaches the end of the plan. |
| Pipeline.QueriedBatchPasses | src/main/python/mimic_mf_analysis/analysis.py:247-273 | With rows delivered in the reshape's order, every range's batch passes. |
| Pipeline.QueriedRunSucceeds | src/main/python/mimic_mf_analysis/analysis.py:229-281 | With rows delivered in that order, a diagnosis succeeds iff there is an encounter of interest. |
| Pipeline.CalledBatchRows | src/main/python/mimic_mf_analysis/analysis.py:262-280 | A batch whose matrices say which terms are called for its encounters feeds each pairing, per encounter, the called values of its X and Y terms and the label. |
| Pipeline.QueriedBatchRows | src/main/python/mimic_mf_analysis/analysis.py:247-280 | With rows delivered in the reshape's order, every range's batch passes, is skipped only when empty, and feeds each pairing the called values and labels of the range's encounters. |
| Pipeline.GatherStep | src/main/python/mimic_mf_analysis/analysis.py:240-281 | One more range whose batch feeds its encounters' rows extends the rows fed so far by exactly those rows. |
| Pipeline.GatherFeeds | src/main/python/mimic_mf_analysis/analysis.py:240-281 | If the first k ranges' batches each feed their encounters' rows, the loop gets through them and feeds the rows of everything they fetch, in order. |
| Pipeline.QueriedFeedsCalled | src/main/python/mimic_mf_analysis/analysis.py:203-281 | With rows delivered in that order and an encounter of interest, the run succeeds and each pairing is fed, per row of JAX_mf_diag in ROW_ID order, whether each X and Y term of interest is called for that encounter, and its DIAGNOSIS label. |
| Pipeline.DiagnosisRowsLabels | src/main/python/mimic_mf_analysis/analysis.py:14-45 | The indexed JAX_mf_diag lists the distinct encounters of interest in order, each labelled by whether it has a diagnosis row that counts. |
| Pipeline.CellKeysOfTable | src/main/python/mimic_mf_analysis/analysis.py:14-45 | The encounters of the JAX_mf_diag rows that fall in a cell are exactly the encounters of interest in that cell. |
| Pipeline.TableCounts | src/main/python/mimic_mf_analysis/analysis.py:166 | Over the rows meant for JAX_mf_diag, the count of a cell of a pair is the number of encounters of interest in that cell. |
| Pipeline.QueriedCounts | src/main/python/mimic_mf_analysis/analysis.py:166 | With rows delivered in that order, for each pair of terms of interest and each (X, Y, diagnosis) combination, the count over the rows a pairing is fed is the number of encounters of interest with that combination. |
| Pipeline.ProducedCounts | src/main/python/mimic_mf_analysis/analysis.py:166 | Once SummarizeDiagnosis has produced the summaries, `Get(i, j, a, b, c)` can be called on each accumulator. It returns the count over what that accumulator was fed, which is the number of encounters of interest with X term i called as a, Y term j as b and the diagnosis as c. |
| Pipeline.RunBatchesStep | src/main/python/mimic_mf_analysis/analysis.py:240-281 | One more range either ends the run with its error, skips an empty batch, or appends the batch. |
| Pipeline.RunBatchesFailed | src/main/python/mimic_mf_analysis/analysis.py:256-273 | A failed assert is final: the later ranges do not change the outcome. |
| Pipeline.DiagnosisRunUnfold | src/main/python/mimic_mf_analysis/analysis.py:229-233 | On a non-empty table MIN is 1, MAX the size, and the diagnosis runs the batch loop over that plan. |
| Pipeline.FeedAll | src/main/python/mimic_mf_analysis/analysis.py:278-280 | The three `add_batch` calls feed the batch to text x lab (text, lab), text x text (text, text) and lab x lab (lab, lab). |
| Pipeline.BatchStep | src/main/python/mimic_mf_analysis/analysis.py:241-280 | Batch i of the loop, from its start/end indices, fails iff the planned run fails at batch i, with the same error. Otherwise the run reaches i + 1 and the three accumulators hold exactly the batches kept so far. |
| Pipeline.BatchLoop | src/main/python/mimic_mf_analysis/analysis.py:240-281 | The batch loop fails iff the planned run fails, with its error. Otherwise the three accumulators hold exactly the kept batches. The older copy runs the same loop, src/main/python/analysis.py lines 533-573. |
| Pipeline.SummarizeDiagnosis | src/main/python/mimic_mf_analysis/analysis.py:203-281 | One diagnosis fails iff DiagnosisRun fails, with its error. Otherwise three fresh accumulators hold the run's terms and have been fed its batches. |
| Pipeline.SummarizedStep | src/main/python/mimic_mf_analysis/analysis.py:235-237 | Recording a successful diagnosis's summaries under its key extends the dictionaries to one more diagnosis. |
| Pipeline.SummarizeNext | src/main/python/mimic_mf_analysis/analysis.py:203-281 | One iteration of the diagnosis loop fails iff that diagnosis fails, with its error. Otherwise the dictionaries summarize one more diagnosis. |
| Pipeline.RunJob | src/main/python/mimic_mf_analysis/analysis.py:198-286 | The job succeeds iff every diagnosis succeeds. Otherwise its error is that of the first failing diagnosis. On success the three dictionaries hold, for each diagnosis, accumulators fed with its run. |
| Pipeline.Summarize | src/main/python/mimic_mf_analysis/analysis.py:155-286 | An unsupported `disease_of_interest` raises before any diagnosis. Otherwise the run over the selected codes succeeds iff each of them succeeds, and summarizes them all. |
| Pipeline.SummarizeLegacy | src/main/python/analysis.py:486-489 | The older copy queries the calculated list but analyses exactly 428, 584 and 038. It succeeds iff those three do. |

## Left out

- SQL execution, the connection module `mydb` and the temporary tables are not executed. Each query is a function of the tables it reads.
- Pipeline.Database: the rows the two batch phenotype queries return are arbitrary inputs, because those queries have no ORDER BY. The encounter-fastest order the reshape needs is an assumption (`Pipeline.Queried`). `Reshape.SwappedRowPasses` shows what the code lets through without it.
- The rows of `SELECT * FROM JAX_mf_diag WHERE ROW_ID BETWEEN ...` are assumed to come in ROW_ID order (a primary-key range scan).
- The batch plan of a diagnosis is built from 1 and the table size, which `Cohort.NumberedRange` proves are MIN and MAX ROW_ID.
- Batching.CeilDiv: `math.ceil` of a float division is modelled as exact integer ceiling. Floating-point rounding at very large counts is not modelled.
- Cohort.DiagnosisTable: `LIKE 'code%'` is modelled as a case-sensitive prefix test. MySQL's case-insensitive collation and `_`/`%` wildcards inside the code are not modelled.
- Cohort.DiagnosisTable: NULL identifiers, and the string '0'/'1' cast to int, are not modelled. Labels are booleans.
- Ranking.RankIcd: a diagnosis row with a NULL ICD9_CODE is not modelled. The RIGHT JOIN that builds JAX_diagnosisProfile (src/main/python/preparation.py line 47) gives one to every encounter without a diagnosis. `SUBSTRING` of NULL then forms a NULL group. The `LIKE 'V%'` and `LIKE 'E%'` tests are modelled as case-sensitive first-character tests, not under MySQL's case-insensitive collation.
- Cohort.EncountersOfInterest: `LIMIT` without ORDER BY may return any `limit` of the distinct admissions. The model keeps the first `limit` in scan order. Its contract bounds only the size and the membership, which hold for any choice.
- Ranking.SortDesc: ties in `ORDER BY N DESC` are broken by insertion order. SQL leaves the tie order unspecified, and no property depends on it.
- Ranking.RankHpo: the phenotype rankings take no primary-only flag. Like the code, they count a diagnosis row of any SEQ_NUM.
- Ranking.RankHpoCountsEncounters: N counts called encounters only on a profile with one row per (encounter, term) (`UniqueKeys`), which the profile builders' GROUP BY provides. The profile builders themselves are not part of this model.
- Joint.SummaryXYz: the internals of `mf.SummaryXYz` are not part of this model. The class is a counting stand-in: per term pair, the 2 x 2 x 2 table of (X, Y, diagnosis). The mutual-information arithmetic built on those counts (floating point) is not modelled.
- `add_diag_columns` and the ALTER/UPDATE statements of `add_phenotype_columns` are SQL on the synergy table. Only the `var_dict` they return and the value rule of each column (`Variables.ColumnValue`) are modelled.
- Logging, `tqdm` progress bars and the `i % 100` log condition write nothing the model returns, and are left out.
- `precompute_mf`, `precompute_mf_dict`, `iterate`, `iterate_in_batch`, the phenotype temp-table builders (`textHpoProfile`, `labHpoProfile`, `diagnosisProfile`, `initTables`), `app.py`, `cluster_analysis.py` and `predict_textHpo.py` are outside the modelled core.
- The last batch holds the remaining 1..b ids (`Batching.BatchRange`).
- A failed batch assert propagates out of `RunJob`, so the whole job ends.
- An empty JAX_mf_diag has NULL MIN/MAX ROW_ID. The code then fails in the arithmetic on them, which is modelled as the error `NullRowRange`.
