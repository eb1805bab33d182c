/**
 * Which diagnoses a run analyses (`disease_of_interest`) and how `add_phenotype_columns`
 * names the phenotype variables of the multivariate table: V1 .. Vm for the lab terms,
 * then V(m+1) .. V(m+n) for the text terms.
 */
module Variables {
  import opened Wrappers
  import opened Cohort
  import opened Reshape
  import opened Ranking

  /** The `disease_of_interest` argument: a string, a list of ICD-9 codes, or a value of another type. */
  datatype DiseaseArg = Text(s: string) | CodeList(codes: seq<string>) | OtherValue

  /** `raise RuntimeError`: the argument is neither 'calculated' nor a non-empty list. */
  datatype SelectionError = UnsupportedDiseaseArg

  /**
   * 'calculated' selects every grouped code of JAX_diagFrequencyRank with N above the
   * threshold, a non-empty list is taken as given, and anything else is an error.
   */
  function SelectDiseases(arg: DiseaseArg, ranked: seq<Tally>, threshold: int): (r: Result<seq<string>, SelectionError>)
    ensures r.Err? <==> !(arg == Text("calculated") || (arg.CodeList? && |arg.codes| > 0))
    ensures r.Ok? && arg.CodeList? ==> r.value == arg.codes && |r.value| > 0
    ensures r.Ok? && arg.Text? ==> forall d :: d in r.value <==> exists t :: t in ranked && t.key == d && t.n > threshold
  {
    if arg == Text("calculated") then Ok(KeysAbove(ranked, threshold))
    else if arg.CodeList? && |arg.codes| > 0 then Ok(arg.codes)
    else Err(UnsupportedDiseaseArg)
  }

  /** With 'calculated' on a ranking in N DESC order the diagnoses analysed are the leading rows above the threshold. */
  lemma CalculatedAreTopRanked(ranked: seq<Tally>, threshold: int)
    requires SortedDesc(ranked)
    ensures exists k :: (0 <= k <= |ranked| && SelectDiseases(Text("calculated"), ranked, threshold) == Ok(Keys(ranked[..k])) &&
      (forall i :: 0 <= i < k ==> ranked[i].n > threshold) &&
      (forall i :: k <= i < |ranked| ==> ranked[i].n <= threshold))
  {
    KeysAboveIsTop(ranked, threshold);
    var k :| TopBlock(ranked, threshold, k);
    assert SelectDiseases(Text("calculated"), ranked, threshold) == Ok(Keys(ranked[..k]));
  }

  /** An empty list is refused like any other unsupported argument. */
  lemma EmptyListIsRefused(ranked: seq<Tally>, threshold: int)
    ensures SelectDiseases(CodeList([]), ranked, threshold) == Err(UnsupportedDiseaseArg)
    ensures SelectDiseases(Text("428"), ranked, threshold) == Err(UnsupportedDiseaseArg)
  {
  }

  function DigitChar(d: nat): char
    requires d < 10
  {
    (48 + d) as char
  }

  /** `str(n)` for a natural number: its decimal digits, without leading zeros. */
  function NatToString(n: nat): (s: string)
    ensures |s| > 0 && forall k :: 0 <= k < |s| ==> '0' <= s[k] <= '9'
    decreases n
  {
    if n < 10 then [DigitChar(n)] else NatToString(n / 10) + [DigitChar(n % 10)]
  }

  /** The value of a string of decimal digits. */
  function ParseDigits(s: string): int {
    if s == [] then 0 else ParseDigits(s[..|s| - 1]) * 10 + (s[|s| - 1] as int - 48)
  }

  /** Reading back `str(n)` gives n, so different numbers have different decimal strings. */
  lemma {:induction false} ParseNatToString(n: nat)
    ensures ParseDigits(NatToString(n)) == n
    decreases n
  {
    var s := NatToString(n);
    if n >= 10 {
      ParseNatToString(n / 10);
      assert s[..|s| - 1] == NatToString(n / 10);
    } else {
      assert s[..0] == [];
    }
  }

  /** `'V' + str(i)`. */
  function ColumnName(i: nat): string {
    "V" + NatToString(i)
  }

  /** Column names of different indices differ. */
  lemma ColumnNameInjective(i: nat, j: nat)
    ensures ColumnName(i) == ColumnName(j) <==> i == j
  {
    assert ColumnName(i)[1..] == NatToString(i);
    assert ColumnName(j)[1..] == NatToString(j);
    ParseNatToString(i);
    ParseNatToString(j);
  }

  /** The names V1 .. Vn. */
  ghost function ColumnNames(n: nat): set<string> {
    set i | 1 <= i <= n :: ColumnName(i)
  }

  /** The names V1 .. V(n+1) are the names V1 .. Vn and one new name. */
  lemma ColumnNamesNext(n: nat)
    ensures ColumnNames(n + 1) == ColumnNames(n) + {ColumnName(n + 1)}
    ensures ColumnName(n + 1) !in ColumnNames(n)
  {
    forall i | 1 <= i <= n
      ensures ColumnName(i) != ColumnName(n + 1)
    {
      ColumnNameInjective(i, n + 1);
    }
  }

  /** There are exactly n names V1 .. Vn. */
  lemma {:induction false} ColumnNamesCount(n: nat)
    ensures |ColumnNames(n)| == n
  {
    if n > 0 {
      ColumnNamesCount(n - 1);
      ColumnNamesNext(n - 1);
    }
  }

  /** The phenotype that column Vi stands for: lab terms first, then text terms. */
  function ColumnTerm(labHpos: seq<string>, textHpos: seq<string>, i: nat): (Family, string)
    requires 1 <= i <= |labHpos| + |textHpos|
  {
    if i <= |labHpos| then (LabHpo, labHpos[i - 1]) else (TextHpo, textHpos[i - |labHpos| - 1])
  }

  /** var_dict after its first n entries V1 .. Vn. */
  function ColumnMap(labHpos: seq<string>, textHpos: seq<string>, n: nat): map<string, (Family, string)>
    requires n <= |labHpos| + |textHpos|
  {
    if n == 0 then map[] else ColumnMap(labHpos, textHpos, n - 1)[ColumnName(n) := ColumnTerm(labHpos, textHpos, n)]
  }

  /** The first n entries name V1 .. Vn, each mapped to its own term: no entry overwrites another. */
  lemma {:induction false} ColumnMapContents(labHpos: seq<string>, textHpos: seq<string>, n: nat)
    requires n <= |labHpos| + |textHpos|
    ensures ColumnMap(labHpos, textHpos, n).Keys == ColumnNames(n)
    ensures forall i :: 1 <= i <= n ==> ColumnMap(labHpos, textHpos, n)[ColumnName(i)] == ColumnTerm(labHpos, textHpos, i)
  {
    if n > 0 {
      ColumnMapContents(labHpos, textHpos, n - 1);
      ColumnNamesNext(n - 1);
    }
  }

  /**
   * The var_dict of `add_phenotype_columns`: column Vi names the i-th lab term for i <= m and
   * the (i-m)-th text term after that; there is one column per term, duplicates included.
   */
  method PhenotypeColumns(labHpos: seq<string>, textHpos: seq<string>) returns (varDict: map<string, (Family, string)>)
    ensures varDict == ColumnMap(labHpos, textHpos, |labHpos| + |textHpos|)
    ensures varDict.Keys == ColumnNames(|labHpos| + |textHpos|)
    ensures |varDict| == |labHpos| + |textHpos|
    ensures forall i :: 1 <= i <= |labHpos| ==> varDict[ColumnName(i)] == (LabHpo, labHpos[i - 1])
    ensures forall i :: |labHpos| < i <= |labHpos| + |textHpos| ==>
      varDict[ColumnName(i)] == (TextHpo, textHpos[i - |labHpos| - 1])
  {
    var m := |labHpos|;
    varDict := map[];
    var i := 0;
    var k := 0;
    while k < m
      invariant 0 <= k <= m && i == k
      invariant varDict == ColumnMap(labHpos, textHpos, i)
    {
      i := i + 1;
      varDict := varDict[ColumnName(i) := (LabHpo, labHpos[k])];
      k := k + 1;
    }
    k := 0;
    while k < |textHpos|
      invariant 0 <= k <= |textHpos| && i == m + k
      invariant varDict == ColumnMap(labHpos, textHpos, i)
    {
      i := i + 1;
      varDict := varDict[ColumnName(i) := (TextHpo, textHpos[k])];
      k := k + 1;
    }
    ColumnMapContents(labHpos, textHpos, i);
    ColumnNamesCount(i);
  }

  /**
   * The value `add_phenotype_columns` gives column Vi for an encounter: 1 iff a profile row for
   * the encounter and the term has OCCURRANCE strictly above the threshold; encounters without
   * such a row keep the default 0.
   */
  predicate ColumnValue(profile: seq<ProfileRecord>, enc: EncounterId, term: string, threshold: int) {
    exists rec :: rec in profile && rec.enc == enc && rec.term == term && rec.occurrence > threshold
  }

  /**
   * The column uses a strict threshold where the batch queries and the rankings use `>=`:
   * a column with threshold t marks exactly the encounters that the rankings call at t + 1.
   */
  lemma ColumnValueIsStrict(profile: seq<ProfileRecord>, enc: EncounterId, term: string, threshold: int)
    ensures ColumnValue(profile, enc, term, threshold) <==> Called(profile, threshold + 1, enc, term)
    ensures ColumnValue(profile, enc, term, threshold) ==> Called(profile, threshold, enc, term)
  {
  }
}
