/**
 * The frequency rankings of `preparation.py`: JAX_diagFrequencyRank built by `rankICD`
 * and JAX_textHpoFrequencyRank / JAX_labHpoFrequencyRank built by `rankHpoFromText`
 * and `rankHpoFromLab`, and the threshold queries that read them back.
 */
module Ranking {
  import opened Seqs
  import opened Cohort

  /** The CASE of `rankICD`: a 'V' code keeps 3 characters, an 'E' code 4, any other code 3. */
  function GroupCode(code: string): string {
    if |code| > 0 && code[0] == 'V' then code[..Min(3, |code|)]
    else if |code| > 0 && code[0] == 'E' then code[..Min(4, |code|)]
    else code[..Min(3, |code|)]
  }

  /**
   * A grouped code is the code cut to 4 characters for 'E' codes and to 3 otherwise
   * (shorter codes are kept whole), so it is a prefix of the code.
   */
  lemma GroupCodeShape(code: string)
    ensures IsPrefix(GroupCode(code), code)
    ensures |code| > 0 && code[0] == 'E' ==> |GroupCode(code)| == Min(4, |code|)
    ensures !(|code| > 0 && code[0] == 'E') ==> |GroupCode(code)| == Min(3, |code|)
  {
  }

  /** Grouping a grouped code changes nothing. */
  lemma GroupCodeIdempotent(code: string)
    ensures GroupCode(GroupCode(code)) == GroupCode(code)
  {
    var g := GroupCode(code);
    if |code| > 0 {
      assert |g| > 0 ==> g[0] == code[0];
    }
  }

  /**
   * A diagnosis row counted under a grouped code makes its encounter positive for that code
   * in `createDiagnosisTable` (LIKE 'g%'), without the primary-only restriction.
   */
  lemma GroupedDiagnosisIsPositive(diagnoses: seq<DiagnosisRecord>, rec: DiagnosisRecord)
    requires rec in diagnoses
    ensures rec.enc in PositiveEncounters(diagnoses, GroupCode(rec.icd9), false)
  {
    GroupCodeShape(rec.icd9);
    assert Matches(rec, GroupCode(rec.icd9), false);
  }

  /** A row of a frequency table: a code or term and its count N. */
  datatype Tally = Tally(key: string, n: int)

  /** ORDER BY N DESC. */
  predicate SortedDesc(s: seq<Tally>) {
    forall i, j :: 0 <= i < j < |s| ==> s[i].n >= s[j].n
  }

  /** Place t before the first row with a smaller N. */
  function Insert(t: Tally, s: seq<Tally>): seq<Tally> {
    if s == [] then [t]
    else if t.n >= s[0].n then [t] + s
    else [s[0]] + Insert(t, s[1..])
  }

  /** A row whose N is no smaller than any N of a sorted table can go in front of it. */
  lemma SortedCons(x: Tally, s: seq<Tally>)
    requires SortedDesc(s) && forall k :: 0 <= k < |s| ==> s[k].n <= x.n
    ensures SortedDesc([x] + s)
  {
    var r := [x] + s;
    forall i, j | 0 <= i < j < |r| ensures r[i].n >= r[j].n {
      assert r[j] == s[j - 1];
      if i > 0 {
        assert r[i] == s[i - 1];
      }
    }
  }

  /** Inserting adds exactly the one row. */
  lemma {:induction false} InsertPermutes(t: Tally, s: seq<Tally>)
    ensures multiset(Insert(t, s)) == multiset(s) + multiset{t}
  {
    if s != [] && t.n < s[0].n {
      InsertPermutes(t, s[1..]);
      assert s == [s[0]] + s[1..];
    }
  }

  /** Inserting into a table in N DESC order keeps that order. */
  lemma {:induction false} InsertSorted(t: Tally, s: seq<Tally>)
    requires SortedDesc(s)
    ensures SortedDesc(Insert(t, s))
  {
    if s == [] {
    } else if t.n >= s[0].n {
      SortedCons(t, s);
    } else {
      var tail := s[1..];
      assert SortedDesc(tail);
      InsertSorted(t, tail);
      InsertPermutes(t, tail);
      var rest := Insert(t, tail);
      forall k | 0 <= k < |rest| ensures rest[k].n <= s[0].n {
        assert rest[k] in multiset(rest);
        if rest[k] != t {
          var i :| 0 <= i < |tail| && tail[i] == rest[k];
          assert s[i + 1] == tail[i];
        }
      }
      SortedCons(s[0], rest);
    }
  }

  /** The rows of a table in ORDER BY N DESC; rows with equal N keep no particular order. */
  function SortDesc(s: seq<Tally>): seq<Tally> {
    if s == [] then [] else Insert(s[|s| - 1], SortDesc(s[..|s| - 1]))
  }

  /** The sorted table is in N DESC order and is a permutation of the table. */
  lemma {:induction false} SortDescSorted(s: seq<Tally>)
    ensures SortedDesc(SortDesc(s))
    ensures multiset(SortDesc(s)) == multiset(s)
  {
    if s != [] {
      SortDescSorted(s[..|s| - 1]);
      InsertSorted(s[|s| - 1], SortDesc(s[..|s| - 1]));
      InsertPermutes(s[|s| - 1], SortDesc(s[..|s| - 1]));
      assert s == s[..|s| - 1] + [s[|s| - 1]];
    }
  }

  /** Sorting keeps exactly the rows of the table. */
  lemma SortDescMembers(s: seq<Tally>)
    ensures forall t :: t in SortDesc(s) <==> t in s
  {
    var r := SortDesc(s);
    SortDescSorted(s);
    forall t ensures t in r <==> t in s {
      assert t in r <==> t in multiset(r);
      assert t in s <==> t in multiset(s);
    }
  }

  /** Inserting a row adds its key to the keys of the table; a key that is new keeps the keys distinct. */
  lemma {:induction false} InsertKeys(t: Tally, s: seq<Tally>)
    ensures forall k :: k in Keys(Insert(t, s)) <==> k == t.key || k in Keys(s)
    ensures NoDuplicates(Keys(s)) && t.key !in Keys(s) ==> NoDuplicates(Keys(Insert(t, s)))
  {
    if s == [] {
      assert Keys(Insert(t, s)) == [t.key];
    } else if t.n >= s[0].n {
      assert Keys(Insert(t, s)) == [t.key] + Keys(s);
      NoDuplicatesCons(t.key, Keys(s));
    } else {
      var tail := s[1..];
      InsertKeys(t, tail);
      assert Keys(tail) == Keys(s)[1..];
      assert Keys(s) == [s[0].key] + Keys(tail);
      assert Keys(Insert(t, s)) == [s[0].key] + Keys(Insert(t, tail));
      NoDuplicatesCons(s[0].key, Keys(tail));
      NoDuplicatesCons(s[0].key, Keys(Insert(t, tail)));
    }
  }

  /** Sorting keeps the keys of the table, and keeps them distinct. */
  lemma {:induction false} SortDescKeys(s: seq<Tally>)
    ensures forall k :: k in Keys(SortDesc(s)) <==> k in Keys(s)
    ensures NoDuplicates(Keys(s)) ==> NoDuplicates(Keys(SortDesc(s)))
  {
    if s != [] {
      var prefix := s[..|s| - 1];
      var last := s[|s| - 1];
      SortDescKeys(prefix);
      InsertKeys(last, SortDesc(prefix));
      assert Keys(s) == Keys(prefix) + [last.key];
      NoDuplicatesSnoc(Keys(prefix), last.key);
    }
  }

  /** `SELECT key, COUNT(*) AS N ... GROUP BY key`: one row per distinct key, counting its rows. */
  function GroupCounts<K>(pairs: seq<(K, string)>): seq<Tally> {
    var keys := Distinct(Seconds(pairs));
    seq(|keys|, k requires 0 <= k < |keys| => Tally(keys[k], CountValue(pairs, keys[k])))
  }

  /** The grouped table has a row for a key exactly when some pair has that key, and its N counts them. */
  lemma GroupCountsMembers<K>(pairs: seq<(K, string)>)
    ensures forall t :: t in GroupCounts(pairs) <==> (exists p :: p in pairs && p.1 == t.key) && t.n == CountValue(pairs, t.key)
    ensures NoDuplicates(Keys(GroupCounts(pairs)))
  {
    var keys := Distinct(Seconds(pairs));
    var r := GroupCounts(pairs);
    assert Keys(r) == keys;
    assert forall v :: v in Seconds(pairs) <==> exists p :: p in pairs && p.1 == v by {
      forall v | v in Seconds(pairs) ensures exists p :: p in pairs && p.1 == v {
        var k :| 0 <= k < |pairs| && Seconds(pairs)[k] == v;
        assert pairs[k] in pairs;
      }
      forall v | exists p :: p in pairs && p.1 == v ensures v in Seconds(pairs) {
        var p :| p in pairs && p.1 == v;
        var k :| 0 <= k < |pairs| && pairs[k] == p;
        assert Seconds(pairs)[k] == v;
      }
    }
    assert forall t :: t in r <==> t.key in keys && t.n == CountValue(pairs, t.key) by {
      forall t: Tally | t.key in keys && t.n == CountValue(pairs, t.key) ensures t in r {
        var k :| 0 <= k < |keys| && keys[k] == t.key;
        assert r[k] == t;
      }
    }
  }

  /** JAX_temp_diag: the DISTINCT (encounter, grouped code) pairs, in scan order. */
  function IcdPairs(diagnoses: seq<DiagnosisRecord>): seq<(EncounterId, string)> {
    Distinct(seq(|diagnoses|, k requires 0 <= k < |diagnoses| => (diagnoses[k].enc, GroupCode(diagnoses[k].icd9))))
  }

  /** The encounters with a diagnosis row whose grouped code is g. */
  ghost function GroupEncounters(diagnoses: seq<DiagnosisRecord>, g: string): set<EncounterId> {
    set rec | rec in diagnoses && GroupCode(rec.icd9) == g :: rec.enc
  }

  /** JAX_diagFrequencyRank. */
  function RankIcd(diagnoses: seq<DiagnosisRecord>): seq<Tally> {
    SortDesc(GroupCounts(IcdPairs(diagnoses)))
  }

  /** The pairs of JAX_temp_diag are those of some diagnosis row. */
  lemma IcdPairsMembers(diagnoses: seq<DiagnosisRecord>)
    ensures forall p :: p in IcdPairs(diagnoses) <==> exists rec :: rec in diagnoses && p == (rec.enc, GroupCode(rec.icd9))
  {
    var all := seq(|diagnoses|, k requires 0 <= k < |diagnoses| => (diagnoses[k].enc, GroupCode(diagnoses[k].icd9)));
    forall p | exists rec :: rec in diagnoses && p == (rec.enc, GroupCode(rec.icd9)) ensures p in all {
      var rec :| rec in diagnoses && p == (rec.enc, GroupCode(rec.icd9));
      var k :| 0 <= k < |diagnoses| && diagnoses[k] == rec;
      assert all[k] == p;
    }
  }

  /** COUNT(*) of a group of JAX_temp_diag is the number of distinct encounters in that group. */
  lemma IcdGroupSize(diagnoses: seq<DiagnosisRecord>, g: string)
    ensures CountValue(IcdPairs(diagnoses), g) == |GroupEncounters(diagnoses, g)|
    ensures (exists p :: p in IcdPairs(diagnoses) && p.1 == g) <==> (exists rec :: rec in diagnoses && GroupCode(rec.icd9) == g)
  {
    var pairs := IcdPairs(diagnoses);
    IcdPairsMembers(diagnoses);
    CountDistinctPairs(pairs, g);
    forall e | e in GroupEncounters(diagnoses, g) ensures e in KeysWith(pairs, g) {
      var rec :| rec in diagnoses && GroupCode(rec.icd9) == g && rec.enc == e;
      assert (e, g) in pairs;
    }
    assert KeysWith(pairs, g) == GroupEncounters(diagnoses, g);
    if exists rec :: rec in diagnoses && GroupCode(rec.icd9) == g {
      var rec :| rec in diagnoses && GroupCode(rec.icd9) == g;
      assert (rec.enc, g) in pairs;
    }
  }

  /**
   * JAX_diagFrequencyRank is in descending order of N and holds exactly one row per grouped
   * code that occurs, whose N is the number of distinct encounters with a diagnosis in that group.
   */
  lemma RankIcdCountsEncounters(diagnoses: seq<DiagnosisRecord>)
    ensures SortedDesc(RankIcd(diagnoses))
    ensures NoDuplicates(Keys(RankIcd(diagnoses)))
    ensures forall t :: t in RankIcd(diagnoses) <==>
      (exists rec :: rec in diagnoses && GroupCode(rec.icd9) == t.key) && t.n == |GroupEncounters(diagnoses, t.key)|
  {
    var groups := GroupCounts(IcdPairs(diagnoses));
    GroupCountsMembers(IcdPairs(diagnoses));
    SortDescSorted(groups);
    SortDescMembers(groups);
    SortDescKeys(groups);
    forall t: Tally
      ensures t in groups <==>
        (exists rec :: rec in diagnoses && GroupCode(rec.icd9) == t.key) && t.n == |GroupEncounters(diagnoses, t.key)|
    {
      IcdGroupSize(diagnoses, t.key);
    }
  }

  /** No two rows of a profile are for the same encounter and term (the profile tables group by both). */
  predicate UniqueKeys(profile: seq<ProfileRecord>) {
    forall i, j :: 0 <= i < j < |profile| ==>
      (profile[i].enc, profile[i].term) != (profile[j].enc, profile[j].term)
  }

  /**
   * The CTE `pd` of `rankHpoFromText` / `rankHpoFromLab` as (encounter, term) pairs: the profile
   * rows with OCCURRANCE >= minOccurrence whose encounter has a diagnosis with the prefix (any SEQ_NUM).
   */
  function CalledPairs(profile: seq<ProfileRecord>, diagnoses: seq<DiagnosisRecord>, diagnosis: string, minOccurrence: int)
    : seq<(EncounterId, string)>
  {
    if profile == [] then []
    else
      var rec := profile[|profile| - 1];
      CalledPairs(profile[..|profile| - 1], diagnoses, diagnosis, minOccurrence) +
        (if rec.occurrence >= minOccurrence && rec.enc in PositiveEncounters(diagnoses, diagnosis, false)
         then [(rec.enc, rec.term)] else [])
  }

  /** A pair is in `pd` exactly when a profile row above the minimum occurrence gives it for a diagnosed encounter. */
  lemma {:induction false} CalledPairsMembers(profile: seq<ProfileRecord>, diagnoses: seq<DiagnosisRecord>, diagnosis: string, minOccurrence: int)
    ensures forall p :: p in CalledPairs(profile, diagnoses, diagnosis, minOccurrence) <==>
      (exists rec :: rec in profile && p == (rec.enc, rec.term) &&
         rec.occurrence >= minOccurrence && rec.enc in PositiveEncounters(diagnoses, diagnosis, false))
  {
    if profile != [] {
      var rec := profile[|profile| - 1];
      var prefix := profile[..|profile| - 1];
      assert forall x :: x in profile <==> x in prefix || x == rec;
      CalledPairsMembers(prefix, diagnoses, diagnosis, minOccurrence);
    }
  }

  /** JAX_textHpoFrequencyRank or JAX_labHpoFrequencyRank for one diagnosis. */
  function RankHpo(profile: seq<ProfileRecord>, diagnoses: seq<DiagnosisRecord>, diagnosis: string, minOccurrence: int)
    : seq<Tally>
  {
    SortDesc(GroupCounts(CalledPairs(profile, diagnoses, diagnosis, minOccurrence)))
  }

  /** The encounters for which the term is called and which have a diagnosis with the prefix. */
  ghost function CalledEncounters(profile: seq<ProfileRecord>, diagnoses: seq<DiagnosisRecord>, diagnosis: string,
                                  minOccurrence: int, term: string): set<EncounterId>
  {
    set rec | rec in profile && rec.term == term && rec.occurrence >= minOccurrence &&
      rec.enc in PositiveEncounters(diagnoses, diagnosis, false) :: rec.enc
  }

  lemma {:induction false} CalledPairsDistinct(profile: seq<ProfileRecord>, diagnoses: seq<DiagnosisRecord>, diagnosis: string, minOccurrence: int)
    requires UniqueKeys(profile)
    ensures NoDuplicates(CalledPairs(profile, diagnoses, diagnosis, minOccurrence))
  {
    if profile != [] {
      var rec := profile[|profile| - 1];
      var prefix := profile[..|profile| - 1];
      assert UniqueKeys(prefix);
      CalledPairsDistinct(prefix, diagnoses, diagnosis, minOccurrence);
      var p := CalledPairs(prefix, diagnoses, diagnosis, minOccurrence);
      CalledPairsMembers(prefix, diagnoses, diagnosis, minOccurrence);
      forall r | r in prefix
        ensures (r.enc, r.term) != (rec.enc, rec.term)
      {
        var i :| 0 <= i < |prefix| && prefix[i] == r;
        assert profile[i] == r;
      }
      assert (rec.enc, rec.term) !in p;
    }
  }

  /** COUNT(*) of a term's group of `pd` is the number of its called encounters, on a profile with unique keys. */
  lemma CalledGroupSize(profile: seq<ProfileRecord>, diagnoses: seq<DiagnosisRecord>, diagnosis: string, minOccurrence: int, term: string)
    requires UniqueKeys(profile)
    ensures var pairs := CalledPairs(profile, diagnoses, diagnosis, minOccurrence);
      && CountValue(pairs, term) == |CalledEncounters(profile, diagnoses, diagnosis, minOccurrence, term)|
      && ((exists p :: p in pairs && p.1 == term) <==> CalledEncounters(profile, diagnoses, diagnosis, minOccurrence, term) != {})
  {
    var pairs := CalledPairs(profile, diagnoses, diagnosis, minOccurrence);
    CalledPairsDistinct(profile, diagnoses, diagnosis, minOccurrence);
    CalledPairsMembers(profile, diagnoses, diagnosis, minOccurrence);
    CountDistinctPairs(pairs, term);
    var called := CalledEncounters(profile, diagnoses, diagnosis, minOccurrence, term);
    forall e | e in called ensures e in KeysWith(pairs, term) {
      var rec :| rec in profile && rec.term == term && rec.occurrence >= minOccurrence &&
        rec.enc in PositiveEncounters(diagnoses, diagnosis, false) && rec.enc == e;
      assert (e, term) in pairs;
    }
    assert KeysWith(pairs, term) == called;
    if called != {} {
      var e :| e in called;
      assert (e, term) in pairs && (e, term).1 == term;
    }
    if exists p :: p in pairs && p.1 == term {
      var p :| p in pairs && p.1 == term;
      assert p.0 in KeysWith(pairs, term);
    }
  }

  /**
   * The phenotype ranking is in descending order of N and holds one row per term called for
   * some diagnosed encounter; on a profile with one row per (encounter, term), N is the number
   * of those encounters for which the term is called.
   */
  lemma RankHpoCountsEncounters(profile: seq<ProfileRecord>, diagnoses: seq<DiagnosisRecord>, diagnosis: string, minOccurrence: int)
    requires UniqueKeys(profile)
    ensures SortedDesc(RankHpo(profile, diagnoses, diagnosis, minOccurrence))
    ensures NoDuplicates(Keys(RankHpo(profile, diagnoses, diagnosis, minOccurrence)))
    ensures forall t :: t in RankHpo(profile, diagnoses, diagnosis, minOccurrence) <==>
      CalledEncounters(profile, diagnoses, diagnosis, minOccurrence, t.key) != {} &&
      t.n == |CalledEncounters(profile, diagnoses, diagnosis, minOccurrence, t.key)|
  {
    var groups := GroupCounts(CalledPairs(profile, diagnoses, diagnosis, minOccurrence));
    GroupCountsMembers(CalledPairs(profile, diagnoses, diagnosis, minOccurrence));
    SortDescSorted(groups);
    SortDescMembers(groups);
    SortDescKeys(groups);
    forall t: Tally
      ensures t in groups <==>
        CalledEncounters(profile, diagnoses, diagnosis, minOccurrence, t.key) != {} &&
        t.n == |CalledEncounters(profile, diagnoses, diagnosis, minOccurrence, t.key)|
    {
      CalledGroupSize(profile, diagnoses, diagnosis, minOccurrence, t.key);
    }
  }

  /** `SELECT MAP_TO ... WHERE N BETWEEN lo AND hi`, in table order. */
  function KeysBetween(ranked: seq<Tally>, lo: int, hi: int): seq<string> {
    if ranked == [] then []
    else
      var t := ranked[|ranked| - 1];
      KeysBetween(ranked[..|ranked| - 1], lo, hi) + (if lo <= t.n <= hi then [t.key] else [])
  }

  /** The terms of interest are the keys of the rows whose N lies in [lo, hi], at most one per row. */
  lemma {:induction false} KeysBetweenMembers(ranked: seq<Tally>, lo: int, hi: int)
    ensures |KeysBetween(ranked, lo, hi)| <= |ranked|
    ensures forall k :: k in KeysBetween(ranked, lo, hi) <==> exists t :: t in ranked && t.key == k && lo <= t.n <= hi
  {
    if ranked != [] {
      var t := ranked[|ranked| - 1];
      var prefix := ranked[..|ranked| - 1];
      assert forall x :: x in ranked <==> x in prefix || x == t;
      KeysBetweenMembers(prefix, lo, hi);
    }
  }

  /** `SELECT ICD9_CODE ... WHERE N > threshold`, in table order. */
  function KeysAbove(ranked: seq<Tally>, threshold: int): (keys: seq<string>)
    ensures |keys| <= |ranked|
    ensures forall k :: k in keys <==> exists t :: t in ranked && t.key == k && t.n > threshold
  {
    if ranked == [] then []
    else
      var rest := KeysAbove(ranked[1..], threshold);
      assert forall x :: x in ranked <==> x == ranked[0] || x in ranked[1..];
      (if ranked[0].n > threshold then [ranked[0].key] else []) + rest
  }

  /** The keys of a table, in order. */
  function Keys(s: seq<Tally>): (keys: seq<string>)
    ensures |keys| == |s| && forall k :: 0 <= k < |s| ==> keys[k] == s[k].key
  {
    seq(|s|, k requires 0 <= k < |s| => s[k].key)
  }

  /** No row above the threshold: no key. */
  lemma {:induction false} KeysAboveNone(ranked: seq<Tally>, threshold: int)
    requires SortedDesc(ranked) && (ranked != [] ==> ranked[0].n <= threshold)
    ensures KeysAbove(ranked, threshold) == []
  {
    if ranked != [] {
      assert SortedDesc(ranked[1..]);
      KeysAboveNone(ranked[1..], threshold);
    }
  }

  /** The first k rows are exactly those above the threshold, and their keys are the keys above it. */
  predicate TopBlock(ranked: seq<Tally>, threshold: int, k: int) {
    && 0 <= k <= |ranked|
    && KeysAbove(ranked, threshold) == Keys(ranked[..k])
    && (forall i :: 0 <= i < k ==> ranked[i].n > threshold)
    && (forall i :: k <= i < |ranked| ==> ranked[i].n <= threshold)
  }

  /** On a table sorted by N DESC, the keys above a threshold are the keys of a leading block of rows. */
  lemma {:induction false} KeysAboveIsTop(ranked: seq<Tally>, threshold: int)
    requires SortedDesc(ranked)
    ensures exists k :: TopBlock(ranked, threshold, k)
  {
    if ranked == [] {
      assert Keys(ranked[..0]) == [];
      assert TopBlock(ranked, threshold, 0);
    } else if ranked[0].n > threshold {
      var rest := ranked[1..];
      assert SortedDesc(rest);
      KeysAboveIsTop(rest, threshold);
      var k :| TopBlock(rest, threshold, k);
      assert KeysAbove(ranked, threshold) == [ranked[0].key] + Keys(rest[..k]);
      assert [ranked[0].key] + Keys(rest[..k]) == Keys(ranked[..k + 1]);
      assert forall i :: 1 <= i < |ranked| ==> ranked[i] == rest[i - 1];
      assert TopBlock(ranked, threshold, k + 1);
    } else {
      KeysAboveNone(ranked, threshold);
      assert Keys(ranked[..0]) == [];
      assert TopBlock(ranked, threshold, 0);
    }
  }

  /** A table of one row is already sorted. */
  lemma SortSingle(x: Tally)
    ensures SortDesc([x]) == [x]
  {
    assert [x][..0] == [];
  }

  /** Grouping a single pair gives one row with N = 1. */
  lemma GroupSingle<K>(e: K, h: string)
    ensures GroupCounts([(e, h)]) == [Tally(h, 1)]
  {
    var pairs := [(e, h)];
    assert pairs[..0] == [];
    assert Seconds(pairs) == [h] && [h][..0] == [];
    assert Distinct(Seconds(pairs)) == [h];
    assert CountValue(pairs, h) == 1;
  }

  /** The `pd` rows of the example below: e2 is under the minimum occurrence and e3 lacks the diagnosis. */
  lemma ExampleCalled(e1: EncounterId, e2: EncounterId, e3: EncounterId, h: string, dx: string)
    requires e3 != e1 && e3 != e2 && dx == "428"
    ensures CalledPairs([ProfileRecord(e1, h, 3), ProfileRecord(e2, h, 2), ProfileRecord(e3, h, 5)],
                        [DiagnosisRecord(e1, "4280", 1), DiagnosisRecord(e2, "4281", 2), DiagnosisRecord(e3, "5849", 1)],
                        dx, 3) == [(e1, h)]
  {
    var diagnoses := [DiagnosisRecord(e1, "4280", 1), DiagnosisRecord(e2, "4281", 2), DiagnosisRecord(e3, "5849", 1)];
    var profile := [ProfileRecord(e1, h, 3), ProfileRecord(e2, h, 2), ProfileRecord(e3, h, 5)];
    var pos := PositiveEncounters(diagnoses, dx, false);
    assert Matches(diagnoses[0], dx, false);
    assert e1 in pos;
    assert !Matches(diagnoses[2], dx, false) by {
      assert diagnoses[2].icd9[..3][0] != dx[0];
    }
    forall rec | rec in diagnoses && Matches(rec, dx, false) ensures rec.enc != e3 {
    }
    assert e3 !in pos;
    assert profile[..1] == [profile[0]] && profile[..1][..0] == [];
    assert profile[..2][..1] == profile[..1];
    assert CalledPairs(profile[..1], diagnoses, dx, 3) == [(e1, h)];
    assert CalledPairs(profile[..2], diagnoses, dx, 3) == [(e1, h)];
  }

  /**
   * With `rankHpoFromLab(diagnosis, 3)` a lab phenotype is called only for encounters with at
   * least three abnormal results, and only encounters with the diagnosis count: of three
   * encounters with the phenotype, one under the minimum and one without a 428 code, N is 1.
   */
  lemma LabThresholdExample(e1: EncounterId, e2: EncounterId, e3: EncounterId, h: string)
    requires e3 != e1 && e3 != e2
    ensures RankHpo([ProfileRecord(e1, h, 3), ProfileRecord(e2, h, 2), ProfileRecord(e3, h, 5)],
                    [DiagnosisRecord(e1, "4280", 1), DiagnosisRecord(e2, "4281", 2), DiagnosisRecord(e3, "5849", 1)],
                    "428", 3)
      == [Tally(h, 1)]
  {
    ExampleCalled(e1, e2, e3, h, "428");
    GroupSingle(e1, h);
    SortSingle(Tally(h, 1));
  }
}
