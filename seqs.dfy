/** Sequence helpers shared by the table models: SQL's DISTINCT and COUNT(*) ... GROUP BY. */
module Seqs {

  function Min(a: int, b: int): int { if a <= b then a else b }

  /** A prefix one element longer. */
  lemma TakeOneMore<T>(s: seq<T>, k: nat)
    requires k < |s|
    ensures s[..k + 1] == s[..k] + [s[k]]
  {
  }

  /** Two adjacent slices make up the longer prefix. */
  lemma PrefixSplit<T>(s: seq<T>, i: nat, j: nat)
    requires i <= j <= |s|
    ensures s[..i] + s[i..j] == s[..j]
  {
  }

  predicate NoDuplicates<T(==)>(s: seq<T>) {
    forall i, j :: 0 <= i < j < |s| ==> s[i] != s[j]
  }

  /** An element in front of a sequence without duplicates adds none exactly when it is new. */
  lemma NoDuplicatesCons<T>(x: T, s: seq<T>)
    ensures NoDuplicates([x] + s) <==> x !in s && NoDuplicates(s)
  {
    var r := [x] + s;
    if x !in s && NoDuplicates(s) {
      forall i, j | 0 <= i < j < |r| ensures r[i] != r[j] {
        assert r[j] == s[j - 1];
        if i > 0 {
          assert r[i] == s[i - 1];
        }
      }
    }
    if NoDuplicates(r) {
      forall i, j | 0 <= i < j < |s| ensures s[i] != s[j] {
        assert s[i] == r[i + 1] && s[j] == r[j + 1];
      }
      forall k | 0 <= k < |s| ensures s[k] != x {
        assert r[0] == x && r[k + 1] == s[k];
      }
    }
  }

  /** An element after a sequence without duplicates adds none exactly when it is new. */
  lemma NoDuplicatesSnoc<T>(s: seq<T>, x: T)
    ensures NoDuplicates(s + [x]) <==> x !in s && NoDuplicates(s)
  {
    var r := s + [x];
    if NoDuplicates(r) {
      forall i, j | 0 <= i < j < |s| ensures s[i] != s[j] {
        assert s[i] == r[i] && s[j] == r[j];
      }
      forall k | 0 <= k < |s| ensures s[k] != x {
        assert r[k] == s[k] && r[|s|] == x;
      }
    }
  }

  /** SELECT DISTINCT: keeps the first occurrence of every element, in scan order. */
  function Distinct<T(==,!new)>(s: seq<T>): (r: seq<T>)
    ensures NoDuplicates(r)
    ensures forall x :: x in r <==> x in s
    ensures |r| <= |s|
  {
    if s == [] then []
    else
      var prefix := Distinct(s[..|s| - 1]);
      var last := s[|s| - 1];
      assert forall x :: x in s <==> x in s[..|s| - 1] || x == last;
      if last in prefix then prefix else prefix + [last]
  }

  lemma {:induction false} DistinctOfDistinct<T(!new)>(s: seq<T>)
    requires NoDuplicates(s)
    ensures Distinct(s) == s
  {
    if s != [] {
      var p := s[..|s| - 1];
      assert NoDuplicates(p);
      DistinctOfDistinct(p);
      assert s[|s| - 1] !in p;
      assert p + [s[|s| - 1]] == s;
    }
  }

  /** A sequence without duplicates has as many elements as its set of elements. */
  lemma {:induction false} NoDuplicatesCardinality<T>(s: seq<T>)
    requires NoDuplicates(s)
    ensures |set x | x in s| == |s|
  {
    if s != [] {
      var p := s[..|s| - 1];
      var last := s[|s| - 1];
      assert NoDuplicates(p);
      NoDuplicatesCardinality(p);
      assert last !in p;
      assert (set x | x in s) == (set x | x in p) + {last};
    }
  }

  /** The second components of a sequence of pairs. */
  function Seconds<K, V>(s: seq<(K, V)>): (r: seq<V>)
    ensures |r| == |s| && forall k :: 0 <= k < |s| ==> r[k] == s[k].1
  {
    seq(|s|, k requires 0 <= k < |s| => s[k].1)
  }

  /** COUNT(*) of the rows in the group `v`. */
  function CountValue<K, V(==)>(s: seq<(K, V)>, v: V): nat
  {
    if s == [] then 0
    else CountValue(s[..|s| - 1], v) + (if s[|s| - 1].1 == v then 1 else 0)
  }

  /** The distinct first components in the group `v`. */
  ghost function KeysWith<K, V>(s: seq<(K, V)>, v: V): set<K>
  {
    set p | p in s && p.1 == v :: p.0
  }

  /** Over distinct pairs, COUNT(*) per group is the number of distinct keys in that group. */
  lemma {:induction false} CountDistinctPairs<K, V>(s: seq<(K, V)>, v: V)
    requires NoDuplicates(s)
    ensures CountValue(s, v) == |KeysWith(s, v)|
  {
    if s != [] {
      var p := s[..|s| - 1];
      var last := s[|s| - 1];
      assert NoDuplicates(p);
      CountDistinctPairs(p, v);
      assert forall x :: x in s <==> x in p || x == last;
      if last.1 == v {
        assert last !in p;
        assert forall q :: q in p && q.1 == v ==> q.0 != last.0 by {
          forall q | q in p && q.1 == v ensures q.0 != last.0 {
            assert q != last;
          }
        }
        assert last.0 !in KeysWith(p, v);
        assert KeysWith(s, v) == KeysWith(p, v) + {last.0};
      } else {
        assert KeysWith(s, v) == KeysWith(p, v);
      }
    }
  }

  lemma {:induction false} SubsetCardinality<T>(a: set<T>, b: set<T>)
    requires a <= b
    ensures |a| <= |b|
    decreases |a|
  {
    if a != {} {
      var x :| x in a;
      SubsetCardinality(a - {x}, b - {x});
    }
  }
}
