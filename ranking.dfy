/** Ranking of forum records by score, highest first, as done by
    `data.reddit.sort((a, b) => b.score - a.score)`. The sort is stable
    (records with equal scores keep their relative order), so its result is
    fully determined; SortedByScore is that result, defined as an insertion
    sort, and SortByScore performs it in place on an array. */
module Ranking {
  import opened Records

  /** Scores never increase from one record to the next. */
  predicate NonIncreasing(s: seq<ForumRecord>) {
    forall i, j :: 0 <= i < j < |s| ==> s[i].score >= s[j].score
  }

  /** The records of s whose score is k, in their order in s. */
  function WithScore(s: seq<ForumRecord>, k: int): (r: seq<ForumRecord>)
    ensures |r| <= |s|
  {
    if s == [] then []
    else WithScore(s[..|s| - 1], k) + (if s[|s| - 1].score == k then [s[|s| - 1]] else [])
  }

  /** Where a stable descending insertion puts x into t: after every record
      whose score is at least x's, scanning from the end. */
  function InsertPos(t: seq<ForumRecord>, x: ForumRecord): (p: nat)
    ensures p <= |t|
    ensures forall j :: p <= j < |t| ==> t[j].score < x.score
    ensures p > 0 ==> t[p - 1].score >= x.score
  {
    if t == [] || t[|t| - 1].score >= x.score then |t|
    else InsertPos(t[..|t| - 1], x)
  }

  function Insert(t: seq<ForumRecord>, x: ForumRecord): (r: seq<ForumRecord>)
    ensures |r| == |t| + 1
  {
    var p := InsertPos(t, x);
    t[..p] + [x] + t[p..]
  }

  lemma InsertPermutes(t: seq<ForumRecord>, x: ForumRecord)
    ensures multiset(Insert(t, x)) == multiset(t) + multiset{x}
  {
    var p := InsertPos(t, x);
    assert t == t[..p] + t[p..];
  }

  /** Inserting into a descending ranking keeps it descending. */
  lemma InsertNonIncreasing(t: seq<ForumRecord>, x: ForumRecord)
    requires NonIncreasing(t)
    ensures NonIncreasing(Insert(t, x))
  {
    var p := InsertPos(t, x);
    SpliceNonIncreasing(t[..p], x, t[p..]);
  }

  lemma SpliceNonIncreasing(a: seq<ForumRecord>, x: ForumRecord, b: seq<ForumRecord>)
    requires NonIncreasing(a) && NonIncreasing(b)
    requires forall i :: 0 <= i < |a| ==> a[i].score >= x.score
    requires forall i :: 0 <= i < |b| ==> b[i].score < x.score
    ensures NonIncreasing(a + [x] + b)
  {
    var r := a + [x] + b;
    forall i, j | 0 <= i < j < |r|
      ensures r[i].score >= r[j].score
    {
      if j < |a| {
        assert r[i] == a[i] && r[j] == a[j];
      } else if j == |a| {
        assert r[i] == a[i];
      } else if i < |a| {
        assert r[i] == a[i] && r[j] == b[j - |a| - 1];
      } else if i == |a| {
        assert r[j] == b[j - |a| - 1];
      } else {
        assert r[i] == b[i - |a| - 1] && r[j] == b[j - |a| - 1];
      }
    }
  }

  /** The records of s ranked by descending score, ties in input order. */
  function SortedByScore(s: seq<ForumRecord>): (r: seq<ForumRecord>)
    ensures |r| == |s|
    ensures NonIncreasing(r)
  {
    if s == [] then []
    else
      var t := SortedByScore(s[..|s| - 1]);
      InsertNonIncreasing(t, s[|s| - 1]);
      Insert(t, s[|s| - 1])
  }

  /** The ranking is a permutation of the input. */
  lemma {:induction false} SortedByScorePermutes(s: seq<ForumRecord>)
    ensures multiset(SortedByScore(s)) == multiset(s)
  {
    if s != [] {
      var s' := s[..|s| - 1];
      SortedByScorePermutes(s');
      InsertPermutes(SortedByScore(s'), s[|s| - 1]);
      assert s == s' + [s[|s| - 1]];
    }
  }

  lemma {:induction false} WithScoreMember(s: seq<ForumRecord>, k: int, x: ForumRecord)
    ensures x in WithScore(s, k) <==> x in s && x.score == k
  {
    if s != [] {
      var s' := s[..|s| - 1];
      WithScoreMember(s', k, x);
      assert s == s' + [s[|s| - 1]];
    }
  }

  lemma {:induction false} WithScoreAppend(a: seq<ForumRecord>, b: seq<ForumRecord>, k: int)
    ensures WithScore(a + b, k) == WithScore(a, k) + WithScore(b, k)
    decreases |b|
  {
    if b == [] {
      assert a + b == a;
    } else {
      assert (a + b)[..|a + b| - 1] == a + b[..|b| - 1];
      WithScoreAppend(a, b[..|b| - 1], k);
    }
  }

  lemma {:induction false} WithScoreNone(s: seq<ForumRecord>, k: int)
    requires forall i :: 0 <= i < |s| ==> s[i].score != k
    ensures WithScore(s, k) == []
  {
    if s != [] {
      WithScoreNone(s[..|s| - 1], k);
    }
  }

  lemma WithScoreSingle(x: ForumRecord, k: int)
    ensures WithScore([x], k) == if x.score == k then [x] else []
  {
    assert ([x])[..0] == [];
  }

  lemma WithScoreSplice(a: seq<ForumRecord>, x: ForumRecord, b: seq<ForumRecord>, k: int)
    ensures WithScore(a + [x] + b, k) == WithScore(a, k) + WithScore([x], k) + WithScore(b, k)
  {
    WithScoreAppend(a + [x], b, k);
    WithScoreAppend(a, [x], k);
  }

  lemma SpliceWithScore(a: seq<ForumRecord>, x: ForumRecord, b: seq<ForumRecord>, k: int)
    requires forall i :: 0 <= i < |b| ==> b[i].score < x.score
    ensures WithScore(a + [x] + b, k) == WithScore(a + b, k) + (if x.score == k then [x] else [])
  {
    WithScoreSplice(a, x, b, k);
    WithScoreAppend(a, b, k);
    WithScoreSingle(x, k);
    if x.score == k {
      WithScoreNone(b, k);
    }
  }

  /** Inserting x adds it at the end of the records sharing its score. */
  lemma InsertWithScore(t: seq<ForumRecord>, x: ForumRecord, k: int)
    ensures WithScore(Insert(t, x), k) == WithScore(t, k) + (if x.score == k then [x] else [])
  {
    var p := InsertPos(t, x);
    assert t == t[..p] + t[p..];
    SpliceWithScore(t[..p], x, t[p..], k);
  }

  /** Stability: for every score, the records with that score appear in the
      ranking in the same order as in the input. */
  lemma {:induction false} SortedByScoreStable(s: seq<ForumRecord>, k: int)
    ensures WithScore(SortedByScore(s), k) == WithScore(s, k)
  {
    if s != [] {
      var s' := s[..|s| - 1];
      SortedByScoreStable(s', k);
      InsertWithScore(SortedByScore(s'), s[|s| - 1], k);
    }
  }

  lemma NonIncreasingPrefix(t: seq<ForumRecord>, n: nat)
    requires NonIncreasing(t) && n <= |t|
    ensures NonIncreasing(t[..n])
  {
  }

  /** A record of t carries a score no lower than t's last record. */
  lemma LastIsLowest(t: seq<ForumRecord>, y: ForumRecord)
    requires NonIncreasing(t) && y in t
    ensures y.score >= t[|t| - 1].score
  {
    var m :| 0 <= m < |t| && t[m] == y;
  }

  /** Dropping the last record r of t removes r from the records sharing its
      score, and nothing from the others. */
  lemma WithScoreDropLast(t: seq<ForumRecord>, k: int)
    requires t != []
    ensures WithScore(t, k) == WithScore(t[..|t| - 1], k) + (if t[|t| - 1].score == k then [t[|t| - 1]] else [])
  {
  }

  /** The records of a three-record list with score k, one at a time. */
  lemma WithScoreOfThree(x0: ForumRecord, x1: ForumRecord, x2: ForumRecord, k: int)
    ensures WithScore([x0, x1, x2], k) ==
      (if x0.score == k then [x0] else []) + (if x1.score == k then [x1] else []) +
      (if x2.score == k then [x2] else [])
  {
    WithScoreSingle(x0, k);
    WithScoreDropLast([x0, x1], k);
    assert [x0, x1][..1] == [x0];
    WithScoreDropLast([x0, x1, x2], k);
    assert [x0, x1, x2][..2] == [x0, x1];
  }

  /** The records of a six-record list with score k, one at a time. */
  lemma WithScoreOfSix(x0: ForumRecord, x1: ForumRecord, x2: ForumRecord, x3: ForumRecord, x4: ForumRecord, x5: ForumRecord, k: int)
    ensures WithScore([x0, x1, x2, x3, x4, x5], k) ==
      (if x0.score == k then [x0] else []) + (if x1.score == k then [x1] else []) +
      (if x2.score == k then [x2] else []) + (if x3.score == k then [x3] else []) +
      (if x4.score == k then [x4] else []) + (if x5.score == k then [x5] else [])
  {
    WithScoreOfThree(x0, x1, x2, k);
    WithScoreOfThree(x3, x4, x5, k);
    assert [x0, x1, x2, x3, x4, x5] == [x0, x1, x2] + [x3, x4, x5];
    WithScoreAppend([x0, x1, x2], [x3, x4, x5], k);
  }

  lemma CancelLast(a: seq<ForumRecord>, x: ForumRecord, b: seq<ForumRecord>, y: ForumRecord)
    requires a + [x] == b + [y]
    ensures a == b && x == y
  {
    assert |a| == |b|;
    assert a == (a + [x])[..|a|] && b == (b + [y])[..|b|];
    assert x == (a + [x])[|a|] && y == (b + [y])[|b|];
  }

  /** Removing the same last record from two sequences that agree on score k
      leaves sequences that still agree on k. */
  lemma WithScoreDropLastAgree(t1: seq<ForumRecord>, t2: seq<ForumRecord>, k: int)
    requires t1 != [] && t2 != [] && t1[|t1| - 1] == t2[|t2| - 1]
    requires WithScore(t1, k) == WithScore(t2, k)
    ensures WithScore(t1[..|t1| - 1], k) == WithScore(t2[..|t2| - 1], k)
  {
    var x := t1[|t1| - 1];
    WithScoreDropLast(t1, k);
    WithScoreDropLast(t2, k);
    if x.score == k {
      CancelLast(WithScore(t1[..|t1| - 1], k), x, WithScore(t2[..|t2| - 1], k), x);
    } else {
      assert WithScore(t1[..|t1| - 1], k) + [] == WithScore(t1[..|t1| - 1], k);
      assert WithScore(t2[..|t2| - 1], k) + [] == WithScore(t2[..|t2| - 1], k);
    }
  }

  /** Two non-empty descending rankings that agree score by score end with
      the same record. */
  lemma LastAgree(t1: seq<ForumRecord>, t2: seq<ForumRecord>)
    requires t1 != [] && t2 != []
    requires NonIncreasing(t1) && NonIncreasing(t2)
    requires forall k :: WithScore(t1, k) == WithScore(t2, k)
    ensures t1[|t1| - 1] == t2[|t2| - 1]
  {
    var x, y := t1[|t1| - 1], t2[|t2| - 1];
    WithScoreMember(t2, y.score, y);
    WithScoreMember(t1, y.score, y);
    LastIsLowest(t1, y);
    WithScoreMember(t1, x.score, x);
    WithScoreMember(t2, x.score, x);
    LastIsLowest(t2, x);
    WithScoreDropLast(t1, x.score);
    WithScoreDropLast(t2, x.score);
    CancelLast(WithScore(t1[..|t1| - 1], x.score), x, WithScore(t2[..|t2| - 1], x.score), y);
  }

  /** A record of s always makes WithScore(s, k) non-empty for its own score. */
  lemma MemberHasScoreGroup(s: seq<ForumRecord>, x: ForumRecord)
    requires x in s
    ensures WithScore(s, x.score) != []
  {
    WithScoreMember(s, x.score, x);
  }

  /** Two rankings that are both in descending order and agree, score by
      score, on which records carry that score and in which order, are the
      same sequence. */
  lemma {:induction false} RankingUnique(t1: seq<ForumRecord>, t2: seq<ForumRecord>)
    requires NonIncreasing(t1) && NonIncreasing(t2)
    requires forall k :: WithScore(t1, k) == WithScore(t2, k)
    ensures t1 == t2
    decreases |t1|
  {
    if t1 == [] || t2 == [] {
      if t1 != [] {
        MemberHasScoreGroup(t1, t1[0]);
        assert false;
      } else if t2 != [] {
        MemberHasScoreGroup(t2, t2[0]);
        assert false;
      }
    } else {
      LastAgree(t1, t2);
      var t1', t2' := t1[..|t1| - 1], t2[..|t2| - 1];
      forall k
        ensures WithScore(t1', k) == WithScore(t2', k)
      {
        WithScoreDropLastAgree(t1, t2, k);
      }
      NonIncreasingPrefix(t1, |t1| - 1);
      NonIncreasingPrefix(t2, |t2| - 1);
      RankingUnique(t1', t2');
      assert t1 == t1' + [t1[|t1| - 1]] && t2 == t2' + [t2[|t2| - 1]];
    }
  }

  /** SortedByScore is the only stable descending ranking of s: any
      arrangement in descending score order that keeps equal-score records
      in input order is it. */
  lemma StableRankingIsSortedByScore(s: seq<ForumRecord>, t: seq<ForumRecord>)
    requires NonIncreasing(t)
    requires forall k :: WithScore(t, k) == WithScore(s, k)
    ensures t == SortedByScore(s)
  {
    forall k
      ensures WithScore(t, k) == WithScore(SortedByScore(s), k)
    {
      SortedByScoreStable(s, k);
    }
    RankingUnique(t, SortedByScore(s));
  }

  /** Ranking an already ranked sequence changes nothing. */
  lemma SortedByScoreOfRanked(t: seq<ForumRecord>)
    requires NonIncreasing(t)
    ensures SortedByScore(t) == t
  {
    StableRankingIsSortedByScore(t, t);
  }

  /** InsertPos is the one position after which every record scores below
      x and before which the nearest record scores at least as much as x. */
  lemma {:induction false} InsertPosIs(t: seq<ForumRecord>, x: ForumRecord, j: nat)
    requires j <= |t|
    requires forall m :: j <= m < |t| ==> t[m].score < x.score
    requires j == 0 || t[j - 1].score >= x.score
    ensures InsertPos(t, x) == j
  {
    if j < |t| {
      InsertPosIs(t[..|t| - 1], x, j);
    }
  }

  /** Ranking one more record of s inserts it into the ranking so far. */
  lemma SortedByScorePrefix(s: seq<ForumRecord>, i: nat)
    requires i < |s|
    ensures SortedByScore(s[..i + 1]) == Insert(SortedByScore(s[..i]), s[i])
  {
    assert s[..i + 1][..i] == s[..i];
  }

  /** A sequence that agrees with t before j, holds x at j and t shifted
      by one after j is t with x spliced in at j. */
  lemma SplicedAt(r: seq<ForumRecord>, t: seq<ForumRecord>, x: ForumRecord, j: nat)
    requires j <= |t| && |r| == |t| + 1
    requires forall m :: 0 <= m < j ==> r[m] == t[m]
    requires r[j] == x
    requires forall m :: j < m < |r| ==> r[m] == t[m - 1]
    ensures r == t[..j] + [x] + t[j..]
  {
  }

  /** One step of the in-place insertion sort: the record at index i is
      moved into the already ranked prefix a[..i]. */
  method InsertInPlace(a: array<ForumRecord>, i: nat)
    requires i < a.Length
    modifies a
    ensures a[..i + 1] == Insert(old(a[..i]), old(a[i]))
    ensures forall m :: i < m < a.Length ==> a[m] == old(a[m])
  {
    ghost var t := a[..i];
    var x := a[i];
    var j := i;
    while j > 0 && a[j - 1].score < x.score
      invariant 0 <= j <= i
      invariant forall m :: 0 <= m < j ==> a[m] == t[m]
      invariant forall m :: j < m <= i ==> a[m] == t[m - 1]
      invariant forall m :: i < m < a.Length ==> a[m] == old(a[m])
      invariant forall m :: j <= m < i ==> t[m].score < x.score
    {
      a[j] := a[j - 1];
      j := j - 1;
    }
    InsertPosIs(t, x, j);
    a[j] := x;
    SplicedAt(a[..i + 1], t, x, j);
  }

  /** The in-place sort of `data.reddit`: afterwards the array holds the
      stable descending ranking of what it held before. */
  method SortByScore(a: array<ForumRecord>)
    modifies a
    ensures a[..] == SortedByScore(old(a[..]))
  {
    ghost var s := a[..];
    var i := 0;
    while i < a.Length
      invariant 0 <= i <= a.Length
      invariant a[..i] == SortedByScore(s[..i])
      invariant forall m :: i <= m < a.Length ==> a[m] == s[m]
    {
      SortedByScorePrefix(s, i);
      InsertInPlace(a, i);
      i := i + 1;
    }
    assert s[..a.Length] == s;
  }
}
