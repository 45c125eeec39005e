/**
 * The ordering and tie rule shared by both leaderboards: entries are sorted
 * by score, highest first, with Python's stable `sorted(..., reverse=True)`,
 * and an entry's rank is 1 + the number of entries with a strictly higher
 * score (competition ranking: 5, 5, 3, 1 are ranked 1, 1, 3, 4).
 */
module Ranking {
  import opened Dict

  /** Entries ordered by score, highest first. */
  predicate NonIncreasing<T>(s: seq<(T, int)>) {
    forall i, j :: 0 <= i < j < |s| ==> s[i].1 >= s[j].1
  }

  function Scores<T>(s: seq<(T, int)>): (r: seq<int>)
    ensures |r| == |s|
    ensures forall i :: 0 <= i < |s| ==> r[i] == s[i].1
  {
    if s == [] then [] else [s[0].1] + Scores(s[1..])
  }

  /** How many of the scores are strictly higher than `v`. */
  function CountAbove(s: seq<int>, v: int): (n: nat)
    ensures n <= |s|
  {
    if s == [] then 0 else (if s[0] > v then 1 else 0) + CountAbove(s[1..], v)
  }

  /** Competition rank of score `v` among the scores `s`. */
  function RankOf(s: seq<int>, v: int): nat {
    1 + CountAbove(s, v)
  }

  /** Places `x` before the first entry whose score is not higher than its own. */
  function InsertDesc<T>(x: (T, int), s: seq<(T, int)>): (r: seq<(T, int)>)
    ensures |r| == |s| + 1
  {
    if s == [] || x.1 >= s[0].1 then [x] + s else [s[0]] + InsertDesc(x, s[1..])
  }

  /**
   * `sorted(s, key=score, reverse=True)`: an earlier entry is inserted in
   * front of the later entries with the same score, so ties keep their order.
   */
  function SortDesc<T>(s: seq<(T, int)>): (r: seq<(T, int)>)
    ensures |r| == |s|
  {
    if s == [] then [] else InsertDesc(s[0], SortDesc(s[1..]))
  }

  lemma {:induction false} InsertDescProperties<T>(x: (T, int), s: seq<(T, int)>)
    requires NonIncreasing(s)
    ensures NonIncreasing(InsertDesc(x, s))
    ensures multiset(InsertDesc(x, s)) == multiset{x} + multiset(s)
  {
    if s != [] && x.1 < s[0].1 {
      InsertDescProperties(x, s[1..]);
      assert s == [s[0]] + s[1..];
      var r := InsertDesc(x, s);
      var t := InsertDesc(x, s[1..]);
      assert r == [s[0]] + t;
      forall i, j | 0 <= i < j < |r| ensures r[i].1 >= r[j].1 {
        if i == 0 {
          assert r[j] in multiset(t);
          assert r[j] == x || r[j] in multiset(s[1..]);
        }
      }
    }
  }

  /** The sorted entries are ordered by score and are a permutation of the input. */
  lemma {:induction false} SortDescProperties<T>(s: seq<(T, int)>)
    ensures NonIncreasing(SortDesc(s))
    ensures multiset(SortDesc(s)) == multiset(s)
  {
    if s != [] {
      SortDescProperties(s[1..]);
      InsertDescProperties(s[0], SortDesc(s[1..]));
      assert s == [s[0]] + s[1..];
    }
  }

  lemma {:induction false} CountAboveInsert<T>(x: (T, int), s: seq<(T, int)>, v: int)
    ensures CountAbove(Scores(InsertDesc(x, s)), v)
         == (if x.1 > v then 1 else 0) + CountAbove(Scores(s), v)
  {
    if s != [] && x.1 < s[0].1 {
      CountAboveInsert(x, s[1..], v);
      assert Scores(InsertDesc(x, s))[1..] == Scores(InsertDesc(x, s[1..]));
      assert Scores(s)[1..] == Scores(s[1..]);
    } else {
      assert Scores(InsertDesc(x, s))[1..] == Scores(s);
    }
  }

  /** Sorting does not change how many scores lie above any value. */
  lemma {:induction false} CountAboveSort<T>(s: seq<(T, int)>, v: int)
    ensures CountAbove(Scores(SortDesc(s)), v) == CountAbove(Scores(s), v)
  {
    if s != [] {
      CountAboveSort(s[1..], v);
      CountAboveInsert(s[0], SortDesc(s[1..]), v);
      assert Scores(s)[1..] == Scores(s[1..]);
    }
  }

  lemma {:induction false} CountAboveAppend(a: seq<int>, b: seq<int>, v: int)
    ensures CountAbove(a + b, v) == CountAbove(a, v) + CountAbove(b, v)
  {
    if a == [] {
      assert a + b == b;
    } else {
      CountAboveAppend(a[1..], b, v);
      assert (a + b)[1..] == a[1..] + b;
    }
  }

  lemma {:induction false} CountAboveAll(s: seq<int>, v: int)
    requires forall i :: 0 <= i < |s| ==> s[i] > v
    ensures CountAbove(s, v) == |s|
  {
    if s != [] { CountAboveAll(s[1..], v); }
  }

  lemma {:induction false} CountAboveNone(s: seq<int>, v: int)
    requires forall i :: 0 <= i < |s| ==> s[i] <= v
    ensures CountAbove(s, v) == 0
  {
    if s != [] { CountAboveNone(s[1..], v); }
  }

  /** A higher score never has a worse (larger) rank; equal scores share a rank. */
  lemma {:induction false} RankOfMonotone(s: seq<int>, a: int, b: int)
    requires a >= b
    ensures RankOf(s, a) <= RankOf(s, b)
  {
    if s != [] { RankOfMonotone(s[1..], a, b); }
  }

  /** A strictly higher score than another present score ranks strictly better. */
  lemma {:induction false} RankOfStrict(s: seq<int>, a: int, b: int)
    requires a > b && a in s
    ensures RankOf(s, a) < RankOf(s, b)
  {
    if s[0] == a {
      RankOfMonotone(s[1..], a, b);
    } else {
      RankOfStrict(s[1..], a, b);
    }
  }

  /**
   * In entries sorted highest first, an entry whose score differs from its
   * predecessor's (or the first entry) has exactly its index entries above it,
   * which is why the ranking loops set the rank to index + 1 on a score change.
   */
  lemma {:induction false} RankAtScoreChange<T>(s: seq<(T, int)>, i: nat)
    requires NonIncreasing(s) && i < |s|
    requires i == 0 || s[i - 1].1 != s[i].1
    ensures CountAbove(Scores(s), s[i].1) == i
  {
    var sc := Scores(s);
    var v := s[i].1;
    var above, rest := sc[..i], sc[i..];
    assert sc == above + rest;
    forall j | 0 <= j < |above| ensures above[j] > v {
      assert above[j] == s[j].1;
      assert s[j].1 >= s[i - 1].1;
    }
    forall j | 0 <= j < |rest| ensures rest[j] <= v {
      assert rest[j] == s[i + j].1;
    }
    CountAboveAppend(above, rest, v);
    CountAboveAll(above, v);
    CountAboveNone(rest, v);
  }

  /** The entries whose score is `v`, in their order. */
  function WithScore<T>(s: seq<(T, int)>, v: int): seq<(T, int)> {
    if s == [] then [] else (if s[0].1 == v then [s[0]] else []) + WithScore(s[1..], v)
  }

  lemma {:induction false} WithScoreAppend<T>(a: seq<(T, int)>, b: seq<(T, int)>, v: int)
    ensures WithScore(a + b, v) == WithScore(a, v) + WithScore(b, v)
  {
    if a == [] {
      assert a + b == b;
    } else {
      var u := a + b;
      var head: seq<(T, int)> := if a[0].1 == v then [a[0]] else [];
      assert u[0] == a[0];
      assert u[1..] == a[1..] + b;
      calc {
        WithScore(u, v);
        head + WithScore(a[1..] + b, v);
        { WithScoreAppend(a[1..], b, v); }
        head + (WithScore(a[1..], v) + WithScore(b, v));
        (head + WithScore(a[1..], v)) + WithScore(b, v);
      }
    }
  }

  /** Inserting an entry puts it after every entry of its score that was already placed. */
  lemma {:induction false} InsertDescWithScore<T>(x: (T, int), s: seq<(T, int)>, v: int)
    ensures WithScore(InsertDesc(x, s), v) == WithScore([x], v) + WithScore(s, v)
  {
    if s == [] || x.1 >= s[0].1 {
      WithScoreAppend([x], s, v);
    } else {
      InsertDescWithScore(x, s[1..], v);
      WithScoreAppend([s[0]], InsertDesc(x, s[1..]), v);
      WithScoreAppend([s[0]], s[1..], v);
      assert [s[0]] + s[1..] == s;
    }
  }

  /**
   * The sort is stable: for every score, the entries holding it appear in
   * the sorted list in the order they had before.
   */
  lemma {:induction false} SortDescStable<T>(s: seq<(T, int)>, v: int)
    ensures WithScore(SortDesc(s), v) == WithScore(s, v)
  {
    if s != [] {
      SortDescStable(s[1..], v);
      InsertDescWithScore(s[0], SortDesc(s[1..]), v);
      WithScoreAppend([s[0]], s[1..], v);
      assert [s[0]] + s[1..] == s;
    }
  }

  /** Sorting keeps the keys of a dictionary's item list distinct. */
  lemma {:induction false} SortDescDistinct<T>(s: seq<(T, int)>)
    requires DistinctKeys(s)
    ensures DistinctKeys(SortDesc(s))
  {
    if s != [] {
      SortDescDistinct(s[1..]);
      SortDescProperties(s[1..]);
      forall p | p in SortDesc(s[1..]) ensures p.0 != s[0].0 {
        assert p in multiset(s[1..]);
        var j :| 0 <= j < |s[1..]| && s[1..][j] == p;
        assert s[j + 1] == p;
      }
      InsertDescDistinct(s[0], SortDesc(s[1..]));
    }
  }

  lemma {:induction false} InsertDescMember<T>(x: (T, int), s: seq<(T, int)>, p: (T, int))
    ensures p in InsertDesc(x, s) <==> p == x || p in s
  {
    if s != [] && x.1 < s[0].1 {
      InsertDescMember(x, s[1..], p);
      assert s == [s[0]] + s[1..];
    }
  }

  lemma {:induction false} InsertDescDistinct<T>(x: (T, int), s: seq<(T, int)>)
    requires DistinctKeys(s)
    requires forall p :: p in s ==> p.0 != x.0
    ensures DistinctKeys(InsertDesc(x, s))
  {
    if s != [] && x.1 < s[0].1 {
      InsertDescDistinct(x, s[1..]);
      var t := InsertDesc(x, s[1..]);
      var r := InsertDesc(x, s);
      assert r == [s[0]] + t;
      forall i, j | 0 <= i < j < |r| ensures r[i].0 != r[j].0 {
        if i == 0 {
          assert r[j] == t[j - 1];
          InsertDescMember(x, s[1..], r[j]);
          if r[j] != x {
            var k :| 0 <= k < |s[1..]| && s[1..][k] == r[j];
            assert s[k + 1] == r[j];
          }
        }
      }
    }
  }
}
