/** The table's rows once every derived column is present, `sort_values('zscore')`
    and the `head(10)` / `tail(10)` views of the sorted table. The sort is
    specified by what it promises (ascending z-score, the same rows); the
    order among rows with equal z-scores is not fixed, so no property here
    depends on it. */
module Ranking {
  import opened Dates
  import opened Stats

  /** One row of the final table: index, `birthdates`, `birthdates_num`, `ages`, `zscore`. */
  datatype Row = Row(id: int, birthdate: CalendarDate, birthdatesNum: int, age: int, zscore: real)

  const ReportSize := 10

  predicate SortedByZScore(s: seq<Row>) {
    forall i, j :: 0 <= i < j < |s| ==> s[i].zscore <= s[j].zscore
  }

  function ZScoresOf(s: seq<Row>): (zs: seq<real>)
    ensures |zs| == |s|
  {
    seq(|s|, i requires 0 <= i < |s| => s[i].zscore)
  }

  predicate SortedReals(a: seq<real>) {
    forall i, j :: 0 <= i < j < |a| ==> a[i] <= a[j]
  }

  // ------------------------------------------------------------------ the sort

  /** Places `r` in front of the first row whose z-score is not smaller. */
  function Insert(r: Row, s: seq<Row>): (t: seq<Row>)
    ensures |t| == |s| + 1
    ensures multiset(t) == multiset(s) + multiset{r}
  {
    if s == [] then [r]
    else if r.zscore <= s[0].zscore then [r] + s
    else
      assert s == [s[0]] + s[1..];
      [s[0]] + Insert(r, s[1..])
  }

  lemma {:induction false} InsertSorted(r: Row, s: seq<Row>)
    requires SortedByZScore(s)
    ensures SortedByZScore(Insert(r, s))
  {
    if s != [] && r.zscore > s[0].zscore {
      var rest := s[1..];
      InsertSorted(r, rest);
      var t := Insert(r, rest);
      forall k | 0 <= k < |t| ensures s[0].zscore <= t[k].zscore {
        assert t[k] in multiset(rest) + multiset{r};
        if t[k] in multiset(rest) {
          var j :| 0 <= j < |rest| && rest[j] == t[k];
          assert s[j + 1] == t[k];
        }
      }
      assert Insert(r, s) == [s[0]] + t;
    }
  }

  /** The table sorted by z-score (line 115): the same rows, in ascending z-score order. */
  function SortByZScore(rs: seq<Row>): (s: seq<Row>)
    ensures |s| == |rs|
    ensures multiset(s) == multiset(rs)
    ensures SortedByZScore(s)
  {
    if rs == [] then []
    else
      var s' := SortByZScore(rs[1..]);
      InsertSorted(rs[0], s');
      assert rs == [rs[0]] + rs[1..];
      Insert(rs[0], s')
  }

  /** Whatever order ties are put in, two ascending arrangements of the same rows
      agree on every z-score: the z-score column of the sorted table is determined. */
  lemma SortedZScoresDetermined(s: seq<Row>, t: seq<Row>)
    requires SortedByZScore(s) && SortedByZScore(t) && multiset(s) == multiset(t)
    ensures ZScoresOf(s) == ZScoresOf(t)
  {
    ZScoresPermutation(s, t);
    SortedRealsUnique(ZScoresOf(s), ZScoresOf(t));
  }

  lemma {:induction false} ZScoresPermutation(s: seq<Row>, t: seq<Row>)
    requires multiset(s) == multiset(t)
    ensures multiset(ZScoresOf(s)) == multiset(ZScoresOf(t))
  {
    if s == [] {
      assert |multiset(t)| == 0;
    } else {
      var x := s[0];
      assert x in multiset(t);
      var j :| 0 <= j < |t| && t[j] == x;
      var t' := t[..j] + t[j + 1..];
      assert t == t[..j] + [x] + t[j + 1..];
      assert s == [x] + s[1..];
      assert multiset(t) == multiset(t[..j]) + multiset{x} + multiset(t[j + 1..]);
      assert multiset(t') == multiset(t[..j]) + multiset(t[j + 1..]);
      assert multiset(s) == multiset{x} + multiset(s[1..]);
      MultisetCancel(multiset(s[1..]), multiset(t'), x);
      ZScoresPermutation(s[1..], t');
      ZScoresConcat([x], s[1..]);
      ZScoresConcat(t[..j] + [x], t[j + 1..]);
      ZScoresConcat(t[..j], [x]);
      ZScoresConcat(t[..j], t[j + 1..]);
    }
  }

  lemma ZScoresConcat(a: seq<Row>, b: seq<Row>)
    ensures ZScoresOf(a + b) == ZScoresOf(a) + ZScoresOf(b)
  {
    assert forall k :: 0 <= k < |a + b| ==> ZScoresOf(a + b)[k] == (ZScoresOf(a) + ZScoresOf(b))[k];
  }

  lemma {:induction false} SortedRealsUnique(a: seq<real>, b: seq<real>)
    requires SortedReals(a) && SortedReals(b) && multiset(a) == multiset(b)
    ensures a == b
  {
    if a == [] {
      assert |multiset(b)| == 0;
    } else {
      assert |multiset(b)| == |multiset(a)|;
      FirstIsLeast(a, b[0]);
      FirstIsLeast(b, a[0]);
      MultisetCons(a);
      MultisetCons(b);
      MultisetCancel(multiset(a[1..]), multiset(b[1..]), a[0]);
      SortedRealsTail(a);
      SortedRealsTail(b);
      SortedRealsUnique(a[1..], b[1..]);
      assert a == [a[0]] + a[1..] && b == [b[0]] + b[1..];
    }
  }

  lemma MultisetCons<T>(a: seq<T>)
    requires a != []
    ensures multiset(a) == multiset{a[0]} + multiset(a[1..])
  {
    assert a == [a[0]] + a[1..];
  }

  lemma MultisetCancel<T>(p: multiset<T>, q: multiset<T>, x: T)
    requires multiset{x} + p == multiset{x} + q
    ensures p == q
  {
    assert forall y :: p[y] == (multiset{x} + p)[y] - multiset{x}[y];
  }

  lemma FirstIsLeast(a: seq<real>, x: real)
    requires SortedReals(a) && x in multiset(a)
    ensures a[0] <= x
  {
    var j :| 0 <= j < |a| && a[j] == x;
    if j > 0 {
      assert a[0] <= a[j];
    }
  }

  lemma SortedRealsTail(a: seq<real>)
    requires SortedReals(a) && a != []
    ensures SortedReals(a[1..])
  {
    forall i, j | 0 <= i < j < |a| - 1 ensures a[1..][i] <= a[1..][j] {
      assert a[1..][i] == a[i + 1] && a[1..][j] == a[j + 1];
    }
  }

  /** When every z-score is computed from the row's age with one mean and one positive
      standard deviation, ascending z-score is ascending age. */
  lemma SortedByZScoreIsByAge(s: seq<Row>, mean: real, std: real)
    requires std > 0.0
    requires forall i :: 0 <= i < |s| ==> s[i].zscore == ZScore(s[i].age, mean, std)
    ensures SortedByZScore(s) <==> forall i, j :: 0 <= i < j < |s| ==> s[i].age <= s[j].age
  {
    forall i, j | 0 <= i < j < |s| ensures s[i].zscore <= s[j].zscore <==> s[i].age <= s[j].age {
      ZScoreOrder(s[i].age, s[j].age, mean, std);
    }
  }

  // --------------------------------------------------------------- head / tail

  function Min(a: int, b: int): int {
    if a <= b then a else b
  }

  /** The first n rows, or all of them when there are fewer (`head`, line 117). */
  function Head(s: seq<Row>, n: nat): (h: seq<Row>)
    ensures |h| == Min(n, |s|)
  {
    s[..Min(n, |s|)]
  }

  /** The last n rows, or all of them when there are fewer (`tail`, line 120). */
  function Tail(s: seq<Row>, n: nat): (t: seq<Row>)
    ensures |t| == Min(n, |s|)
  {
    s[|s| - Min(n, |s|)..]
  }

  /** A contiguous part of an ascending table is ascending. */
  lemma SortedSlice(s: seq<Row>, lo: nat, hi: nat)
    requires SortedByZScore(s) && lo <= hi <= |s|
    ensures SortedByZScore(s[lo..hi])
  {
    forall i, j | 0 <= i < j < hi - lo ensures s[lo..hi][i].zscore <= s[lo..hi][j].zscore {
      assert s[lo..hi][i] == s[lo + i] && s[lo..hi][j] == s[lo + j];
    }
  }

  /** In an ascending sequence, no row before position k has a larger z-score than a
      row from position k on, and the two parts are the whole sequence. */
  lemma SortedSplit(s: seq<Row>, k: nat)
    requires SortedByZScore(s) && k <= |s|
    ensures multiset(s[..k]) + multiset(s[k..]) == multiset(s)
    ensures forall x, y :: x in s[..k] && y in s[k..] ==> x.zscore <= y.zscore
  {
    assert s == s[..k] + s[k..];
    forall x, y | x in s[..k] && y in s[k..] ensures x.zscore <= y.zscore {
      var i :| 0 <= i < k && s[..k][i] == x;
      var j :| 0 <= j < |s| - k && s[k..][j] == y;
      assert s[i] == x && s[k + j] == y;
    }
  }

  /** `head(n)` of an ascending table is ascending, and no row of the table outside it
      has a smaller z-score than a row in it. */
  lemma HeadSmallest(s: seq<Row>, n: nat)
    requires SortedByZScore(s)
    ensures var h := Head(s, n);
      && SortedByZScore(h)
      && multiset(h) <= multiset(s)
      && (forall x, y :: x in h && y in multiset(s) - multiset(h) ==> x.zscore <= y.zscore)
  {
    var k := Min(n, |s|);
    assert Head(s, n) == s[..k] == s[0..k];
    SortedSplit(s, k);
    SortedSlice(s, 0, k);
    MultisetDifference(multiset(s[..k]), multiset(s[k..]), multiset(s));
  }

  /** `tail(n)` of an ascending table is ascending, and no row of the table outside it
      has a larger z-score than a row in it. */
  lemma TailLargest(s: seq<Row>, n: nat)
    requires SortedByZScore(s)
    ensures var t := Tail(s, n);
      && SortedByZScore(t)
      && multiset(t) <= multiset(s)
      && (forall x, y :: x in t && y in multiset(s) - multiset(t) ==> y.zscore <= x.zscore)
  {
    var k := |s| - Min(n, |s|);
    assert Tail(s, n) == s[k..] == s[k..|s|];
    SortedSplit(s, k);
    SortedSlice(s, k, |s|);
    assert multiset(s[k..]) + multiset(s[..k]) == multiset(s);
    MultisetDifference(multiset(s[k..]), multiset(s[..k]), multiset(s));
  }

  /** `head(n)` and `tail(n)` of the sorted table, against the table itself: each is
      min(n, len) of its rows in ascending order, and no row outside `head(n)` is
      smaller, and none outside `tail(n)` larger, in z-score than a row shown. */
  lemma ReportViews(rows: seq<Row>, n: nat)
    ensures var h := Head(SortByZScore(rows), n);
      && |h| == Min(n, |rows|)
      && SortedByZScore(h)
      && multiset(h) <= multiset(rows)
      && (forall x, y :: x in h && y in multiset(rows) - multiset(h) ==> x.zscore <= y.zscore)
    ensures var t := Tail(SortByZScore(rows), n);
      && |t| == Min(n, |rows|)
      && SortedByZScore(t)
      && multiset(t) <= multiset(rows)
      && (forall x, y :: x in t && y in multiset(rows) - multiset(t) ==> y.zscore <= x.zscore)
  {
    HeadSmallest(SortByZScore(rows), n);
    TailLargest(SortByZScore(rows), n);
  }

  lemma MultisetDifference<T>(a: multiset<T>, b: multiset<T>, whole: multiset<T>)
    requires a + b == whole
    ensures a <= whole && whole - a == b
  {
  }

  /** With at most n rows, both views show the whole sorted table. */
  lemma SmallTableShownWhole(s: seq<Row>, n: nat)
    requires |s| <= n
    ensures Head(s, n) == s && Tail(s, n) == s
  {
  }
}
