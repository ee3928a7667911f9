/** The DataFrame `df` as the script changes it step by step: the loaded index
    and `birthdates` column; `birthdates_num` added; the sentinel rows dropped
    (every column present is filtered by the same mask); `ages` added; `zscore`
    added; then the read-only views (the three band selections of `ages`, the
    sorted table and its first and last ten rows). A derived column is the empty
    sequence until the step that adds it. */
module Frame {
  import opened Dates
  import opened Selection
  import opened Sentinel
  import opened Stats
  import opened Ranking

  /** Pairs the index with the `birthdates` column, row by row. */
  function Zip(ids: seq<int>, bds: seq<CalendarDate>): (rs: seq<Record>)
    requires |ids| == |bds|
    ensures |rs| == |ids|
  {
    seq(|ids|, i requires 0 <= i < |ids| => Record(ids[i], bds[i]))
  }

  /** Filtering the two columns separately with one mask filters the records. */
  lemma SelectZip(ids: seq<int>, bds: seq<CalendarDate>, mask: seq<bool>)
    requires |ids| == |bds| == |mask|
    ensures |Select(ids, mask)| == |Select(bds, mask)|
    ensures Zip(Select(ids, mask), Select(bds, mask)) == Select(Zip(ids, bds), mask)
  {
    SelectByIndices(ids, mask);
    SelectByIndices(bds, mask);
    SelectByIndices(Zip(ids, bds), mask);
  }

  class BirthdateFrame {
    var ids: seq<int>
    var birthdates: seq<CalendarDate>
    var birthdatesNum: seq<int>
    var ages: seq<int>
    var zscore: seq<real>

    /** The loaded part of the table. */
    function Records(): seq<Record>
      reads this
      requires |ids| == |birthdates|
    {
      Zip(ids, birthdates)
    }

    /** Every column has one entry per row. */
    predicate Complete()
      reads this
    {
      |birthdates| == |ids| && |birthdatesNum| == |ids| && |ages| == |ids| && |zscore| == |ids|
    }

    /** The rows of the finished table. */
    function Rows(): (rows: seq<Row>)
      reads this
      requires Complete()
      ensures |rows| == |ids|
    {
      var ix, bd, nm, ag, zs := ids, birthdates, birthdatesNum, ages, zscore;
      seq(|ix|, i requires 0 <= i < |ix| => Row(ix[i], bd[i], nm[i], ag[i], zs[i]))
    }

    /** The table as loaded (line 33): the index and the parsed `birthdates`, given
        here as records. */
    constructor(rs: seq<Record>)
      ensures |ids| == |birthdates| && Records() == rs
      ensures birthdatesNum == [] && ages == [] && zscore == []
    {
      ids := seq(|rs|, i requires 0 <= i < |rs| => rs[i].id);
      birthdates := seq(|rs|, i requires 0 <= i < |rs| => rs[i].birthdate);
      birthdatesNum := [];
      ages := [];
      zscore := [];
    }

    /** Adds the `birthdates_num` column, the encoding of every date (line 36). */
    method AddBirthdatesNum()
      requires |ids| == |birthdates|
      modifies this
      ensures ids == old(ids) && birthdates == old(birthdates)
      ensures ages == old(ages) && zscore == old(zscore)
      ensures birthdatesNum == BirthdatesNum(Records())
    {
      birthdatesNum := BirthdatesNum(Records());
    }

    /** Drops the rows whose `birthdates_num` is 20000101 (line 37): every column present
        is filtered by the one mask computed from `birthdates_num`; when that column is
        the encoding of the dates, what remains is the sentinel-free table and the column
        is still the encoding of the remaining dates. */
    method DropSentinelRows()
      requires |ids| == |birthdates| && |birthdatesNum| == |ids|
      requires ages == [] && zscore == []
      modifies this
      ensures var mask := NotSentinelMask(old(birthdatesNum));
        && ids == Select(old(ids), mask)
        && birthdates == Select(old(birthdates), mask)
        && birthdatesNum == Select(old(birthdatesNum), mask)
      ensures |ids| == |birthdates| && |birthdatesNum| == |ids|
      ensures ages == [] && zscore == []
      ensures old(birthdatesNum) == BirthdatesNum(old(Records())) ==>
        Records() == DropSentinel(old(Records())) && birthdatesNum == BirthdatesNum(Records())
    {
      var mask := NotSentinelMask(birthdatesNum);
      SelectZip(ids, birthdates, mask);
      SelectByIndices(birthdatesNum, mask);
      SelectByIndices(ids, mask);
      if birthdatesNum == BirthdatesNum(Records()) {
        SelectMap((r: Record) => Encode(r.birthdate), Records(), birthdatesNum, mask);
      }
      ids, birthdates, birthdatesNum := Select(ids, mask), Select(birthdates, mask), Select(birthdatesNum, mask);
    }

    /** Adds the `ages` column, each row's age at the reference date `today` (line 40). */
    method AddAges(today: Date)
      requires |ids| == |birthdates|
      modifies this
      ensures ids == old(ids) && birthdates == old(birthdates)
      ensures birthdatesNum == old(birthdatesNum) && zscore == old(zscore)
      ensures ages == AgesOf(Records(), today)
    {
      ages := AgesOf(Records(), today);
    }

    /** Adds the `zscore` column (line 89): each age's distance from the mean of the ages
        in units of `std`, the sample standard deviation of the ages (line 72). */
    method AddZScore(std: real)
      requires |ages| >= 2 && std > 0.0 && std * std == SampleVariance(ages)
      modifies this
      ensures ids == old(ids) && birthdates == old(birthdates)
      ensures birthdatesNum == old(birthdatesNum) && ages == old(ages)
      ensures zscore == ZScores(ages, Mean(ages), std)
    {
      var mean := Mean(ages);
      zscore := ZScores(ages, mean, std);
    }

    /** `good_ages`, `regular_ages` and `bad_ages`: the ages of the rows in each band,
        in table order, together every age once. */
    method BandAges() returns (good: seq<int>, regular: seq<int>, bad: seq<int>)
      requires |zscore| == |ages|
      ensures good == Select(ages, GoodMask(zscore))
      ensures regular == Select(ages, RegularMask(zscore))
      ensures bad == Select(ages, BadMask(zscore))
      ensures multiset(good) + multiset(regular) + multiset(bad) == multiset(ages)
    {
      good := Select(ages, GoodMask(zscore));
      regular := Select(ages, RegularMask(zscore));
      bad := Select(ages, BadMask(zscore));
      BandSelectionsPartition(ages, zscore);
    }

    /** The table sorted by z-score (line 115). */
    method SortValuesByZScore() returns (sorted: seq<Row>)
      requires Complete()
      ensures SortedByZScore(sorted)
      ensures multiset(sorted) == multiset(Rows())
    {
      sorted := SortByZScore(Rows());
    }

    /** The first and the last ten rows of the sorted table (lines 117 and 120), or all
        rows when there are fewer: each in ascending z-score order, and none of the other
        rows has a smaller z-score than a row of `left`, or a larger one than a row of
        `right`. */
    method TopTen() returns (left: seq<Row>, right: seq<Row>)
      requires Complete()
      ensures left == Head(SortByZScore(Rows()), ReportSize)
      ensures right == Tail(SortByZScore(Rows()), ReportSize)
      ensures SortedByZScore(left) && SortedByZScore(right)
      ensures |left| == Min(ReportSize, |ids|) && |right| == Min(ReportSize, |ids|)
      ensures multiset(left) <= multiset(Rows()) && multiset(right) <= multiset(Rows())
      ensures forall x, y :: x in left && y in multiset(Rows()) - multiset(left) ==> x.zscore <= y.zscore
      ensures forall x, y :: x in right && y in multiset(Rows()) - multiset(right) ==> y.zscore <= x.zscore
    {
      var rows := Rows();
      var sorted := SortByZScore(rows);
      left := Head(sorted, ReportSize);
      right := Tail(sorted, ReportSize);
      ReportViews(rows, ReportSize);
    }
  }

  /** The script from loading to the z-score column, for parsed rows `rs`, the
      reference date `today` and `std`, the standard deviation of the surviving ages. */
  method Analyse(rs: seq<Record>, today: Date, std: real) returns (df: BirthdateFrame)
    requires |DropSentinel(rs)| >= 2
    requires std > 0.0 && std * std == SampleVariance(AgesOf(DropSentinel(rs), today))
    ensures fresh(df) && df.Complete()
    ensures df.Records() == DropSentinel(rs)
    ensures df.birthdatesNum == BirthdatesNum(DropSentinel(rs))
    ensures df.ages == AgesOf(DropSentinel(rs), today)
    ensures df.zscore == ZScores(df.ages, Mean(df.ages), std)
  {
    df := new BirthdateFrame(rs);
    df.AddBirthdatesNum();
    df.DropSentinelRows();
    df.AddAges(today);
    df.AddZScore(std);
  }
}
