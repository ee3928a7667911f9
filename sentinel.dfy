/** The records of the table, the `birthdates_num` column, the removal of the
    placeholder date 2000-01-01 (rows whose `birthdates_num` is 20000101) and
    the `ages` column, which is derived only from the surviving rows. */
module Sentinel {
  import opened Dates
  import opened Ages
  import opened Selection

  /** One row as loaded: its index value (`index_col=0`) and its parsed birthdate. */
  datatype Record = Record(id: int, birthdate: CalendarDate)

  const SentinelNum := 20000101
  const SentinelDate: CalendarDate := Date(2000, 1, 1)

  /** The `birthdates_num` column: the integer encoding of every date (line 36). */
  function BirthdatesNum(rs: seq<Record>): (nums: seq<int>)
    ensures |nums| == |rs|
  {
    seq(|rs|, i requires 0 <= i < |rs| => Encode(rs[i].birthdate))
  }

  /** True for the rows whose `birthdates_num` differs from 20000101 (line 37). */
  function NotSentinelMask(nums: seq<int>): (mask: seq<bool>)
    ensures |mask| == |nums|
  {
    seq(|nums|, i requires 0 <= i < |nums| => nums[i] != SentinelNum)
  }

  /** The rows kept by the sentinel mask, in their original order (line 37). */
  function DropSentinel(rs: seq<Record>): seq<Record> {
    Select(rs, NotSentinelMask(BirthdatesNum(rs)))
  }

  /** The `ages` column: every row's age at the reference date (line 40). */
  function AgesOf(rs: seq<Record>, today: Date): (ages: seq<int>)
    ensures |ages| == |rs|
  {
    seq(|rs|, i requires 0 <= i < |rs| => YearsFromNow(rs[i].birthdate, today))
  }

  /** The number 20000101 encodes 2000-01-01 and no other date. */
  lemma SentinelNumIsSentinelDate(d: CalendarDate)
    ensures Encode(d) == SentinelNum <==> d == SentinelDate
  {
    EncodeValue(d);
  }

  /** The rows kept are exactly those whose date is not 2000-01-01, in their original
      order: the k-th survivor is the row at the k-th kept position, the kept positions
      increase, and a position is kept exactly when its date differs from the sentinel. */
  lemma DropSentinelExact(rs: seq<Record>)
    ensures |DropSentinel(rs)| == |SelectedIndices(NotSentinelMask(BirthdatesNum(rs)))|
    ensures var idx := SelectedIndices(NotSentinelMask(BirthdatesNum(rs)));
      && StrictlyIncreasing(idx)
      && (forall k :: 0 <= k < |idx| ==> idx[k] < |rs| && DropSentinel(rs)[k] == rs[idx[k]])
      && (forall i :: 0 <= i < |rs| ==> (i in idx <==> rs[i].birthdate != SentinelDate))
  {
    var mask := NotSentinelMask(BirthdatesNum(rs));
    SelectByIndices(rs, mask);
    SelectedIndicesExact(mask);
    forall i | 0 <= i < |rs| ensures mask[i] <==> rs[i].birthdate != SentinelDate {
      SentinelNumIsSentinelDate(rs[i].birthdate);
    }
  }

  /** No surviving row carries the sentinel date, and every row with another date
      survives, as often as it occurs. */
  lemma DropSentinelKeepsOthers(rs: seq<Record>)
    ensures forall r: Record :: r in DropSentinel(rs) ==> r.birthdate != SentinelDate
    ensures forall r: Record :: r.birthdate != SentinelDate ==> multiset(DropSentinel(rs))[r] == multiset(rs)[r]
  {
    DropSentinelCounts(rs);
  }

  lemma {:induction false} DropSentinelCounts(rs: seq<Record>)
    ensures forall r: Record :: r.birthdate == SentinelDate ==> multiset(DropSentinel(rs))[r] == 0
    ensures forall r: Record :: r.birthdate != SentinelDate ==> multiset(DropSentinel(rs))[r] == multiset(rs)[r]
  {
    if rs != [] {
      var n := |rs| - 1;
      var rs' := rs[..n];
      var mask := NotSentinelMask(BirthdatesNum(rs));
      assert BirthdatesNum(rs)[..n] == BirthdatesNum(rs');
      assert mask[..n] == NotSentinelMask(BirthdatesNum(rs'));
      DropSentinelCounts(rs');
      SentinelNumIsSentinelDate(rs[n].birthdate);
      SelectSnoc(rs, mask);
      MultisetSnoc(rs);
    }
  }

  /** Deriving ages after the filter equals deriving them for every row and then
      dropping the sentinel rows: one age per survivor, in the survivors' order. */
  lemma AgesAfterFilter(rs: seq<Record>, today: Date)
    ensures AgesOf(DropSentinel(rs), today) == Select(AgesOf(rs, today), NotSentinelMask(BirthdatesNum(rs)))
  {
    var mask := NotSentinelMask(BirthdatesNum(rs));
    SelectMap((r: Record) => YearsFromNow(r.birthdate, today), rs, AgesOf(rs, today), mask);
  }

  /** Of 1990-05-01, 2000-01-01 and 1985-12-12 the first and the last survive. */
  lemma DropSentinelExample(rs: seq<Record>)
    requires rs == [Record(0, Date(1990, 5, 1)), Record(1, Date(2000, 1, 1)), Record(2, Date(1985, 12, 12))]
    ensures DropSentinel(rs) == [rs[0], rs[2]]
  {
    ExampleMask(rs);
    SelectFirstAndLast(rs, NotSentinelMask(BirthdatesNum(rs)));
  }

  lemma SelectFirstAndLast<T>(xs: seq<T>, mask: seq<bool>)
    requires |xs| == 3 && mask == [true, false, true]
    ensures Select(xs, mask) == [xs[0], xs[2]]
  {
    assert xs[..2][..1][..0] == [] && mask[..2][..1][..0] == [];
    assert Select(xs[..2][..1], mask[..2][..1]) == [xs[0]];
    assert Select(xs[..2], mask[..2]) == [xs[0]];
  }

  lemma ExampleMask(rs: seq<Record>)
    requires rs == [Record(0, Date(1990, 5, 1)), Record(1, Date(2000, 1, 1)), Record(2, Date(1985, 12, 12))]
    ensures NotSentinelMask(BirthdatesNum(rs)) == [true, false, true]
  {
    EncodeValue(rs[0].birthdate);
    EncodeValue(rs[1].birthdate);
    EncodeValue(rs[2].birthdate);
  }
}
