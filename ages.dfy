/** Whole years between a birthdate and a reference date (`years_from_now`):
    the year difference, less one when the (month, day) of the reference
    date comes before the (month, day) of the birthdate. The reference date
    is `today()` in the script; here it is a parameter. */
module Ages {
  import opened Dates

  /** The (month, day) of `a` comes before that of `b` in lexicographic order, as
      Python orders two-element tuples (line 25). */
  predicate MonthDayBefore(a: Date, b: Date) {
    a.month < b.month || (a.month == b.month && a.day < b.day)
  }

  /** The age at `today`: the largest k whose k-th anniversary is not after `today`. */
  function YearsFromNow(birth: Date, today: Date): (age: int)
    ensures NotAfter(Anniversary(birth, age), today)
    ensures !NotAfter(Anniversary(birth, age + 1), today)
  {
    today.year - birth.year - (if MonthDayBefore(today, birth) then 1 else 0)
  }

  /** The k-th anniversary of a birthdate, as a (year, month, day) triple; for a
      29 February birthdate it need not be a real date. */
  function Anniversary(birth: Date, k: int): Date {
    Date(birth.year + k, birth.month, birth.day)
  }

  /** The age is the number of anniversaries reached: the k-th anniversary is on or
      before the reference date exactly when k is at most the age. */
  lemma AgeCountsAnniversaries(birth: Date, today: Date, k: int)
    ensures NotAfter(Anniversary(birth, k), today) <==> k <= YearsFromNow(birth, today)
  {
  }

  /** For a fixed reference date, a later birthdate never has a larger age. */
  lemma AgeAntitone(b1: Date, b2: Date, today: Date)
    requires NotAfter(b1, b2)
    ensures YearsFromNow(b2, today) <= YearsFromNow(b1, today)
  {
  }

  /** A birthdate on or before the reference date has a non-negative age; one after it
      has a negative age. */
  lemma AgeSign(birth: Date, today: Date)
    ensures NotAfter(birth, today) <==> YearsFromNow(birth, today) >= 0
  {
  }

  lemma AgeExamples()
    ensures YearsFromNow(Date(2000, 6, 16), Date(2024, 6, 15)) == 23
    ensures YearsFromNow(Date(2000, 6, 15), Date(2024, 6, 15)) == 24
    // a 29 February birthdate: on 28 February of a common year the tuple (2, 28)
    // is before (2, 29), so that year's anniversary has not been reached yet
    ensures YearsFromNow(Date(2000, 2, 29), Date(2023, 2, 28)) == 22
    ensures YearsFromNow(Date(2000, 2, 29), Date(2023, 3, 1)) == 23
    ensures YearsFromNow(Date(2000, 2, 29), Date(2024, 2, 29)) == 24
  {
  }
}
