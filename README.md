# Birthdate data quality with z-scores — a Dafny model

The notebook script `dq_birthdates_advanced_stats_v1_0.py` loads a table of
birthdates. It flags suspicious entries in four steps:

- it adds an integer form of each date (`birthdates_num`, `YYYYMMDD`);
- it drops the rows holding the placeholder date 2000-01-01;
- it derives each person's age in whole years, as of today;
- it scores every age as a z-score against the mean and sample standard deviation of the ages.

It then splits the ages into three bands (good, regular, bad) and sorts the table by z-score. It shows the ten lowest and the ten highest rows.

This project models that pipeline in Dafny and proves what it promises:

- **Decimal** (`decimal.dfy`): zero-padded decimal digits and reading a digit
  string as an integer. These are the two halves of `int(d.strftime(...))`. Padding and then reading gives the number back, and reading a concatenation is positional.
- **Dates** (`dates.dfy`): the date part of the parsed pandas Timestamps, as proleptic Gregorian dates of years 1..9999, with calendar order. The encoding `Encode` is `int(d.strftime("%Y%m%d"))`, the ISO 8601 basic calendar-date form (section 4.1.2.2 of ISO 8601:2004) read as an integer. It equals Y·10000 + M·100 + D, lies in 10101..99991231, is strictly monotonic in both directions and is injective. `Decode` inverts it.
- **Ages** (`ages.dfy`): `years_from_now`, with the reference date (`today()`) as a parameter. The age counts the anniversaries reached. It never grows as the birthdate moves later, and it is non-negative exactly for birthdates not after the reference date.
- **Selection** (`selection.dfy`): `df.loc[mask]` on one column. It keeps the masked rows in order and commutes with deriving a column row by row. Three masks with exactly one true per row split the rows.
- **Sentinel** (`sentinel.dfy`): the `birthdates_num` column and the removal of the rows equal to 20000101. The filter removes exactly the rows dated 2000-01-01 and keeps every other row at its multiplicity, in order. Ages derived after the filter equal ages derived before it and then filtered.
- **Stats** (`stats.dfy`): mean, Bessel-corrected sample variance, the z-score and the three bands.
  - The deviations from the mean sum to zero, so the z-scores do too.
  - The z-score preserves the order of the ages.
  - The variance is zero exactly for a constant column.
  - The bands partition the scores, with inclusive edges as written. They can also be stated without a square root, through the variance.
- **Ranking** (`ranking.dfy`): `sort_values('zscore')` is specified as any ascending arrangement of the same rows. An insertion sort shows that one exists. Any two ascending arrangements agree on every z-score, so the unfixed order among ties changes no score in the report. `head(n)` and `tail(n)` return min(n, len) rows; no row outside them is smaller, respectively larger.
- **Frame** (`frame.dfy`): the DataFrame `df` as a class whose methods add the columns in place. `DropSentinelRows` rebinds every column through the same mask. `Analyse` runs the script from loading to the z-score column.

The standard deviation `std_ages` is a parameter. It is a positive real whose square is the sample variance of the ages, so no square root is computed.

The age rule follows the code, not the common reading of "age today". The code compares `(month, day)` tuples directly. So a person born on 29 February has *not* reached their birthday on 28 February of a common year, because (2, 28) < (2, 29): a 2000-02-29 birthdate is 22 on 2023-02-28 and 23 on 2023-03-01 (`Ages.AgeExamples`).

## Model

| member | source | states |
|---|---|---|
| Decimal.PadDigits | dq_birthdates_advanced_stats_v1_0.py:36 | a `%Y`/`%m`/`%d` field is exactly `width` decimal digits |
| Decimal.ParseDecimal | dq_birthdates_advanced_stats_v1_0.py:36 | `int()` of k digits is below 10^k |
| Decimal.ParsePadDigits | dq_birthdates_advanced_stats_v1_0.py:36 | for every n below 10^width, reading the width-digit zero-padded rendering of n as an integer gives n. |
| Decimal.ParseConcat | dq_birthdates_advanced_stats_v1_0.py:36 | the integer of a concatenation of digit strings is the first part shifted by the second part's length plus the second part |
| Dates.DaysInMonth | dq_birthdates_advanced_stats_v1_0.py:33 | months have 28..31 days, and 29 exactly for February of a Gregorian leap year (the dates `parse_dates` accepts) |
| Dates.Strftime | dq_birthdates_advanced_stats_v1_0.py:36 | `strftime("%Y%m%d")` of a date is eight decimal digits |
| Dates.Encode | dq_birthdates_advanced_stats_v1_0.py:36 | the date formatted as eight digits and read as an integer (its value is fixed by `EncodeValue`) |
| Dates.EncodeValue | dq_birthdates_advanced_stats_v1_0.py:36 | `int(d.strftime("%Y%m%d"))` is Y·10000 + M·100 + D |
| Dates.EncodeRange | dq_birthdates_advanced_stats_v1_0.py:36 | every encoding lies in 10101..99991231 |
| Dates.EncodeMonotonic | dq_birthdates_advanced_stats_v1_0.py:36 | a date is earlier than another exactly when its encoding is smaller |
| Dates.EncodeInjective | dq_birthdates_advanced_stats_v1_0.py:36 | two dates have the same encoding exactly when they are the same date |
| Dates.DecodeEncode | dq_birthdates_advanced_stats_v1_0.py:36 | the date is recovered from its encoding by digit arithmetic |
| Ages.MonthDayBefore | dq_birthdates_advanced_stats_v1_0.py:25 | the (month, day) of one date comes before that of another in lexicographic order, as the tuple comparison does |
| Ages.YearsFromNow | dq_birthdates_advanced_stats_v1_0.py:23-27 | the age is the year difference, less one when today's (month, day) comes before the birthdate's; its contract states that the age-th anniversary is not after today and the next one is |
| Ages.AgeCountsAnniversaries | dq_birthdates_advanced_stats_v1_0.py:23-27 | the k-th anniversary is on or before the reference date exactly when k is at most the age |
| Ages.AgeAntitone | dq_birthdates_advanced_stats_v1_0.py:23-27 | for one reference date, a later birthdate never has a larger age |
| Ages.AgeSign | dq_birthdates_advanced_stats_v1_0.py:23-27 | the age is non-negative exactly when the birthdate is not after the reference date |
| Ages.AgeExamples | dq_birthdates_advanced_stats_v1_0.py:25 | on 2024-06-15, a 2000-06-16 birthdate is 23 and a 2000-06-15 one is 24; the 29 February cases on 28 Feb, 1 Mar and 29 Feb |
| Selection.Select | dq_birthdates_advanced_stats_v1_0.py:37 | a masked selection has at most as many rows as its input |
| Selection.SelectedIndicesExact | dq_birthdates_advanced_stats_v1_0.py:37 | the kept positions increase and are exactly the positions whose mask entry is true |
| Selection.SelectByIndices | dq_birthdates_advanced_stats_v1_0.py:37 | the k-th selected row is the input row at the k-th kept position |
| Selection.SelectSubMultiset | dq_birthdates_advanced_stats_v1_0.py:37 | every selected row is an input row, at no greater multiplicity |
| Selection.SelectMap | dq_birthdates_advanced_stats_v1_0.py:37-40 | selecting a derived column gives, row by row, the derivation of the selected rows |
| Selection.SelectPartition | dq_birthdates_advanced_stats_v1_0.py:95-97 | three masks with exactly one true per row split the rows: the three selections together are the input as a multiset |
| Selection.SelectPartitionSizes | dq_birthdates_advanced_stats_v1_0.py:95-97 | the three selections' sizes add up to the number of rows |
| Sentinel.BirthdatesNum | dq_birthdates_advanced_stats_v1_0.py:36 | one `birthdates_num` entry per row |
| Sentinel.NotSentinelMask | dq_birthdates_advanced_stats_v1_0.py:37 | one mask entry per row |
| Sentinel.AgesOf | dq_birthdates_advanced_stats_v1_0.py:40 | one age per row |
| Sentinel.DropSentinel | dq_birthdates_advanced_stats_v1_0.py:37 | the rows whose encoding is not 20000101, in their original order (characterised by `DropSentinelExact` and `DropSentinelKeepsOthers`) |
| Sentinel.SentinelNumIsSentinelDate | dq_birthdates_advanced_stats_v1_0.py:37 | 20000101 is the encoding of 2000-01-01 and of no other date |
| Sentinel.DropSentinelExact | dq_birthdates_advanced_stats_v1_0.py:37 | the survivors are the rows at increasing positions, and a position survives exactly when its date is not 2000-01-01 |
| Sentinel.DropSentinelKeepsOthers | dq_birthdates_advanced_stats_v1_0.py:37 | no survivor is dated 2000-01-01, and every row with another date survives as often as it occurs |
| Sentinel.DropSentinelCounts | dq_birthdates_advanced_stats_v1_0.py:37 | the multiplicity of each record after the filter: zero for the sentinel date, unchanged otherwise |
| Sentinel.AgesAfterFilter | dq_birthdates_advanced_stats_v1_0.py:37-40 | ages of the filtered rows equal the ages of all rows filtered by the same mask |
| Sentinel.DropSentinelExample | dq_birthdates_advanced_stats_v1_0.py:37 | of 1990-05-01, 2000-01-01 and 1985-12-12 exactly the first and last survive, in order |
| Stats.Mean | dq_birthdates_advanced_stats_v1_0.py:73 | the sum of the ages divided by their number |
| Stats.IsSampleStd | dq_birthdates_advanced_stats_v1_0.py:72 | `std` is non-negative and its square is the sample variance, as the square root `std()` returns |
| Stats.SquaredDeviations | dq_birthdates_advanced_stats_v1_0.py:72 | the sum of squared deviations is non-negative |
| Stats.SampleVariance | dq_birthdates_advanced_stats_v1_0.py:72 | the Bessel-corrected variance behind `std()` is non-negative |
| Stats.ZScore | dq_birthdates_advanced_stats_v1_0.py:89 | the z-score times std is the age's deviation from the mean |
| Stats.ZScores | dq_birthdates_advanced_stats_v1_0.py:89 | one z-score per age |
| Stats.MeanBounds | dq_birthdates_advanced_stats_v1_0.py:73 | the mean lies between any lower and upper bound of the ages |
| Stats.SumConstant | dq_birthdates_advanced_stats_v1_0.py:73 | a constant column sums to its length times the constant |
| Stats.DeviationsSumToZero | dq_birthdates_advanced_stats_v1_0.py:73 | the deviations from the mean sum to zero |
| Stats.ZScoresSumToZero | dq_birthdates_advanced_stats_v1_0.py:89 | with the mean of the ages, the z-scores sum to zero for every positive std |
| Stats.ZScoreOrder | dq_birthdates_advanced_stats_v1_0.py:89 | for positive std, z-scores are ordered (strictly and weakly) exactly as the ages are |
| Stats.SquaredDeviationsPositive | dq_birthdates_advanced_stats_v1_0.py:72 | one value away from the centre makes the squared deviations positive |
| Stats.VarianceZeroIffConstant | dq_birthdates_advanced_stats_v1_0.py:72 | the sample variance is zero exactly when all ages are equal, the case excluded from scoring |
| Stats.IsGood | dq_birthdates_advanced_stats_v1_0.py:95 | the `good_ages` mask: -1 ≤ z ≤ 1 |
| Stats.IsRegular | dq_birthdates_advanced_stats_v1_0.py:96 | the `regular_ages` mask: 1 < z ≤ 3 or -3 ≤ z < -1 |
| Stats.IsBad | dq_birthdates_advanced_stats_v1_0.py:97 | the `bad_ages` mask: z > 3 or z < -3 |
| Stats.GoodMask | dq_birthdates_advanced_stats_v1_0.py:95 | the good mask of every z-score, one entry per row |
| Stats.RegularMask | dq_birthdates_advanced_stats_v1_0.py:96 | the regular mask of every z-score, one entry per row |
| Stats.BadMask | dq_birthdates_advanced_stats_v1_0.py:97 | the bad mask of every z-score, one entry per row |
| Stats.BandOf | dq_birthdates_advanced_stats_v1_0.py:95-97 | the band of a score is good, regular or bad exactly when the corresponding mask holds |
| Stats.BandsPartition | dq_birthdates_advanced_stats_v1_0.py:95-97 | each score is in exactly one band; good is abs(z) ≤ 1, regular 1 < abs(z) ≤ 3, bad abs(z) > 3 |
| Stats.BandEdges | dq_birthdates_advanced_stats_v1_0.py:95-97 | ±1 is good, ±1.0000001 and ±3 regular, ±3 not bad, ±3.0000001 bad |
| Stats.BandsBySquares | dq_birthdates_advanced_stats_v1_0.py:89-97 | with std² the variance, good is (a − mean)² ≤ var, bad (a − mean)² > 9·var, regular in between |
| Stats.BandSelectionsPartition | dq_birthdates_advanced_stats_v1_0.py:95-97 | `good_ages`, `regular_ages` and `bad_ages` together hold every age once, and their sizes add up |
| Ranking.SortedSlice | dq_birthdates_advanced_stats_v1_0.py:117-120 | a contiguous part of an ascending table is ascending |
| Ranking.Insert | dq_birthdates_advanced_stats_v1_0.py:115 | inserting adds exactly the one row |
| Ranking.InsertSorted | dq_birthdates_advanced_stats_v1_0.py:115 | inserting into an ascending table keeps it ascending |
| Ranking.SortByZScore | dq_birthdates_advanced_stats_v1_0.py:115 | the sorted table is ascending in z-score and is a permutation of the rows |
| Ranking.SortedZScoresDetermined | dq_birthdates_advanced_stats_v1_0.py:115 | two ascending arrangements of the same rows have the same z-score at every position |
| Ranking.SortedByZScoreIsByAge | dq_birthdates_advanced_stats_v1_0.py:89-115 | when each z-score comes from the row's age, ascending z-score is ascending age |
| Ranking.Head | dq_birthdates_advanced_stats_v1_0.py:117 | `head(n)` has min(n, len) rows |
| Ranking.Tail | dq_birthdates_advanced_stats_v1_0.py:120 | `tail(n)` has min(n, len) rows |
| Ranking.HeadSmallest | dq_birthdates_advanced_stats_v1_0.py:115-117 | the head of an ascending table is ascending, is a sub-multiset of it, and no other row of it has a smaller z-score than a head row |
| Ranking.TailLargest | dq_birthdates_advanced_stats_v1_0.py:115-120 | the tail of an ascending table is ascending, is a sub-multiset of it, and no other row of it has a larger z-score than a tail row |
| Ranking.ReportViews | dq_birthdates_advanced_stats_v1_0.py:115-120 | `head(n)` and `tail(n)` of the sorted table are ascending sub-multisets of the table of min(n, len) rows, extreme in z-score against every other row |
| Ranking.SmallTableShownWhole | dq_birthdates_advanced_stats_v1_0.py:115-120 | a table of at most n rows is shown whole by both views |
| Frame.SelectZip | dq_birthdates_advanced_stats_v1_0.py:37 | filtering each column with one mask filters the rows |
| Frame.BirthdateFrame.Rows | dq_birthdates_advanced_stats_v1_0.py:89 | the finished table has one row per index entry |
| Frame.BirthdateFrame.constructor | dq_birthdates_advanced_stats_v1_0.py:33 | the loaded table holds the given records and no derived column |
| Frame.BirthdateFrame.AddBirthdatesNum | dq_birthdates_advanced_stats_v1_0.py:36 | adds `birthdates_num` as the encoding of each date, changing no other column |
| Frame.BirthdateFrame.DropSentinelRows | dq_birthdates_advanced_stats_v1_0.py:37 | every column is filtered by the `birthdates_num != 20000101` mask; the remaining table is the sentinel-free one and its `birthdates_num` is still the encoding |
| Frame.BirthdateFrame.AddAges | dq_birthdates_advanced_stats_v1_0.py:40 | adds `ages` as each row's age at the reference date, changing no other column |
| Frame.BirthdateFrame.AddZScore | dq_birthdates_advanced_stats_v1_0.py:89 | adds `zscore` as each age's z-score with the mean and std of the ages, changing no other column |
| Frame.BirthdateFrame.BandAges | dq_birthdates_advanced_stats_v1_0.py:95-97 | the three band selections of `ages`, which together hold every age once |
| Frame.BirthdateFrame.SortValuesByZScore | dq_birthdates_advanced_stats_v1_0.py:115 | the sorted table is ascending in z-score and a permutation of the table's rows |
| Frame.BirthdateFrame.TopTen | dq_birthdates_advanced_stats_v1_0.py:115-120 | the rows shown are the first and last ten (or fewer) rows of the sorted table, each part ascending, with no other row lower than the left ones or higher than the right ones |
| Frame.Analyse | dq_birthdates_advanced_stats_v1_0.py:33-89 | after the script's steps the table holds the sentinel-free records, their encodings, their ages and the ages' z-scores |

## Left out

- Loading: downloading and parsing the CSV (`pd.read_csv` with `parse_dates`) is I/O; the model starts from parsed records of valid dates.
- The reference date: the script reads the clock once per row (`d.today()` on each row's Timestamp, line 24, inside the comprehension of line 40); the model takes one reference date `today` for all rows, so a run across midnight, where rows would get different reference dates, is not modelled.
- Plotting and printing: histograms, axis formatting and the printed statistics and tables are presentation only.
- The mean and standard deviation of `birthdates_num` are computed only to be printed; the model does not compute them.
- IsolationForest: a randomised estimator from a library whose code is not part of this model; its scores and labels are left out.
- Floating point: mean, variance and z-scores are exact reals; rounding of pandas' float arithmetic is not modelled.
- The square root: `std()` is given as a positive real whose square is the sample variance.
- Frame.BirthdateFrame.AddZScore: requires at least two ages and a positive std. With fewer rows or a constant column, the script produces NaN or infinite scores rather than an error. The model does not represent those values, because it has no floating-point NaN or infinity.
- Frame.Analyse: requires the same conditions of the surviving ages. The model does not represent the NaN/infinite outcome, for the same reason.
- Sort stability: pandas' default sort is not stable. The model fixes no order among equal z-scores; `SortByZScore` is one arrangement that meets the specification.
- Date range: the `birthdates` column holds pandas Timestamps, whose nanosecond span (1677 to 2262) is narrower than the years 1..9999 the model allows; that narrower span is not modelled.
