# Time features and IQR fences of `utils.py`, modelled in Dafny

The repository is a set of helpers for an exploratory analysis of an
e-commerce order dataset. Two of them carry logic that can be stated and
proved; this project models those two.

- `get_iqr(df, feature, k_factor=1.5, remove=True)` takes the 25th and 75th
  percentiles of a numeric column with numpy's default linear interpolation.
  It computes the interquartile range and the fences `q25 - IQR*k` and
  `q75 + IQR*k`. It returns either `(IQR, lower, upper)` or two row
  selections: the rows strictly inside the fences, and the rows it labels as
  outliers.
- `extract_from_date(data, timestamp_column, suffix)` parses a timestamp
  column in place. It then adds eleven calendar columns to the same table and
  returns that table. Ten are named `suffix + "_" + field`; the eleventh is
  `suffix + "day_time"`, with no underscore. That column buckets the hour
  into morning, afternoon and night with `pd.cut`.

Files:

- `outcomes.dfy` (module `Outcomes`): `Option` and `Result`.
- `percentile.dfy` (module `Quantiles`): sorting, and numpy's linear
  percentile on exact reals.
- `iqr.dfy` (module `Iqr`): `get_iqr` as written, the corrected outlier
  filter, and their properties.
- `timestamps.dfy` (module `Timestamps`): the fields of a parsed timestamp,
  plus `strftime('%Y%m')`, `strftime('%Y%m%d')`, `month_name()` and
  `day_name()`.
- `binning.dfy` (module `Binning`): `pd.cut` with right-closed bins, and the
  `day_time` bucket.
- `time_features.dfy` (module `TimeFeatures`): the table as a class with a
  map of columns, and `extract_from_date` as a method that changes it in
  place.

`get_iqr` is pure, so it is modelled by functions and lemmas.
`extract_from_date` changes the table step by step, so it is a method of the
class `Table`. That method performs the same twelve assignments in the same
order. Each `.dt` step reads the timestamp column again, as `extract_from_date` does.

The pandas calls are treated like this:

- `pd.to_datetime` is a parameter `parse` of the method.
- The calendar arithmetic of pandas is taken as given. A timestamp is a
  record of year, month, day, hour, day of the week (Monday is 0) and ISO
  week.
- A selection `df.loc[mask]` is the ascending sequence of the positions of
  the rows it keeps.

`get_iqr` returns the triple in the order `(IQR, lower, upper)`
(utils.py:114). Its outlier set is empty whenever the fences are in order,
which holds when the IQR is 0 or k ≥ -1/2 (`Iqr.FencesOrdered`,
`Iqr.OutliersEmptyWhenFencesOrdered`), so the default k of 1.5 always gives
an empty set. More precisely, the set is empty exactly when no value lies
strictly between the upper and the lower fence (`Iqr.OutliersEmptyExactly`).

## Model

| member | source | states |
|---|---|---|
| Quantiles.Sort | utils.py:106 | the values numpy interpolates on: the column's values (same multiset), in ascending order |
| Quantiles.SortedUnique | utils.py:106 | two sorted arrangements of the same values are equal, so the sorted column is unique |
| Quantiles.PercentileInRange | utils.py:106 | every percentile lies between the smallest and the largest value of the column |
| Quantiles.PercentileExtremes | utils.py:106 | the 0th percentile is the column's minimum and the 100th its maximum, both values of the column |
| Quantiles.PercentileMonotone | utils.py:106 | a larger p never gives a smaller percentile, hence q25 <= q75 |
| Quantiles.PercentileIgnoresRowOrder | utils.py:106 | the percentile depends only on the multiset of values, not on row order |
| Quantiles.Interpolate | utils.py:106 | definition (no ensures): numpy's linear method on a sorted sequence, a[i] + f * (a[i+1] - a[i]) with i and f the whole part and fraction of h = (n-1)p/100, and a[i] at the last index; its properties are in InterpolateBetween, InterpolateMonotone and InterpolateAt |
| Quantiles.Percentile | utils.py:106 | definition (no ensures): `np.percentile(column, p)` is Interpolate on the sorted column; its properties are in PercentileInRange, PercentileExtremes, PercentileMonotone and PercentileIgnoresRowOrder |
| Quantiles.Position | utils.py:106 | definition (no ensures): numpy's virtual index h = (n-1)p/100 for the linear method; its properties are in PositionBounds and PositionMonotone |
| Quantiles.PositionBounds | utils.py:106 | numpy's position h = (n-1)p/100 of a percentile in [0, 100] is a valid real index, 0 <= h <= n-1 |
| Quantiles.PositionMonotone | utils.py:106 | a larger p gives a position no smaller |
| Quantiles.InterpolateBetween | utils.py:106 | the interpolated value lies between the order statistics at floor(h) and floor(h)+1, h = (n-1)p/100 |
| Iqr.FencesOf | utils.py:107-109 | definition (no ensures): IQR = q75 - q25, cut_off = IQR * k, lower = q25 - cut_off, upper = q75 + cut_off; its properties are in FencesAround and FenceArithmetic |
| Iqr.ComputeFences | utils.py:106-109 | definition (no ensures): FencesOf applied to the column's 25th and 75th percentiles; its properties are in IqrNonNegative, FencesEncloseQuartiles and FencesOrdered |
| Iqr.Inside | utils.py:111 | definition (no ensures): the inlier mask `lower < v < upper` |
| Iqr.OutsideAsWritten | utils.py:112 | definition (no ensures): the outlier mask as written, `v < lower AND v > upper` |
| Iqr.Outside | utils.py:112 | definition (no ensures): the evidently intended outlier mask `v < lower OR v > upper`, used by GetIqrCorrected; its properties are in InsideOutsideOnFence and CorrectedPartition |
| Iqr.IsSelection | utils.py:111-112 | definition (no ensures): the shape of the rows `df.loc[mask]` keeps, positions below the row count in strictly ascending order (so each row at most once); RowsWhere, GetIqr and GetIqrCorrected ensure it of their selections |
| Iqr.RowsWhere | utils.py:111-112 | `df.loc[mask]`: exactly the rows whose value passes the mask, each once, in row order |
| Iqr.GetIqr | utils.py:99-114 | defaults k = 1.5 and remove = true; empty column is an error; remove=False gives the (IQR, lower, upper) triple; remove=True gives two row selections (positions in range, ascending, each row once): the rows strictly inside the fences, and the rows below the lower AND above the upper fence |
| Iqr.IqrNonNegative | utils.py:106-107 | q25 <= q75, so the interquartile range is never negative |
| Iqr.FencesEncloseQuartiles | utils.py:108-109 | for k >= 0: lower <= q25 <= q75 <= upper |
| Iqr.FencesAround | utils.py:107-109 | for quartiles q25 <= q75 and k >= 0, the fences computed from them lie outside the quartiles |
| Iqr.FenceArithmetic | utils.py:107-109 | for q25 <= q75, the fences are in order exactly when the IQR is 0 or k >= -1/2 |
| Iqr.FencesOrdered | utils.py:106-109 | on a column, lower <= upper exactly when the IQR is 0 or k >= -1/2 |
| Iqr.OutliersEmptyWhenFencesOrdered | utils.py:112 | whenever lower <= upper, the outlier selection as written is empty |
| Iqr.OutliersEmptyExactly | utils.py:112 | the outlier selection as written is empty exactly when no value lies strictly between upper and lower |
| Iqr.OutliersAlwaysEmpty | utils.py:112 | for every k >= -1/2 (the default 1.5 included), the outlier selection as written is empty |
| Iqr.SelectionsDisjoint | utils.py:111-112 | no row is in both selections; a row whose value equals a fence is in neither |
| Iqr.InsideOutsideOnFence | utils.py:111-112 | with ordered fences, each value is inside, outside or on a fence, and only one of the three |
| Iqr.ExampleQuartiles | utils.py:106 | for the column 1..9, 100 the quartiles are 3.25 and 7.75 |
| Iqr.MissedOutlierExample | utils.py:106-113 | for the column 1..9, 100 and k = 1.5 the fences are -3.5 and 14.5; the value 100 lies above the upper fence, yet the as-written selection omits it and the corrected one reports it |
| Iqr.GetIqrCorrected | utils.py:99-114 | `get_iqr` with the outlier mask as a disjunction: same error case, triple and inliers; the outliers are a row selection holding exactly the rows below the lower OR above the upper fence |
| Iqr.CorrectedPartition | utils.py:111-112 | with the corrected mask and k >= -1/2, every row is in exactly one of: inliers, outliers, on a fence |
| Timestamps.YearMonth | utils.py:56 | definition (no ensures): `strftime('%Y%m')`, the year padded to four digits followed by the month padded to two; its properties are in YearMonthIsDatePrefix |
| Timestamps.DateStamp | utils.py:57 | definition (no ensures): `strftime('%Y%m%d')`, year, month and day zero-padded to 4, 2 and 2 digits; its properties are in DateStampRoundTrip and YearMonthIsDatePrefix |
| Timestamps.MonthName | utils.py:55 | definition (no ensures): `month_name()` in the English locale, January for month 1 to December for month 12 |
| Timestamps.DayName | utils.py:61 | definition (no ensures): `day_name()` in the English locale, Monday for day 0 to Sunday for day 6 |
| Timestamps.ZeroPad | utils.py:56-57 | the zero-padded decimal field of `%Y`, `%m` and `%d`; ensures it is all digits and at least width characters; ZeroPadRoundTrip states that it reads back as the number and fills exactly width characters when the number is below 10^width |
| Timestamps.ZeroPadRoundTrip | utils.py:56-57 | a zero-padded field reads back as its number, and a number below 10^width fills exactly width characters |
| Timestamps.YearMonthIsDatePrefix | utils.py:56-57 | `%Y%m` is six characters long and is the first six characters of the eight-character `%Y%m%d` |
| Timestamps.DateStampRoundTrip | utils.py:57 | `%Y%m%d` is eight digits from which the year, month and day read back |
| Binning.BinIndex | utils.py:63 | the bin (e[i], e[i+1]] that holds x if there is one; none when x is in no bin |
| Binning.BinIndexExact | utils.py:63 | x is in bin i exactly when BinIndex says i, so bins do not overlap |
| Binning.Cut | utils.py:63 | definition (no ensures): `pd.cut` with labels for one value, the label of the bin BinIndex finds and none when the value is in no bin; its properties are in BinIndex, BinIndexExact and HourBuckets |
| Binning.DayTimeOf | utils.py:63 | definition (no ensures): `pd.cut(hour, bins=[0, 12, 18, 23], labels=['morning', 'afternoon', 'night'])` for one row; its properties are in HourBuckets |
| Binning.HourBuckets | utils.py:63 | hour 0 has no label; 1..12 "morning", 13..18 "afternoon", 19..23 "night"; each an if-and-only-if |
| TimeFeatures.FeatureNames | utils.py:53-63 | the eleven derived names, `suffix` followed by `_year`, `_month`, `_month_name`, `_year_month`, `_date`, `_week`, `_day`, `_dayofweek`, `_day_name`, `_hour` and `day_time` in assignment order; ensures there are eleven |
| TimeFeatures.FeatureCell | utils.py:53-63 | definition (no ensures): the cell column k holds for one timestamp: year, month, month name, `%Y%m`, `%Y%m%d`, ISO week, day, day of week, day name, hour, and the `day_time` label of the hour |
| TimeFeatures.FeatureColumn | utils.py:53-62 | `data[ts].dt.<field>` for derived column k, FeatureCell k of every row's timestamp; ensures one cell per row; FeaturesLookup states what each cell holds |
| TimeFeatures.Features | utils.py:53-63 | definition (no ensures): the eleven derived columns by name; its properties are in FeaturesLookup, FeaturesKeys and FeaturesAsAssignments |
| TimeFeatures.FeatureNamesDistinct | utils.py:53-63 | the eleven derived names differ pairwise, for every suffix |
| TimeFeatures.FeaturesLookup | utils.py:53-63 | the derived column of each name holds that field of every row's timestamp |
| TimeFeatures.FeaturesKeys | utils.py:53-63 | the derived columns are exactly the eleven derived names, eleven of them |
| TimeFeatures.DistinctElements | utils.py:53-63 | a sequence without repetitions has as many distinct elements as positions; this gives the count of eleven names |
| TimeFeatures.FeaturesAsAssignments | utils.py:53-63 | merging the derived columns into a table equals assigning them one after the other, in the order of utils.py:53-63 |
| TimeFeatures.ParseColumn | utils.py:51 | `pd.to_datetime` on a column succeeds exactly when every cell parses, and then yields each cell's timestamp in row order |
| TimeFeatures.StampColumn | utils.py:51 | the parsed timestamp column, one timestamp cell per row; ensures one cell per timestamp; StampsOfStampColumn states that it reads back as those timestamps |
| TimeFeatures.StampsOf | utils.py:53-62 | the `.dt` accessor succeeds exactly when every cell holds a timestamp (a check on the cells, not on the column's dtype), and then reads back the column |
| TimeFeatures.StampsOfStampColumn | utils.py:51-53 | reading the parsed column back gives the parsed timestamps |
| TimeFeatures.DayTimeFromHours | utils.py:62-63 | the `day_time` column cut from the `_hour` column is the bucket of each row's hour |
| TimeFeatures.DayTimeColumn | utils.py:63 | the `day_time` column `pd.cut` makes from an integer hour column, one optional label per row; ensures as many rows as the hour column; DayTimeFromHours states that each row is the bucket of that row's hour |
| TimeFeatures.YearMonthColumnIsDatePrefix | utils.py:56-57 | in every row the `_year_month` text is the first six characters of the eight-character `_date` text |
| TimeFeatures.Extracted | utils.py:51-63 | definition (no ensures): the table after a successful call, the old one with the parsed timestamp column and the eleven derived columns; its properties are in ExtractedKeys, ExtractedValues and ExtractedAddsEleven |
| TimeFeatures.ExtractedKeys | utils.py:51-63 | after the call the table has its old columns, the timestamp column and the eleven derived ones, and no other |
| TimeFeatures.ExtractedValues | utils.py:51-63 | after the call the timestamp column holds the parsed timestamps, each derived name its field, every other column its old value |
| TimeFeatures.ExtractedAddsEleven | utils.py:51-63 | on a table with none of the derived names, the call adds exactly eleven columns |
| TimeFeatures.Table.Assign | utils.py:51-63 | `data[name] = column` replaces or adds that one column, and keeps every column the same height |
| TimeFeatures.Table.Derive | utils.py:53-62 | one `.dt` assignment: fails and changes nothing unless the column it reads holds timestamps only; otherwise sets only the derived column k to field k of those timestamps |
| TimeFeatures.Table.AddDateFeatures | utils.py:53-57 | the `_year` to `_date` assignments, in order; with an unclashing timestamp column they set exactly those five columns |
| TimeFeatures.Table.AddWeekAndHourFeatures | utils.py:58-62 | the `_week` to `_hour` assignments, in order; with an unclashing timestamp column they set exactly those five columns |
| TimeFeatures.Table.AddFeatures | utils.py:53-63 | all eleven assignments: with an unclashing timestamp column the table becomes the old one merged with the eleven derived columns; columns with other names are never touched |
| TimeFeatures.Table.ExtractFromDate | utils.py:47-65 | missing column and parse failure are errors that change nothing; otherwise the same table is returned, holding the parsed column and the eleven derived columns, with every other column unchanged |

## Left out

- `load_data` (utils.py:15-27) reads CSV files; it is file I/O only.
- The plotting and annotation helpers are left out. They only draw through matplotlib and seaborn and hold no logic to state: `countplot`, `annotate_percentage`, `annotate_total`, `remove_chart_borders`, `annotate`, `line_plot_annotate`, `plot_circle` and `date_plot_categorical`. The last one also uses names the module never defines.
- The `colors` palette (utils.py:7-12) is constant data.
- `pd.to_datetime` is a parameter, and the calendar arithmetic of pandas is taken as given fields. The model does not derive the Gregorian calendar, the ISO week or the day of the week.
- Floating point is modelled by exact reals. Rounding, NaN and missing values inside `np.percentile` are not modelled.
- Iqr.GetIqr: an empty column is an `EmptyColumn` error value. numpy raises instead, with its own exception type and message.
- Iqr.GetIqr: the selections are row positions, not the filtered data frames with their index and other columns.
- The percentile is modelled only for p in [0, 100], the only values `get_iqr` uses (25 and 75).
- The order of a data frame's columns is not modelled, because the table is a map from name to column.
- TimeFeatures.Table.ExtractFromDate: when the timestamp column's name is one of the derived names, the model does not state the outcome. It states only that an `Err(NotDatetimeLike)` result implies such a clash, that columns with other names are untouched, and that the height is kept. The call can still succeed, for example when the column is named `suffix + "_hour"` or `suffix + "day_time"` (utils.py:62-63). Which derived columns hold what after a clash is not stated.
- TimeFeatures.StampsOf: the `.dt` check looks at the cell values, not at the column's dtype, so an empty column of any kind passes it. pandas decides by dtype: on a table with no rows whose timestamp column is named `suffix + "_year"`, the `_month` line (utils.py:54) raises because the new `_year` column is not datetime-like, while the model succeeds.
- TimeFeatures.ParseColumn: `pd.to_datetime` is modelled cell by cell, so a column parses exactly when each of its cells parses alone. From pandas 2.0 the format is inferred from the first non-missing value and applied to the whole column, so a column whose cells each parse alone can still fail; that is not modelled.
- TimeFeatures.Table.ExtractFromDate: missing values are not modelled. `pd.to_datetime` turns a missing cell into NaT and still succeeds, and every derived column then holds NaN or NaT in that row. In the model a cell is never missing, and `parse` either yields a timestamp or fails the whole call with `ParseError`.
- TimeFeatures.Table.ExtractFromDate: the `day_time` column is modelled as an optional label per row. pandas' categorical dtype and its list of categories are not modelled.

## Findings

| source | as written | input that shows it | evidently intended | confidence | as-written member | corrected member |
|---|---|---|---|---|---|---|
| utils.py:112 | the outlier mask is `(v < lower) & (v > upper)`, which no value meets once lower <= upper, i.e. for every k >= -1/2 | column 1, 2, ..., 9, 100 with k = 1.5: the fences are -3.5 and 14.5, and 100 is above the upper fence but is not reported | `(v < lower) OR (v > upper)`: the rows outside the fences | high; not executed | Iqr.MissedOutlierExample | Iqr.GetIqrCorrected |
