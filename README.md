# Autoregressive COVID-19 case forecasting, modelled in Dafny

The Flask back end (`backend/app.py`) answers a request for a country, a date and a number
of days with two things: a forecast of new cases from a one-step recurrent network, and a
trend label from a polynomial fit. This project models the bookkeeping around both, from
`backend/ML/utils.py`, `backend/ML/RNN.py` and `backend/ML/PolyReg.py`:

- it cuts the case series into windows;
- it shifts `YYYY-MM-DD` dates by days;
- it keeps a date-keyed sample table and looks rows up in it;
- it rolls the one-step model forward by appending every prediction as the newest value
  of the next day's window;
- it classifies the fitted curve as `upward`, `downward` or `not_changed`.

Modules:

- `Errors`. The failure kinds the Python code raises (`ValueError` of `strptime`,
  `OverflowError` of date arithmetic, numpy shape errors, the 422 abort), plus
  `Option` and `Result`.
- `Calendar`. The proleptic Gregorian calendar of Python's `datetime.date`, on years 1 to
  9999. `Ordinal` is `toordinal()`, using CPython's closed form for the days before a year.
  `Succ`, `Pred` and `Shift` add days and fail outside the calendar's range.
- `DateFormat`. `strptime` and `strftime` with `'%Y-%m-%d'`, which is the complete extended
  calendar-date form of ISO 8601:2004, section 4.1.2.2. It also holds `change_date`.
  - Parsing follows CPython's `_strptime` patterns: `%m` is `1[0-2]|0[1-9]|[1-9]` and
    `%d` is `3[01]|[12]\d|0[1-9]|[1-9]| [1-9]`, so `2020-4-1` and `2020-04- 1` are accepted.
  - `timedelta` refuses more than 999999999 days.
- `Windows`. `apply_lookback`, as a method with the source's loop.
- `Samples`.
  - The table rows `| date | x(t-k) | ... | x(t) |`.
  - `unite_dates_samples`, `get_sample`, and the row `append_sample` synthesises.
  - The upsert, meaning `np.vstack` or the masked overwrite.
  - The class `SampleTable`, whose `AppendSample` changes its `rows` in place, as the rollout
    loop reassigns `united_samples`.
- `Rnn`.
  - `RNN.__init__` as `NewRNN`.
  - `RNN.predict` as the method `Predict`. It builds the initial table, runs the loop
    `look_forward` times on a `SampleTable`, then dates the prediction.
  - The loop is specified by `RolloutFrom`, which is the same loop over the table as a value,
    step by step. Lemmas about it give:
    - the model's inputs (each window is the previous one shifted with the previous output
      appended);
    - the dates (the prediction is `look_forward - 1` days after the first day looked up);
    - the table's growth;
    - when the loop succeeds.
- `PolyReg`. `get_trend_pred`:
  - every date moves back one day;
  - rows pass the year/month filter, and the same mask is applied to dates and labels;
  - the points are the day numbers and labels of the rows kept;
  - the fitted curve is compared with Python slice semantics.

The Keras network is the function parameter `model` (a window to a value). The sklearn fit
is the function parameter `fit` (the points to a curve). The series values are an opaque
type `V`, and the trend values are `real`. `backend/app.py` passes the same
`look_forward_days` as the constructor's `look_forward` and as `get_trend_pred`'s
`look_back`. Since `RNN.__init__` sets `look_back = look_forward`, the trend looks back as
many points as the window is wide.

Facts of the code that a reader might not expect:

- `apply_lookback` on a series no longer than the window returns empty arrays. The failure
  comes later, in `predict`'s reshapes.
- `get_trend_pred` checks no minimum number of points. It fails only when none is left,
  since sklearn cannot fit an empty set.
- The month filter is `year >= 2020 and month >= 4`, so it also drops January to March of
  2021 and later years. It is not an "on or after April 2020" cutoff.
- The window width is the number of days asked for, and the loop runs one more step.

## Model

| member | source | states |
|---|---|---|
| `Calendar.OrdinalMonotone` | backend/ML/utils.py:208 | a date earlier in the calendar has a smaller day number (so the day number orders dates as `datetime` does) |
| `Calendar.OrdinalInjective` | backend/ML/utils.py:208 | two valid dates with the same day number are the same date |
| `Calendar.Ordinal` | backend/ML/PolyReg.py:55 | `toordinal()` of a valid date is between 1 (0001-01-01) and 3652059, the day number of 9999-12-31 |
| `Calendar.Succ` | backend/ML/utils.py:208 | the next day exists exactly below the last day number 3652059; it is a valid date one day number later; otherwise the result is the overflow error |
| `Calendar.Pred` | backend/ML/utils.py:208 | the previous day exists exactly above day number 1; it is a valid date one day number earlier; otherwise the result is the overflow error |
| `Calendar.Shift` | backend/ML/utils.py:208 | `date + timedelta(days=k)` succeeds exactly when the day number plus k stays in 1..3652059, and then it is the valid date with that day number; otherwise it is `OverflowError` |
| `Calendar.ShiftByOrdinal` | backend/ML/utils.py:208 | the shift by k is the date whose day number is k higher, whichever way it is reached |
| `Calendar.ShiftRoundTrip` | backend/ML/utils.py:208 | shifting by k and then by -k returns to the starting date |
| `Calendar.ShiftOneIsSuccessor` | backend/ML/utils.py:208 | a one-day shift is the calendar successor, including its failure after 9999-12-31 |
| `Calendar.SuccessorRollsOver` | backend/ML/utils.py:208 | the day advances within a month; the last day of a month rolls to day 1 of the next month; December 31 rolls to January 1 of the next year |
| `Calendar.LeapDays` | backend/ML/utils.py:208 | February 29 exists in 2020 and 2000 but not in 2021 or 1900; the day after 2020-02-28 is 02-29 and the day after 2021-02-28 is 03-01 |
| `DateFormat.NumberOfPad` | backend/ML/utils.py:209 | a number below 10^w written in w zero-padded digits reads back as that number |
| `DateFormat.Pad` | backend/ML/utils.py:209 | a zero-padded field of width w has exactly w characters, all digits |
| `DateFormat.PadOfNumber` | backend/ML/utils.py:206 | a digit string is the zero-padded form of its own value |
| `DateFormat.Parse` | backend/ML/utils.py:206 | `strptime(s, '%Y-%m-%d')` yields only valid dates; every failure is the format error |
| `DateFormat.Format` | backend/ML/utils.py:209 | `strftime(d, '%Y-%m-%d')` always writes the canonical shape: four digits, a dash, two digits, a dash, two digits |
| `DateFormat.FormatFields` | backend/ML/utils.py:209 | `strftime` writes ten characters in the canonical `YYYY-MM-DD` shape whose fields read back as the year, month and day |
| `DateFormat.ParseFormat` | backend/ML/utils.py:206-209 | parsing what `strftime` wrote gives back the same date |
| `DateFormat.FormatParse` | backend/ML/utils.py:206-209 | a canonical string that parses is exactly what `strftime` writes for its date |
| `DateFormat.FormatInjective` | backend/ML/utils.py:209 | distinct dates are written as distinct strings |
| `DateFormat.ChangeDate` | backend/ML/utils.py:194-211 | more than 999999999 days is `OverflowError` before anything is parsed; an unparsable date is the format error; otherwise the call succeeds exactly when the shifted day number stays in the calendar, and it returns a canonical string whose date is k days later |
| `DateFormat.ChangeDateZero` | backend/ML/utils.py:204-211 | `change_date(d, 0)` returns d in canonical spelling, and returns d itself when d is canonical |
| `DateFormat.ChangeDateOfFormat` | backend/ML/utils.py:204-211 | on a string `strftime` wrote, `change_date` is the calendar shift of its date, failing exactly when the shift does |
| `DateFormat.ChangeDateRoundTrip` | backend/ML/utils.py:204-211 | `change_date(change_date(d, k), -k) == d` for every canonical d for which the first call succeeds |
| `DateFormat.ChangeDateSuccessor` | backend/ML/utils.py:204-209 | `change_date(d, 1)` is the calendar successor of d's date, formatted, and it fails only where the successor does |
| `DateFormat.ParseAcceptsLenientFields` | backend/ML/utils.py:206 | `2020-04-01`, `2020-4-1` and `2020-04- 1` all parse to April 1, 2020 |
| `DateFormat.ParseRefusesMissingDays` | backend/ML/utils.py:206 | 2020-02-30, 2021-02-29 and year 0 are refused |
| `DateFormat.ParseRefusesMalformed` | backend/ML/utils.py:206 | month 13, a two-digit year and trailing text are refused |
| `DateFormat.FormatExample` | backend/ML/utils.py:209 | April 1, 2020 is written `2020-04-01` |
| `DateFormat.ChangeDateCanonicalizes` | backend/ML/utils.py:204-211 | `change_date('2020-4-1', 0)` is `'2020-04-01'` |
| `Windows.ApplyLookback` | backend/ML/utils.py:150-156 | `max(0, N - look_back)` windows and as many labels, never failing; window i is `dataset[i .. i+look_back)` and label i is `dataset[i+look_back]`; each window is the previous one shifted by one with the previous label appended |
| `Samples.FirstIndex` | backend/ML/utils.py:273 | the position of the first row keyed by the date: it has that date and no earlier row does |
| `Samples.Matching` | backend/ML/utils.py:268 | the mask `array[:, 0] == d` selects no more rows than the table has, and every row it selects has date d |
| `Samples.MatchingSpec` | backend/ML/utils.py:268-273 | the mask `array[:, 0] == d` selects no row exactly when no row has date d; otherwise its first row is the first row keyed by d |
| `Samples.MatchingUnique` | backend/ML/utils.py:268-273 | with distinct dates a present date selects exactly one row |
| `Samples.UniteDatesSamples` | backend/ML/utils.py:174-191 | `np.hstack` succeeds exactly when the date and window arrays have the same number of rows; the result's date column is the dates and its window columns are the windows |
| `Samples.GetSample` | backend/ML/utils.py:253-278 | on a present date: the first matching row's window, with `day_taken` the requested date; on a missing date: the last row's window and date; on an empty table: an error; the day taken is always a date of the table |
| `Samples.NextSample` | backend/ML/utils.py:235-242 | the new row is keyed `change_date(requested_day, 1)`, has `look_back` values and ends with the prediction; it is the requested row's window without its oldest value with the prediction appended; for `look_back >= 2` the reshape succeeds only when exactly one row matches |
| `Samples.NextSampleOutcome` | backend/ML/utils.py:235-242 | the date errors propagate; a window width of 0 fails; for `look_back >= 2` a requested day missing from the table fails; a present day in a table with distinct dates succeeds |
| `Samples.NextSampleExtendsLookup` | backend/ML/utils.py:240-242 | the row synthesised for the day `get_sample` took is that lookup's window shifted by one with the prediction appended, also when the lookup fell back to the last row |
| `Samples.MatchingOneIndex` | backend/ML/utils.py:240 | when the mask selects one row, no other row carries its date |
| `Samples.Overwrite` | backend/ML/utils.py:248 | masked assignment: the same number of rows, every row with the new row's date replaced by it, and every other row kept |
| `Samples.Upsert` | backend/ML/utils.py:245-248 | after storing, the table has the new date, grew by at most one row, and kept every row with another date |
| `Samples.UpsertShape` | backend/ML/utils.py:245-248 | an absent date appends exactly one row at the end; a present date keeps the row count and replaces exactly the rows keyed by it |
| `Samples.UpsertThenGet` | backend/ML/utils.py:245-278 | after the upsert, `get_sample` of the new date returns the stored window and that date |
| `Samples.UpsertIdempotent` | backend/ML/utils.py:245-248 | storing the same row twice leaves the table as storing it once |
| `Samples.UpsertKeepsInvariants` | backend/ML/utils.py:245-248 | the upsert keeps the table's width and keeps its dates distinct |
| `Samples.NextDateDiffers` | backend/ML/utils.py:236 | the next date is never the requested day itself |
| `Samples.RepeatNextSample` | backend/ML/utils.py:235-248 | a repeated `append_sample` with the same arguments synthesises the same row and leaves the table unchanged |
| `Samples.SampleTable.AppendSample` | backend/ML/utils.py:214-250 | with a failing date or reshape, the error is returned and the table is unchanged; otherwise it returns the next date and the table becomes the upsert of the synthesised row |
| `Rnn.NewRNN` | backend/ML/RNN.py:12-20 | an empty country code aborts; otherwise `look_back` is the requested `look_forward` and the loop count is one more |
| `Rnn.InitialTable` | backend/ML/RNN.py:54-64 | the table has `N - look_back` rows; row i holds `values[i .. i+look_back)` and is keyed by `dates[i+look_back]`, the date of the label that follows it |
| `Rnn.BuildTable` | backend/ML/RNN.py:54-64 | a width below 1 or a series no longer than the width fails; otherwise it succeeds exactly when dates and values have the same length, and the result is the initial table |
| `Rnn.Advance` | backend/ML/RNN.py:70-77 | one pass fails on an empty table; a successful pass keeps the table's width and grows it by at most one row |
| `Rnn.AdvanceStep` | backend/ML/RNN.py:70-77 | the window looked up goes to the model; the day returned is the day after the one taken; the next lookup hits the stored row, which is the input shifted with the output appended; distinct dates stay distinct |
| `Rnn.AdvanceSucceeds` | backend/ML/RNN.py:70-77 | on a non-empty table with distinct dates, a pass fails exactly when the day after the one taken cannot be computed |
| `Rnn.AdvanceLaws` | backend/ML/RNN.py:70-77 | the pass obeys the step laws used by the rollout lemmas: the lookups, the day advance, the table shape, and progress without a date overflow |
| `Rnn.RolloutFrom` | backend/ML/RNN.py:69-77 | zero passes leave the table, the day and the last output as they were |
| `Rnn.Inputs` | backend/ML/RNN.py:73 | the model is called at most once per pass |
| `Rnn.RolloutInputs` | backend/ML/RNN.py:69-77 | n successful passes call the model n times: first on the window looked up for the requested day, then each time on the previous window shifted by one with the previous output appended; the output kept is the model's value on the last window |
| `Rnn.RolloutDates` | backend/ML/RNN.py:69-77 | after n passes the bookkeeping day is n days after the day the first lookup took, even when that lookup fell back to the last row |
| `Rnn.RolloutGrowth` | backend/ML/RNN.py:69-77 | after n passes the table keeps its width and has between its initial row count and that count plus n rows |
| `Rnn.RolloutSucceeds` | backend/ML/RNN.py:69-77 | on a table with distinct dates and a width of at least 1, every pass succeeds unless the date would overflow |
| `Rnn.RolloutOnce` | backend/ML/RNN.py:70-77 | one pass on the table object returns the next day and the output, and leaves the table as the pass on values does |
| `Rnn.Rollout` | backend/ML/RNN.py:69-77 | the loop on the table object fails with the rollout's error or ends with its last day, last output and table |
| `Rnn.FinalDates` | backend/ML/RNN.py:79-84 | the prediction date is the day before the loop's last day and the starting date `look_back` days before that, both canonical; this succeeds whenever both are in the calendar |
| `Rnn.FinalDatesStart` | backend/ML/RNN.py:79-84 | when the loop ran `look_back + 1` passes, the starting date is the day the first lookup took, spelled canonically |
| `Rnn.RolloutForecast` | backend/ML/RNN.py:66-96 | a rollout that ended with an output, dated by the two `change_date` calls, is a forecast as `ForecastOf` describes it |
| `Rnn.PredictFromTable` | backend/ML/RNN.py:66-96 | a result is the forecast of the table: the chain of model inputs, the prediction `look_forward - 1` days after the day first taken, the starting date `look_back` days before it, and the rolled-out table; with distinct dates and no date overflow it succeeds |
| `Rnn.Predict` | backend/ML/RNN.py:25-96 | inputs without a table to build fail; otherwise the result is the forecast of the initial table, whose starting date is the day the first lookup took when `look_forward == look_back + 1`, as `NewRNN` sets it; with distinct dates and no overflow it succeeds |
| `PolyReg.Labels` | backend/ML/PolyReg.py:38 | the labels are the last column of every row, in order |
| `PolyReg.MapAll` | backend/ML/PolyReg.py:42-43 | draining the generator succeeds with one result per element in order, or fails with the error of the first element that fails |
| `PolyReg.ShiftBack` | backend/ML/PolyReg.py:40-43 | every date goes through `change_date(date, -1)` in order; the first failure is the result |
| `PolyReg.ShiftBackDates` | backend/ML/PolyReg.py:40-43 | every moved date is canonical and one day before the date it came from |
| `PolyReg.AfterOnset` | backend/ML/PolyReg.py:46 | on a date, the filter condition holds exactly when its year is at least 2020 and its month at least April, in any year |
| `PolyReg.AfterOnsetExamples` | backend/ML/PolyReg.py:46-47 | 2020-04-01 passes; 2020-03-31 and 2021-01-15 do not |
| `PolyReg.Mask` | backend/ML/PolyReg.py:46-47 | one flag per date, true exactly for the dates the filter keeps |
| `PolyReg.Keep` | backend/ML/PolyReg.py:48-51 | `xs[mask]` is no longer than xs; an all-true mask keeps everything and an all-false mask nothing |
| `PolyReg.KeptIndicesInRange` | backend/ML/PolyReg.py:48-51 | every position boolean indexing keeps has a true flag |
| `PolyReg.KeptIndicesIncreasing` | backend/ML/PolyReg.py:48-51 | boolean indexing keeps positions in increasing order |
| `PolyReg.KeptIndicesComplete` | backend/ML/PolyReg.py:48-51 | every position with a true flag is kept |
| `PolyReg.KeptIndicesSpec` | backend/ML/PolyReg.py:48-51 | the kept positions are exactly the true ones, in strictly increasing order |
| `PolyReg.KeepAtIndices` | backend/ML/PolyReg.py:48-51 | `xs[mask]` is the elements of xs at the kept positions, in order |
| `PolyReg.MaskAligns` | backend/ML/PolyReg.py:48-51 | the one mask applied to dates and to labels gives sequences of equal length whose pairs are the masked pairs |
| `PolyReg.DayNumbers` | backend/ML/PolyReg.py:54-57 | one `toordinal(strptime(date))` per kept date |
| `PolyReg.Points` | backend/ML/PolyReg.py:37-57 | a failing date shift is the result; otherwise there are as many day numbers as labels |
| `PolyReg.PointsSpec` | backend/ML/PolyReg.py:37-57 | point k comes from the k-th row, in table order, whose moved date passes the filter: x is that moved date's day number (the row's date minus one day) and y is the row's label; every such row gives a point |
| `PolyReg.SliceBound` | backend/ML/PolyReg.py:71-72 | a slice bound is clamped to the sequence length |
| `PolyReg.PySlice` | backend/ML/PolyReg.py:71-72 | numpy slicing: never longer than the array; non-negative bounds are an ordinary slice; negative bounds count from the end; a start at or past the end of the same sign is empty |
| `PolyReg.BehindIndex` | backend/ML/PolyReg.py:72 | the index `trend[-look_back-1:-look_back]` selects is inside the trend |
| `PolyReg.Classify` | backend/ML/PolyReg.py:71-79 | with a width of 0, or with no more points than the width, there is no earlier value to compare and the result is `not_changed` |
| `PolyReg.ClassifySpec` | backend/ML/PolyReg.py:71-79 | `upward` exactly when the last value is greater than the value `look_back` places before it; `downward` exactly when smaller; `not_changed` when equal or when no such value exists |
| `PolyReg.MonotoneTrend` | backend/ML/PolyReg.py:71-79 | a strictly rising curve with at least `look_back + 1` points is `upward`, a strictly falling one `downward`, and a flat one `not_changed` |
| `PolyReg.CurveAt` | backend/ML/PolyReg.py:68-69 | the trend is the fitted curve at each point's day number |
| `PolyReg.GetTrendPred` | backend/ML/PolyReg.py:12-79 | a failing date shift is the result; no point left after the filter fails the fit; otherwise the trend is the classification of the fitted curve at the points |
| `PolyReg.NoPointsBeforeOnset` | backend/ML/PolyReg.py:45-65 | the fit fails exactly when no moved date passes the filter |
| `PolyReg.RisingCurveIsUpward` | backend/ML/PolyReg.py:45-79 | with the table's dates increasing, a fitted curve rising with the day number and at least `look_back + 1` points kept, the trend is `upward` |

## Left out

- `normalize`/`denormalize` (`backend/ML/utils.py:97-120`) are a global sklearn `MinMaxScaler` working on floats. The series is given already normalised. The model's output is reported before `denormalize` and the `int()` cast (`backend/ML/RNN.py:87-88`).
- `load_data`, `preprocess`, `filter_by_country` and `separate` are pandas CSV I/O, so the dates and values are parameters of `Predict`. `reshape` only changes numpy shapes, so it is left out too.
- The Keras model loaded from `models/<country>-RNN.h5` is a total function parameter. A model that raises, a missing file, and the `float32` cast are not modelled.
- The `PolynomialFeatures(degree=4)` and `LinearRegression` fit is the function parameter `fit`. The model does not say which curve a least-squares fit gives, nor how sklearn behaves on one or two points. It says only that an empty point set fails.
- `backend/app.py` (Flask routes) and `backend/test.py` are left out, and so are the Bokeh charts, `Covid_19_Project/script.py` and `frontend/static/js/world.js`.
- `DateFormat.Parse` does not model strptime's acceptance of non-ASCII Unicode digits.
- `DateFormat.Format` pads the year to four digits, as current CPython does; some older platforms write years below 1000 unpadded.
- `np.fromiter(..., features.dtype)` stores the moved dates and day numbers in a fixed-width string dtype. The model does not capture truncation by that width, on the assumption that the width is at least the ten characters of a date.
- `PolyReg.Classify` follows numpy before 2.2 when `behind` is empty: the truth value of an empty comparison is false, so the result is `not_changed`. numpy 2.2 and later raise there instead.
- `PolyReg.GetTrendPred` requires every row to have at least one value column. A table of width one would make the date column its own label, and a string label cannot be fitted.
- `Rnn.PredictFromTable` returns an error when the loop never ran (`look_forward <= 0`). The source would pass the placeholder `0` to `denormalize`, which sklearn refuses because it is not a 2-D array.
- Trend values are `real` and series values an opaque type; floating-point rounding, NaN and the string conversion of numpy's mixed arrays are not modelled.
- `Samples.SampleTable` is the only object with state. `RNN` sets its fields once, so it is a value; aliasing of numpy arrays between the caller and `predict` is not modelled.
- `Calendar.Shift` with a large k is a k-step recursion. No law adding two consecutive shifts is stated; `ShiftByOrdinal` characterises every shift by its day number.
