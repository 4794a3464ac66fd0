/** `backend/ML/RNN.py`: the one-step model rolled forward over the sample table. */
module Rnn {
  import opened Errors
  import opened Calendar
  import opened DateFormat
  import opened Windows
  import opened Samples

  /** The fields `RNN.__init__` sets once; the Keras model loaded from
      `models/<country>-RNN.h5` is the function `model` from a window to a value. */
  datatype RNN<!V> = RNN(countryCode: string, lookBack: int, lookForward: int, model: seq<V> -> V)

  /** What `predict` reports, before the value is denormalised. */
  datatype PredictionInfo<V> = PredictionInfo(predictionDate: string, startingDate: string, predictionNewCases: V)

  /** `predict` returns the report and the extended table. */
  datatype Forecast<V> = Forecast(info: PredictionInfo<V>, samples: seq<Row<V>>)

  /** `RNN(country_code, look_forward)`: an empty country code aborts with 422; otherwise
      the window width is the requested number of days and the loop runs one step more,
      because the requested day is predicted too. */
  function NewRNN<V>(countryCode: string, lookForward: int, model: seq<V> -> V): (r: Result<RNN<V>>)
    ensures r.Err? <==> countryCode == ""
    ensures r.Err? ==> r.error == MissingCountry
    ensures r.Ok? ==> r.value.countryCode == countryCode && r.value.lookBack == lookForward
                      && r.value.lookForward == r.value.lookBack + 1
  {
    if countryCode == "" then Err(MissingCountry)
    else Ok(RNN(countryCode, lookForward, lookForward + 1, model))
  }

  /** The table `predict` starts from: row i holds window `values[i .. i + lookBack)` and is
      keyed by `dates[i + lookBack]`, the date of the label that follows the window. */
  ghost function InitialTable<V>(dates: seq<string>, values: seq<V>, lookBack: nat): (rows: seq<Row<V>>)
    requires |dates| == |values|
    ensures |rows| == WindowCount(|values|, lookBack)
    ensures forall i :: 0 <= i < |rows| ==> rows[i] == Row(dates[i + lookBack], values[i..i + lookBack])
  {
    seq(WindowCount(|values|, lookBack), i requires 0 <= i < WindowCount(|values|, lookBack) =>
      Row(dates[i + lookBack], values[i..i + lookBack]))
  }

  /** The inputs with which `predict` gets past building its table. */
  predicate Buildable<V>(rnn: RNN<V>, dates: seq<string>, values: seq<V>) {
    rnn.lookBack >= 1 && |values| > rnn.lookBack && |dates| == |values|
  }

  /** The lookup of the requested day in the initial table: the requested row, or the
      last row when the day is not in the table. */
  ghost function FirstLookup<V>(rnn: RNN<V>, dates: seq<string>, values: seq<V>, requestedDay: string): Sample<V>
    requires Buildable(rnn, dates, values)
  {
    GetSample(InitialTable(dates, values, rnn.lookBack), requestedDay).value
  }

  /** One pass of the loop of `predict` (lines 70-77) on the table as a value: what was
      looked up and passed to the model, what the model returned, the table after
      `append_sample` and the day it returned. */
  datatype Stepped<V> = Stepped(input: seq<V>, output: V, rows: seq<Row<V>>, next: string)

  /** One pass of the loop: look up `day`, call the model on the window found and store
      the window of the day after the one taken. What it promises is stated by
      `AdvanceStep` and `AdvanceSucceeds`. */
  function Advance<V>(rows: seq<Row<V>>, model: seq<V> -> V, lookBack: nat, day: string): (r: Result<Stepped<V>>)
    requires WidthIs(rows, lookBack)
    ensures rows == [] ==> r == Err(EmptyTable)
    ensures r.Ok? ==> WidthIs(r.value.rows, lookBack) && |rows| <= |r.value.rows| <= |rows| + 1
  {
    var smp := GetSample(rows, day);
    if smp.Err? then Err(smp.error)
    else
      var p := model(smp.value.window);
      var next := NextSample(rows, p, lookBack, smp.value.dayTaken);
      if next.Err? then Err(next.error)
      else
        UpsertKeepsInvariants(rows, next.value, lookBack);
        Ok(Stepped(smp.value.window, p, Upsert(rows, next.value), next.value.date))
  }

  /** A pass passes the looked-up window to the model and stores it, shifted by one with
      the output appended, under the next day, so that the next lookup hits that row. */
  lemma AdvanceStep<V>(rows: seq<Row<V>>, model: seq<V> -> V, lookBack: nat, day: string)
    requires WidthIs(rows, lookBack)
    requires Advance(rows, model, lookBack, day).Ok?
    ensures var st := Advance(rows, model, lookBack, day).value;
            var taken := GetSample(rows, day).value;
            st.input == taken.window && st.output == model(st.input)
            && |st.input| == lookBack && lookBack >= 1
            && ChangeDate(taken.dayTaken, 1) == Ok(st.next)
            && GetSample(st.rows, st.next) == Ok(Sample(st.input[1..] + [st.output], st.next))
            && (DistinctDates(rows) ==> DistinctDates(st.rows))
  {
    var smp := GetSample(rows, day).value;
    var p := model(smp.window);
    var next := NextSample(rows, p, lookBack, smp.dayTaken).value;
    NextSampleExtendsLookup(rows, p, lookBack, day);
    UpsertKeepsInvariants(rows, next, lookBack);
    UpsertThenGet(rows, next);
  }

  /** A pass over a non-empty table with distinct dates and windows of at least one value
      fails only when the next date overflows or does not parse. */
  lemma AdvanceSucceeds<V>(rows: seq<Row<V>>, model: seq<V> -> V, lookBack: nat, day: string)
    requires WidthIs(rows, lookBack) && rows != [] && lookBack >= 1 && DistinctDates(rows)
    ensures Advance(rows, model, lookBack, day).Ok? <==> ChangeDate(GetSample(rows, day).value.dayTaken, 1).Ok?
  {
    var smp := GetSample(rows, day).value;
    NextSampleOutcome(rows, model(smp.window), lookBack, smp.dayTaken);
  }

  /** The pass as a function value; a table of another width cannot arise from a numpy
      array of `lookBack + 1` columns. */
  function StepOf<V>(model: seq<V> -> V, lookBack: nat): (seq<Row<V>>, string) -> Result<Stepped<V>>
  {
    (rows: seq<Row<V>>, day: string) =>
      if WidthIs(rows, lookBack) then Advance(rows, model, lookBack, day) else Err(ShapeMismatch)
  }

  /** `step(rows, day)`, written so in the places where the laws below are to be used:
      the laws are triggered by this name only, which keeps each proof to one pass. */
  ghost function StepAt<V>(step: (seq<Row<V>>, string) -> Result<Stepped<V>>, rows: seq<Row<V>>, day: string): Result<Stepped<V>> {
    step(rows, day)
  }

  /** `step` is the pass of `predict`. */
  ghost predicate StepIs<V(!new)>(step: (seq<Row<V>>, string) -> Result<Stepped<V>>, model: seq<V> -> V, lookBack: nat) {
    forall rows, day {:trigger StepAt(step, rows, day)} ::
      WidthIs(rows, lookBack) ==> StepAt(step, rows, day) == Advance(rows, model, lookBack, day)
  }

  lemma StepOfIs<V(!new)>(model: seq<V> -> V, lookBack: nat)
    ensures StepIs(StepOf(model, lookBack), model, lookBack)
  {
  }

  /** What one pass `st` from `rows` and `day` promises about the lookups: the window
      looked up went to the model, and the next lookup hits the row stored for the day
      the pass returned. */
  ghost predicate OneStep<V>(rows: seq<Row<V>>, model: seq<V> -> V, lookBack: nat, day: string, st: Stepped<V>) {
    rows != []
    && var taken := GetSample(rows, day).value;
    st.input == taken.window && st.output == model(st.input) && |st.input| == lookBack && lookBack >= 1
    && GetSample(st.rows, st.next) == Ok(Sample(st.input[1..] + [st.output], st.next))
  }

  /** What one pass promises about the calendar: the day it returns is the day after the
      one its lookup took. */
  ghost predicate DayStep<V>(rows: seq<Row<V>>, day: string, st: Stepped<V>) {
    rows != []
    && var taken := GetSample(rows, day).value;
    Parse(taken.dayTaken).Ok? && Parse(st.next).Ok?
    && Ordinal(Parse(st.next).value) == Ordinal(Parse(taken.dayTaken).value) + 1
  }

  /** What one pass promises about the table: it keeps its width and its distinct dates
      and grows by at most one row. */
  ghost predicate StepShape<V>(rows: seq<Row<V>>, lookBack: nat, st: Stepped<V>) {
    WidthIs(st.rows, lookBack) && |rows| <= |st.rows| <= |rows| + 1
    && (DistinctDates(rows) ==> DistinctDates(st.rows))
  }

  /** Every successful pass is a `OneStep`. */
  ghost predicate LookupLaw<V(!new)>(step: (seq<Row<V>>, string) -> Result<Stepped<V>>, model: seq<V> -> V, lookBack: nat) {
    forall rows, day {:trigger StepAt(step, rows, day)} :: WidthIs(rows, lookBack) && StepAt(step, rows, day).Ok? ==>
      OneStep(rows, model, lookBack, day, StepAt(step, rows, day).value)
  }

  /** Every successful pass is a `DayStep`. */
  ghost predicate DayLaw<V(!new)>(step: (seq<Row<V>>, string) -> Result<Stepped<V>>, lookBack: nat) {
    forall rows, day {:trigger StepAt(step, rows, day)} :: WidthIs(rows, lookBack) && StepAt(step, rows, day).Ok? ==>
      DayStep(rows, day, StepAt(step, rows, day).value)
  }

  /** Every successful pass keeps the shape of the table. */
  ghost predicate ShapeLaw<V(!new)>(step: (seq<Row<V>>, string) -> Result<Stepped<V>>, lookBack: nat) {
    forall rows, day {:trigger StepAt(step, rows, day)} :: WidthIs(rows, lookBack) && StepAt(step, rows, day).Ok? ==>
      StepShape(rows, lookBack, StepAt(step, rows, day).value)
  }

  /** A pass over a table with distinct dates succeeds unless the next date overflows. */
  ghost predicate ProgressLaw<V(!new)>(step: (seq<Row<V>>, string) -> Result<Stepped<V>>, lookBack: nat) {
    forall rows, day {:trigger StepAt(step, rows, day)} ::
      WidthIs(rows, lookBack) && rows != [] && lookBack >= 1 && DistinctDates(rows)
      && Parse(GetSample(rows, day).value.dayTaken).Ok?
      && Ordinal(Parse(GetSample(rows, day).value.dayTaken).value) < MaxOrdinal
      ==> StepAt(step, rows, day).Ok?
  }

  /** The pass of `predict` obeys the laws. */
  lemma AdvanceLaws<V(!new)>(step: (seq<Row<V>>, string) -> Result<Stepped<V>>, model: seq<V> -> V, lookBack: nat)
    requires StepIs(step, model, lookBack)
    ensures LookupLaw(step, model, lookBack)
    ensures DayLaw(step, lookBack)
    ensures ShapeLaw(step, lookBack)
    ensures ProgressLaw(step, lookBack)
  {
    forall rows, day | WidthIs(rows, lookBack) && StepAt(step, rows, day).Ok?
      ensures OneStep(rows, model, lookBack, day, StepAt(step, rows, day).value)
      ensures DayStep(rows, day, StepAt(step, rows, day).value)
      ensures StepShape(rows, lookBack, StepAt(step, rows, day).value)
    {
      AdvanceStep(rows, model, lookBack, day);
    }
    forall rows, day | WidthIs(rows, lookBack) && rows != [] && lookBack >= 1 && DistinctDates(rows)
                       && Parse(GetSample(rows, day).value.dayTaken).Ok?
                       && Ordinal(Parse(GetSample(rows, day).value.dayTaken).value) < MaxOrdinal
      ensures StepAt(step, rows, day).Ok?
    {
      AdvanceSucceeds(rows, model, lookBack, day);
    }
  }

  /** Where the rollout ends: the table, the last day returned and the last output. */
  datatype Rolled<V> = Rolled(rows: seq<Row<V>>, lastDay: string, predicted: Option<V>)

  /** `n` passes of `step`, starting from `day`; `predicted` is the output so far. */
  function RolloutFrom<V>(step: (seq<Row<V>>, string) -> Result<Stepped<V>>, rows: seq<Row<V>>, n: int,
                          day: string, predicted: Option<V>): (r: Result<Rolled<V>>)
    ensures n <= 0 ==> r == Ok(Rolled(rows, day, predicted))
    decreases n
  {
    if n <= 0 then Ok(Rolled(rows, day, predicted))
    else
      var st := step(rows, day);
      if st.Err? then Err(st.error)
      else RolloutFrom(step, st.value.rows, n - 1, st.value.next, Some(st.value.output))
  }

  /** The windows passed to the model during `n` passes, in order. */
  function Inputs<V>(step: (seq<Row<V>>, string) -> Result<Stepped<V>>, rows: seq<Row<V>>, n: int,
                     day: string): (ws: seq<seq<V>>)
    ensures |ws| <= (if n < 0 then 0 else n)
    decreases n
  {
    if n <= 0 then []
    else
      var st := step(rows, day);
      if st.Err? then []
      else [st.value.input] + Inputs(step, st.value.rows, n - 1, st.value.next)
  }

  /** A successful rollout of n >= 1 passes calls the model n times: first on the window
      looked up for `day`, then each time on the previous window shifted by one with the
      previous output appended; the output kept is the model's value on the last window. */
  lemma {:induction false} RolloutInputs<V(!new)>(step: (seq<Row<V>>, string) -> Result<Stepped<V>>, model: seq<V> -> V,
                                          lookBack: nat, rows: seq<Row<V>>, n: int, day: string, predicted: Option<V>)
    requires LookupLaw(step, model, lookBack) && ShapeLaw(step, lookBack) && WidthIs(rows, lookBack)
    requires n >= 1 && RolloutFrom(step, rows, n, day, predicted).Ok?
    ensures var ws := Inputs(step, rows, n, day);
            rows != [] && lookBack >= 1
            && |ws| == n
            && ws[0] == GetSample(rows, day).value.window
            && (forall k :: 0 <= k < n ==> |ws[k]| == lookBack)
            && (forall k :: 0 <= k < n - 1 ==> ws[k + 1] == ws[k][1..] + [model(ws[k])])
            && RolloutFrom(step, rows, n, day, predicted).value.predicted == Some(model(ws[n - 1]))
    decreases n
  {
    var st := StepAt(step, rows, day).value;
    assert OneStep(rows, model, lookBack, day, st) && StepShape(rows, lookBack, st);
    var rest := Inputs(step, st.rows, n - 1, st.next);
    var ws := Inputs(step, rows, n, day);
    assert ws == [st.input] + rest;
    assert RolloutFrom(step, rows, n, day, predicted)
        == RolloutFrom(step, st.rows, n - 1, st.next, Some(st.output));
    if n > 1 {
      RolloutInputs(step, model, lookBack, st.rows, n - 1, st.next, Some(st.output));
      assert rest[0] == st.input[1..] + [model(st.input)];
      assert forall k :: 0 < k < n ==> ws[k] == rest[k - 1];
    }
  }

  /** A successful rollout of n >= 1 passes ends n days after the day its first lookup took. */
  lemma {:induction false} RolloutDates<V(!new)>(step: (seq<Row<V>>, string) -> Result<Stepped<V>>, model: seq<V> -> V,
                                         lookBack: nat, rows: seq<Row<V>>, n: int, day: string, predicted: Option<V>)
    requires LookupLaw(step, model, lookBack) && DayLaw(step, lookBack) && ShapeLaw(step, lookBack) && WidthIs(rows, lookBack)
    requires n >= 1 && RolloutFrom(step, rows, n, day, predicted).Ok?
    ensures rows != []
    ensures var s := Parse(GetSample(rows, day).value.dayTaken);
            var t := Parse(RolloutFrom(step, rows, n, day, predicted).value.lastDay);
            s.Ok? && t.Ok? && Ordinal(t.value) == Ordinal(s.value) + n
    decreases n
  {
    var st := StepAt(step, rows, day).value;
    assert OneStep(rows, model, lookBack, day, st) && DayStep(rows, day, st) && StepShape(rows, lookBack, st);
    assert RolloutFrom(step, rows, n, day, predicted)
        == RolloutFrom(step, st.rows, n - 1, st.next, Some(st.output));
    if n > 1 {
      assert GetSample(st.rows, st.next).value.dayTaken == st.next;
      RolloutDates(step, model, lookBack, st.rows, n - 1, st.next, Some(st.output));
    }
  }

  /** The table keeps its width and grows by at most one row per pass. */
  lemma {:induction false} RolloutGrowth<V(!new)>(step: (seq<Row<V>>, string) -> Result<Stepped<V>>, model: seq<V> -> V,
                                          lookBack: nat, rows: seq<Row<V>>, n: int, day: string, predicted: Option<V>)
    requires ShapeLaw(step, lookBack) && WidthIs(rows, lookBack)
    requires RolloutFrom(step, rows, n, day, predicted).Ok?
    ensures var r := RolloutFrom(step, rows, n, day, predicted).value.rows;
            WidthIs(r, lookBack) && |rows| <= |r| <= |rows| + (if n < 0 then 0 else n)
    decreases n
  {
    if n > 0 {
      var st := StepAt(step, rows, day).value;
      assert StepShape(rows, lookBack, st);
      assert RolloutFrom(step, rows, n, day, predicted) == RolloutFrom(step, st.rows, n - 1, st.next, Some(st.output));
      RolloutGrowth(step, model, lookBack, st.rows, n - 1, st.next, Some(st.output));
    }
  }

  /** With distinct dates, windows of at least one value and no date overflow, every pass
      of the rollout succeeds. */
  lemma {:induction false} RolloutSucceeds<V(!new)>(step: (seq<Row<V>>, string) -> Result<Stepped<V>>, model: seq<V> -> V,
                                            lookBack: nat, rows: seq<Row<V>>, n: int, day: string, predicted: Option<V>)
    requires LookupLaw(step, model, lookBack) && DayLaw(step, lookBack) && ShapeLaw(step, lookBack)
    requires ProgressLaw(step, lookBack)
    requires WidthIs(rows, lookBack) && lookBack >= 1 && rows != [] && DistinctDates(rows)
    requires Parse(GetSample(rows, day).value.dayTaken).Ok?
    requires Ordinal(Parse(GetSample(rows, day).value.dayTaken).value) + n <= MaxOrdinal
    ensures RolloutFrom(step, rows, n, day, predicted).Ok?
    decreases n
  {
    if n > 0 {
      assert StepAt(step, rows, day).Ok?;
      var st := StepAt(step, rows, day).value;
      assert OneStep(rows, model, lookBack, day, st) && DayStep(rows, day, st) && StepShape(rows, lookBack, st);
      assert RolloutFrom(step, rows, n, day, predicted)
          == RolloutFrom(step, st.rows, n - 1, st.next, Some(st.output));
      if n > 1 {
        assert GetSample(st.rows, st.next).value.dayTaken == st.next;
        RolloutSucceeds(step, model, lookBack, st.rows, n - 1, st.next, Some(st.output));
      }
    }
  }

  /** One pass of the loop on the table object. */
  method RolloutOnce<V(!new)>(table: SampleTable<V>, model: seq<V> -> V, lookBack: nat, day: string,
                              ghost step: (seq<Row<V>>, string) -> Result<Stepped<V>>)
    returns (r: Result<(string, V)>)
    requires WidthIs(table.rows, lookBack) && StepIs(step, model, lookBack)
    modifies table
    ensures WidthIs(table.rows, lookBack)
    ensures var st := step(old(table.rows), day);
            (st.Err? ==> r == Err(st.error))
            && (st.Ok? ==> r == Ok((st.value.next, st.value.output)) && table.rows == st.value.rows)
  {
    assert StepAt(step, table.rows, day) == Advance(table.rows, model, lookBack, day);
    var sample := GetSample(table.rows, day);
    if sample.Err? {
      return Err(sample.error);
    }
    var p := model(sample.value.window);
    var next := table.AppendSample(p, lookBack, sample.value.dayTaken);
    if next.Err? {
      return Err(next.error);
    }
    r := Ok((next.value, p));
  }

  /** The loop of `predict` (lines 69-77) on the table object: `steps` passes, starting
      from `day`. It ends with the day after the last predicted one and the last output. */
  method Rollout<V(!new)>(table: SampleTable<V>, model: seq<V> -> V, lookBack: nat, steps: int, day: string,
                          ghost step: (seq<Row<V>>, string) -> Result<Stepped<V>>)
    returns (r: Result<(string, Option<V>)>)
    requires WidthIs(table.rows, lookBack) && StepIs(step, model, lookBack)
    modifies table
    ensures var spec := RolloutFrom(step, old(table.rows), steps, day, None);
            (spec.Err? ==> r == Err(spec.error))
            && (spec.Ok? ==> r == Ok((spec.value.lastDay, spec.value.predicted)) && table.rows == spec.value.rows)
  {
    ghost var spec := RolloutFrom(step, table.rows, steps, day, None);
    var lastDay := day;
    var predicted: Option<V> := None;
    var done := 0;
    while done < steps
      invariant 0 <= done && (done <= steps || done == 0)
      invariant WidthIs(table.rows, lookBack)
      invariant RolloutFrom(step, table.rows, steps - done, lastDay, predicted) == spec
    {
      var next := RolloutOnce(table, model, lookBack, lastDay, step);
      if next.Err? {
        return Err(next.error);
      }
      lastDay := next.value.0;
      predicted := Some(next.value.1);
      done := done + 1;
    }
    r := Ok((lastDay, predicted));
  }

  /** Lines 54-64 of `predict`: the windows of `lookBack` values, keyed by the date of the
      value that follows each window. A width below one or a series no longer than the
      width leaves numpy nothing to reshape. */
  method BuildTable<V>(dates: seq<string>, values: seq<V>, lookBack: int) returns (r: Result<seq<Row<V>>>)
    ensures lookBack <= 0 ==> r == Err(ShapeMismatch)
    ensures lookBack >= 1 && |values| <= lookBack ==> r == Err(InsufficientHistory)
    ensures lookBack >= 1 && |values| > lookBack ==> (r.Ok? <==> |dates| == |values|)
    ensures r.Ok? ==> lookBack >= 1 && |values| > lookBack && |dates| == |values|
                      && r.value == InitialTable(dates, values, lookBack)
  {
    if lookBack <= 0 {
      // X.reshape(-1, 0) in numpy
      return Err(ShapeMismatch);
    }
    if |values| <= lookBack {
      // reshape of the empty window array has no second dimension
      return Err(InsufficientHistory);
    }
    var xs, _ := ApplyLookback(values, lookBack);
    var keyDates := if lookBack <= |dates| then dates[lookBack..] else [];
    var united := UniteDatesSamples(keyDates, xs);
    if united.Err? {
      return Err(united.error);
    }
    ghost var rows0 := InitialTable(dates, values, lookBack);
    forall i | 0 <= i < |rows0| ensures united.value[i] == rows0[i] {
      assert united.value[i].date == DateColumn(united.value)[i];
      assert united.value[i].window == WindowColumns(united.value)[i];
    }
    r := Ok(united.value);
  }

  /** Lines 80-84 of `predict`: the prediction date is the day before the one the loop
      ended on, and the starting date `lookBack` days before that. */
  function FinalDates(lastDay: string, lookBack: int): (r: Result<(string, string)>)
    ensures r.Ok? ==>
              var l, p, q := Parse(lastDay), Parse(r.value.0), Parse(r.value.1);
              l.Ok? && p.Ok? && q.Ok? && IsCanonical(r.value.0) && IsCanonical(r.value.1)
              && Ordinal(p.value) == Ordinal(l.value) - 1
              && Ordinal(q.value) == Ordinal(p.value) - lookBack
    ensures (Parse(lastDay).Ok? && Ordinal(Parse(lastDay).value) - 1 - lookBack >= 1
             && Ordinal(Parse(lastDay).value) - 1 - lookBack <= MaxOrdinal && lookBack >= 0)
            ==> r.Ok?
  {
    var p :- ChangeDate(lastDay, -1);
    var q :- ChangeDate(p, -lookBack);
    Ok((p, q))
  }

  /** The starting date names the day the first lookup took, when the loop runs one day
      more than the window is wide, as `RNN` arranges; a canonical spelling comes back
      as it was. */
  lemma FinalDatesStart(taken: string, lastDay: string, lookBack: int)
    requires Parse(taken).Ok? && Parse(lastDay).Ok?
    requires Ordinal(Parse(lastDay).value) == Ordinal(Parse(taken).value) + lookBack + 1
    requires FinalDates(lastDay, lookBack).Ok?
    ensures Parse(FinalDates(lastDay, lookBack).value.1) == Parse(taken)
    ensures IsCanonical(taken) ==> FinalDates(lastDay, lookBack).value.1 == taken
  {
    var q := FinalDates(lastDay, lookBack).value.1;
    OrdinalInjective(Parse(taken).value, Parse(q).value);
    if IsCanonical(taken) {
      FormatParse(taken);
      FormatParse(q);
    }
  }

  /** What `predict` promises about a forecast `f` made from the table `rows0`: the model
      is called `lookForward` times, each time on the previous window shifted by one and
      ending with the previous output, starting from the window looked up for the
      requested day; the prediction is `lookForward - 1` days after the day that lookup
      took and the starting date `lookBack` days before the prediction (the day the lookup
      took, when the loop runs one day more than the window is wide); the table returned
      is the rolled-out one, of the same width and at most one row per pass longer. */
  ghost predicate ForecastOf<V(!new)>(model: seq<V> -> V, lookBack: nat, lookForward: int,
                                      rows0: seq<Row<V>>, requestedDay: string, f: Forecast<V>)
  {
    lookForward >= 1
    && (var ws := Inputs(StepOf(model, lookBack), rows0, lookForward, requestedDay);
        |ws| == lookForward
        && ws[0] == GetSample(rows0, requestedDay).value.window
        && (forall k :: 0 <= k < |ws| ==> |ws[k]| == lookBack)
        && (forall k :: 0 <= k < |ws| - 1 ==> ws[k + 1] == ws[k][1..] + [model(ws[k])])
        && f.info.predictionNewCases == model(ws[|ws| - 1]))
    && (var s := Parse(GetSample(rows0, requestedDay).value.dayTaken);
        var p := Parse(f.info.predictionDate);
        var q := Parse(f.info.startingDate);
        s.Ok? && p.Ok? && q.Ok?
        && Ordinal(p.value) == Ordinal(s.value) + lookForward - 1
        && Ordinal(q.value) == Ordinal(p.value) - lookBack)
    && (lookForward == lookBack + 1 ==>
          var s := GetSample(rows0, requestedDay).value.dayTaken;
          Parse(f.info.startingDate) == Parse(s)
          && (IsCanonical(s) ==> f.info.startingDate == s))
    && (var spec := RolloutFrom(StepOf(model, lookBack), rows0, lookForward, requestedDay, None);
        spec.Ok? && f.samples == spec.value.rows
        && |rows0| <= |f.samples| <= |rows0| + lookForward
        && WidthIs(f.samples, lookBack))
  }

  /** A rollout that ended with an output, dated by `FinalDates`, makes a `ForecastOf`. */
  lemma RolloutForecast<V(!new)>(model: seq<V> -> V, lookBack: nat, lookForward: int, rows0: seq<Row<V>>,
                                 requestedDay: string, rolled: Rolled<V>, dates: (string, string))
    requires lookBack >= 1 && WidthIs(rows0, lookBack)
    requires RolloutFrom(StepOf(model, lookBack), rows0, lookForward, requestedDay, None) == Ok(rolled)
    requires rolled.predicted.Some? && FinalDates(rolled.lastDay, lookBack) == Ok(dates)
    ensures ForecastOf(model, lookBack, lookForward, rows0, requestedDay,
                       Forecast(PredictionInfo(dates.0, dates.1, rolled.predicted.value), rolled.rows))
  {
    var step := StepOf(model, lookBack);
    StepOfIs(model, lookBack);
    AdvanceLaws(step, model, lookBack);
    assert lookForward >= 1;
    RolloutInputs(step, model, lookBack, rows0, lookForward, requestedDay, None);
    RolloutDates(step, model, lookBack, rows0, lookForward, requestedDay, None);
    RolloutGrowth(step, model, lookBack, rows0, lookForward, requestedDay, None);
    if lookForward == lookBack + 1 {
      FinalDatesStart(GetSample(rows0, requestedDay).value.dayTaken, rolled.lastDay, lookBack);
    }
  }

  /** Lines 66-96 of `predict`, from the built table on: roll the model forward
      `lookForward` times, then date the prediction. With distinct dates and no date
      overflow it succeeds. */
  method PredictFromTable<V(!new)>(model: seq<V> -> V, lookBack: nat, lookForward: int,
                                   rows0: seq<Row<V>>, requestedDay: string)
    returns (r: Result<Forecast<V>>)
    requires lookBack >= 1 && rows0 != [] && WidthIs(rows0, lookBack)
    ensures r.Ok? ==> ForecastOf(model, lookBack, lookForward, rows0, requestedDay, r.value)
    ensures (lookForward >= 1 && DistinctDates(rows0)
             && Parse(GetSample(rows0, requestedDay).value.dayTaken).Ok?
             && (var o := Ordinal(Parse(GetSample(rows0, requestedDay).value.dayTaken).value);
                 o + lookForward <= MaxOrdinal && o + lookForward - 1 - lookBack >= 1))
            ==> r.Ok?
  {
    ghost var s := GetSample(rows0, requestedDay).value.dayTaken;
    ghost var step := StepOf(model, lookBack);
    StepOfIs(model, lookBack);
    AdvanceLaws(step, model, lookBack);
    ghost var spec := RolloutFrom(step, rows0, lookForward, requestedDay, None);
    if lookForward >= 1 && DistinctDates(rows0) && Parse(s).Ok?
       && Ordinal(Parse(s).value) + lookForward <= MaxOrdinal {
      RolloutSucceeds(step, model, lookBack, rows0, lookForward, requestedDay, None);
      RolloutDates(step, model, lookBack, rows0, lookForward, requestedDay, None);
      RolloutInputs(step, model, lookBack, rows0, lookForward, requestedDay, None);
    }
    var table := new SampleTable(rows0);
    var rolled := Rollout(table, model, lookBack, lookForward, requestedDay, step);
    if rolled.Err? {
      return Err(rolled.error);
    }
    var (lastDay, predicted) := rolled.value;
    var dated := FinalDates(lastDay, lookBack);
    if predicted.None? {
      // `denormalize(0)` of the placeholder when the loop never ran; the dates are
      // still computed first
      return if dated.Err? then Err(dated.error) else Err(ShapeMismatch);
    }
    if dated.Err? {
      return Err(dated.error);
    }
    RolloutForecast(model, lookBack, lookForward, rows0, requestedDay, spec.value, dated.value);
    r := Ok(Forecast(PredictionInfo(dated.value.0, dated.value.1, predicted.value), table.rows));
  }

  /** `RNN.predict(requested_day)` on the loaded and normalised series: build the table,
      roll the model forward `lookForward` times, then date the prediction. */
  method Predict<V(!new)>(rnn: RNN<V>, dates: seq<string>, values: seq<V>, requestedDay: string)
    returns (r: Result<Forecast<V>>)
    ensures !Buildable(rnn, dates, values) ==> r.Err?
    ensures r.Ok? ==> Buildable(rnn, dates, values)
                      && ForecastOf(rnn.model, rnn.lookBack, rnn.lookForward,
                                    InitialTable(dates, values, rnn.lookBack), requestedDay, r.value)
    // with distinct dates and no date overflow the forecast succeeds
    ensures (Buildable(rnn, dates, values) && rnn.lookForward >= 1
             && DistinctDates(InitialTable(dates, values, rnn.lookBack))
             && Parse(FirstLookup(rnn, dates, values, requestedDay).dayTaken).Ok?
             && (var o := Ordinal(Parse(FirstLookup(rnn, dates, values, requestedDay).dayTaken).value);
                 o + rnn.lookForward <= MaxOrdinal && o + rnn.lookForward - 1 - rnn.lookBack >= 1))
            ==> r.Ok?
  {
    var built := BuildTable(dates, values, rnn.lookBack);
    if built.Err? {
      return Err(built.error);
    }
    r := PredictFromTable(rnn.model, rnn.lookBack, rnn.lookForward, built.value, requestedDay);
  }
}
