/** The date-keyed sample table of `backend/ML/utils.py`: rows `| date | x(t-k) | ... | x(t) |`
    built by `unite_dates_samples`, read by `get_sample` and extended by `append_sample`. */
module Samples {
  import opened Errors
  import opened Calendar
  import opened DateFormat

  /** One row of the table: the date column and the `look_back` window columns. */
  datatype Row<V> = Row(date: string, window: seq<V>)

  /** What `get_sample` returns: the window and the date it was taken from. */
  datatype Sample<V> = Sample(window: seq<V>, dayTaken: string)

  predicate HasDate<V>(rows: seq<Row<V>>, d: string) {
    exists i :: 0 <= i < |rows| && rows[i].date == d
  }

  /** Every row has `lookBack` window columns (the table is a 2-D array of width 1 + look_back). */
  predicate WidthIs<V>(rows: seq<Row<V>>, lookBack: int) {
    forall i :: 0 <= i < |rows| ==> |rows[i].window| == lookBack
  }

  predicate DistinctDates<V>(rows: seq<Row<V>>) {
    forall i, j :: 0 <= i < j < |rows| ==> rows[i].date != rows[j].date
  }

  function DateColumn<V>(rows: seq<Row<V>>): seq<string> {
    seq(|rows|, i requires 0 <= i < |rows| => rows[i].date)
  }

  function WindowColumns<V>(rows: seq<Row<V>>): seq<seq<V>> {
    seq(|rows|, i requires 0 <= i < |rows| => rows[i].window)
  }

  /** The index of the first row keyed by `d`. */
  function FirstIndex<V>(rows: seq<Row<V>>, d: string): (i: nat)
    requires HasDate(rows, d)
    ensures i < |rows| && rows[i].date == d
    ensures forall j :: 0 <= j < i ==> rows[j].date != d
  {
    if rows[0].date == d then 0
    else
      assert HasDate(rows[1..], d) by {
        var k :| 0 <= k < |rows| && rows[k].date == d;
        assert rows[1..][k - 1].date == d;
      }
      1 + FirstIndex(rows[1..], d)
  }

  /** The rows selected by the mask `array[:, 0] == d`, in table order. */
  function Matching<V>(rows: seq<Row<V>>, d: string): (m: seq<Row<V>>)
    ensures |m| <= |rows|
    ensures forall k :: 0 <= k < |m| ==> m[k].date == d
  {
    if rows == [] then []
    else (if rows[0].date == d then [rows[0]] else []) + Matching(rows[1..], d)
  }

  lemma {:induction false} MatchingSpec<V>(rows: seq<Row<V>>, d: string)
    ensures |Matching(rows, d)| == 0 <==> !HasDate(rows, d)
    ensures HasDate(rows, d) ==> Matching(rows, d)[0] == rows[FirstIndex(rows, d)]
  {
    if rows != [] {
      MatchingSpec(rows[1..], d);
      if !HasDate(rows[1..], d) && rows[0].date != d {
        forall i | 0 <= i < |rows| ensures rows[i].date != d {
          if i > 0 { assert rows[1..][i - 1] == rows[i]; }
        }
      }
      if HasDate(rows[1..], d) {
        var k := FirstIndex(rows[1..], d);
        assert rows[1..][k].date == d;
      }
    }
  }

  /** With distinct dates a present date selects exactly one row. */
  lemma {:induction false} MatchingUnique<V>(rows: seq<Row<V>>, d: string)
    requires DistinctDates(rows) && HasDate(rows, d)
    ensures |Matching(rows, d)| == 1
  {
    var rest := rows[1..];
    assert DistinctDates(rest) by {
      forall i, j | 0 <= i < j < |rest| ensures rest[i].date != rest[j].date {
        assert rest[i] == rows[i + 1] && rest[j] == rows[j + 1];
      }
    }
    if rows[0].date == d {
      assert !HasDate(rest, d) by {
        forall k | 0 <= k < |rest| ensures rest[k].date != d {
          assert rest[k] == rows[k + 1];
        }
      }
      MatchingSpec(rest, d);
    } else {
      assert HasDate(rest, d) by {
        var k :| 0 <= k < |rows| && rows[k].date == d;
        assert rest[k - 1].date == d;
      }
      MatchingUnique(rest, d);
    }
  }

  lemma MatchingUniqueWhenDistinct<V>(rows: seq<Row<V>>, d: string)
    ensures DistinctDates(rows) && HasDate(rows, d) ==> |Matching(rows, d)| == 1
  {
    if DistinctDates(rows) && HasDate(rows, d) {
      MatchingUnique(rows, d);
    }
  }

  /** `unite_dates_samples`: `np.hstack` of the date column and the window columns, which
      requires both to have the same number of rows. */
  function UniteDatesSamples<V>(dates: seq<string>, samples: seq<seq<V>>): (r: Result<seq<Row<V>>>)
    ensures r.Ok? <==> |dates| == |samples|
    ensures r.Err? ==> r.error == ShapeMismatch
    ensures r.Ok? ==> DateColumn(r.value) == dates && WindowColumns(r.value) == samples
  {
    if |dates| != |samples| then Err(ShapeMismatch)
    else Ok(seq(|dates|, i requires 0 <= i < |dates| => Row(dates[i], samples[i])))
  }

  /** `get_sample`: the first row keyed by the requested date, or else the last row of the
      table and its date; an empty table has no last row. */
  function GetSample<V>(rows: seq<Row<V>>, requestedDate: string): (r: Result<Sample<V>>)
    ensures rows == [] <==> r.Err?
    ensures r.Err? ==> r.error == EmptyTable
    ensures HasDate(rows, requestedDate) ==>
              r == Ok(Sample(rows[FirstIndex(rows, requestedDate)].window, requestedDate))
    ensures rows != [] && !HasDate(rows, requestedDate) ==>
              r == Ok(Sample(rows[|rows| - 1].window, rows[|rows| - 1].date))
    ensures r.Ok? ==> HasDate(rows, r.value.dayTaken)
  {
    MatchingSpec(rows, requestedDate);
    var found := Matching(rows, requestedDate);
    if |found| == 0 then
      if |rows| == 0 then Err(EmptyTable)
      else
        var last := rows[|rows| - 1];
        Ok(Sample(last.window, last.date))
    else Ok(Sample(found[0].window, requestedDate))
  }

  /** The row `append_sample` synthesises: keyed by the next day, holding the requested
      row's window without its oldest value and with the prediction appended. The
      numpy reshape to `look_back - 1` values succeeds only when exactly one row matches,
      except for `look_back == 1`, where there is nothing to keep; a table of width one
      cannot take a row of width two. */
  function NextSample<V>(rows: seq<Row<V>>, predicted: V, lookBack: nat, requestedDay: string): (r: Result<Row<V>>)
    requires WidthIs(rows, lookBack)
    ensures r.Ok? ==> ChangeDate(requestedDay, 1) == Ok(r.value.date)
    ensures r.Ok? ==> lookBack >= 1
    ensures r.Ok? ==> |r.value.window| == lookBack && r.value.window[lookBack - 1] == predicted
    ensures r.Ok? && lookBack >= 2 ==> |Matching(rows, requestedDay)| == 1
    ensures r.Ok? && lookBack >= 1 && HasDate(rows, requestedDay) ==>
              r.value.window == rows[FirstIndex(rows, requestedDay)].window[1..] + [predicted]
  {
    var c := ChangeDate(requestedDay, 1);
    if c.Err? then Err(c.error)
    else
    var next := c.value;
    MatchingSpec(rows, requestedDay);
    var found := Matching(rows, requestedDay);
    if lookBack == 0 then Err(ShapeMismatch)
    else if lookBack == 1 then
      assert HasDate(rows, requestedDay) ==> rows[FirstIndex(rows, requestedDay)].window[1..] == [];
      Ok(Row(next, [predicted]))
    else if |found| != 1 then Err(ShapeMismatch)
    else
      var w := rows[FirstIndex(rows, requestedDay)].window;
      assert found[0].window == w && |w| == lookBack;
      Ok(Row(next, w[1..] + [predicted]))
  }

  /** When `append_sample` fails: the date does not parse or overflows, the table has
      width one, or (for `look_back >= 2`) the requested day does not select exactly one
      row. With distinct dates and a present requested day it succeeds. */
  lemma NextSampleOutcome<V>(rows: seq<Row<V>>, predicted: V, lookBack: nat, requestedDay: string)
    requires WidthIs(rows, lookBack)
    ensures var r := NextSample(rows, predicted, lookBack, requestedDay);
            (ChangeDate(requestedDay, 1).Err? ==> r == Err(ChangeDate(requestedDay, 1).error))
            && (lookBack == 0 ==> r.Err?)
            && (lookBack >= 2 && !HasDate(rows, requestedDay) ==> r.Err?)
            && ((ChangeDate(requestedDay, 1).Ok? && lookBack >= 1 && HasDate(rows, requestedDay)
                 && DistinctDates(rows)) ==> r.Ok?)
  {
    MatchingSpec(rows, requestedDay);
    MatchingUniqueWhenDistinct(rows, requestedDay);
  }

  /** Two rows keyed by d make the mask select at least two rows. */
  lemma {:induction false} MatchingAtLeastTwo<V>(rows: seq<Row<V>>, d: string, i: nat, j: nat)
    requires i < j < |rows| && rows[i].date == d && rows[j].date == d
    ensures |Matching(rows, d)| >= 2
  {
    var rest := rows[1..];
    if i == 0 {
      assert rest[j - 1].date == d;
      MatchingSpec(rest, d);
    } else {
      MatchingAtLeastTwo(rest, d, i - 1, j - 1);
    }
  }

  /** When the mask selects one row, that row is the only one keyed by d. */
  lemma MatchingOneIndex<V>(rows: seq<Row<V>>, d: string)
    ensures |Matching(rows, d)| == 1 ==>
              forall i :: 0 <= i < |rows| && rows[i].date == d ==> i == FirstIndex(rows, d)
  {
    if |Matching(rows, d)| == 1 {
      forall i | 0 <= i < |rows| && rows[i].date == d ensures i == FirstIndex(rows, d) {
        var f := FirstIndex(rows, d);
        if f < i {
          MatchingAtLeastTwo(rows, d, f, i);
        }
      }
    }
  }

  /** The row `append_sample` synthesises from the lookup's answer is that answer's window
      shifted left by one with the prediction appended, also when the lookup fell back to
      the last row. */
  lemma NextSampleExtendsLookup<V>(rows: seq<Row<V>>, predicted: V, lookBack: nat, day: string)
    requires WidthIs(rows, lookBack) && rows != []
    requires NextSample(rows, predicted, lookBack, GetSample(rows, day).value.dayTaken).Ok?
    ensures |GetSample(rows, day).value.window| == lookBack
    ensures NextSample(rows, predicted, lookBack, GetSample(rows, day).value.dayTaken).value.window
            == GetSample(rows, day).value.window[1..] + [predicted]
  {
    var smp := GetSample(rows, day).value;
    var d := smp.dayTaken;
    var next := NextSample(rows, predicted, lookBack, d).value;
    assert HasDate(rows, d);
    var f := FirstIndex(rows, d);
    if lookBack >= 2 && !HasDate(rows, day) {
      MatchingOneIndex(rows, d);
      assert f == |rows| - 1;
    }
    assert |smp.window| == lookBack;
    assert lookBack >= 1 && next.window == rows[f].window[1..] + [predicted];
  }

  /** `array[mask] = row` with the mask `array[:, 0] == row.date`: every row keyed by the
      row's date is replaced by it. */
  function Overwrite<V>(rows: seq<Row<V>>, row: Row<V>): (r: seq<Row<V>>)
    ensures |r| == |rows|
    ensures forall i :: 0 <= i < |rows| ==> r[i] == (if rows[i].date == row.date then row else rows[i])
  {
    seq(|rows|, i requires 0 <= i < |rows| => if rows[i].date == row.date then row else rows[i])
  }

  /** The table after storing `row`: appended when no row has its date, otherwise written
      over every row that has it. */
  function Upsert<V>(rows: seq<Row<V>>, row: Row<V>): (r: seq<Row<V>>)
    ensures |rows| <= |r| <= |rows| + 1
    ensures HasDate(r, row.date)
    ensures forall i :: 0 <= i < |rows| && rows[i].date != row.date ==> r[i] == rows[i]
  {
    MatchingSpec(rows, row.date);
    if |Matching(rows, row.date)| == 0 then
      assert (rows + [row])[|rows|] == row;
      rows + [row]
    else
      var r := Overwrite(rows, row);
      assert r[FirstIndex(rows, row.date)] == row;
      r
  }

  /** A new date adds exactly one row at the end; a known date keeps the row count and
      replaces only the rows keyed by it. */
  lemma UpsertShape<V>(rows: seq<Row<V>>, row: Row<V>)
    ensures !HasDate(rows, row.date) ==> Upsert(rows, row) == rows + [row]
    ensures HasDate(rows, row.date) ==>
              (|Upsert(rows, row)| == |rows|
               && forall i :: 0 <= i < |rows| ==>
                    Upsert(rows, row)[i] == (if rows[i].date == row.date then row else rows[i]))
  {
    MatchingSpec(rows, row.date);
  }

  /** After the upsert the lookup of the new date hits the stored row. */
  lemma UpsertThenGet<V>(rows: seq<Row<V>>, row: Row<V>)
    ensures GetSample(Upsert(rows, row), row.date) == Ok(Sample(row.window, row.date))
  {
    var r := Upsert(rows, row);
    var i := FirstIndex(r, row.date);
    UpsertShape(rows, row);
  }

  /** Storing the same row twice leaves the table as storing it once. */
  lemma UpsertIdempotent<V>(rows: seq<Row<V>>, row: Row<V>)
    ensures Upsert(Upsert(rows, row), row) == Upsert(rows, row)
  {
    var r := Upsert(rows, row);
    UpsertShape(rows, row);
    UpsertShape(r, row);
    assert HasDate(r, row.date);
  }

  lemma UpsertKeepsInvariants<V>(rows: seq<Row<V>>, row: Row<V>, lookBack: int)
    requires WidthIs(rows, lookBack) && |row.window| == lookBack
    ensures WidthIs(Upsert(rows, row), lookBack)
    ensures DistinctDates(rows) ==> DistinctDates(Upsert(rows, row))
  {
    var r := Upsert(rows, row);
    UpsertShape(rows, row);
    forall i | 0 <= i < |r| ensures |r[i].window| == lookBack {
      if i < |rows| && rows[i].date != row.date { assert r[i] == rows[i]; }
    }
    if DistinctDates(rows) {
      forall i, j | 0 <= i < j < |r| ensures r[i].date != r[j].date {
        if i < |rows| && rows[i].date != row.date { assert r[i] == rows[i]; }
        if j < |rows| && rows[j].date != row.date { assert r[j] == rows[j]; }
      }
    }
  }

  /** The synthesised row never carries the requested day's key. */
  lemma NextDateDiffers(requestedDay: string)
    requires ChangeDate(requestedDay, 1).Ok?
    ensures ChangeDate(requestedDay, 1).value != requestedDay
  {
  }

  lemma {:induction false} MatchingUpsertOther<V>(rows: seq<Row<V>>, row: Row<V>, d: string)
    requires row.date != d
    ensures Matching(Upsert(rows, row), d) == Matching(rows, d)
  {
    UpsertShape(rows, row);
    var r := Upsert(rows, row);
    if !HasDate(rows, row.date) {
      MatchingAppend(rows, row, d);
    } else {
      MatchingPointwise(rows, r, d);
    }
  }

  lemma {:induction false} MatchingAppend<V>(rows: seq<Row<V>>, row: Row<V>, d: string)
    requires row.date != d
    ensures Matching(rows + [row], d) == Matching(rows, d)
  {
    if rows == [] {
      assert [row][1..] == [];
    } else {
      assert (rows + [row])[1..] == rows[1..] + [row];
      MatchingAppend(rows[1..], row, d);
    }
  }

  /** Two tables that agree on every row keyed by d, or on neither being keyed by d, select the same rows. */
  lemma {:induction false} MatchingPointwise<V>(a: seq<Row<V>>, b: seq<Row<V>>, d: string)
    requires |a| == |b|
    requires forall i :: 0 <= i < |a| ==> (a[i].date == d <==> b[i].date == d)
    requires forall i :: 0 <= i < |a| && a[i].date == d ==> a[i] == b[i]
    ensures Matching(a, d) == Matching(b, d)
  {
    if a != [] {
      MatchingPointwise(a[1..], b[1..], d);
    }
  }

  /** A repeated `append_sample` with the same arguments leaves the table unchanged: it
      synthesises the same row and overwrites that row with itself. */
  lemma RepeatNextSample<V>(rows: seq<Row<V>>, predicted: V, lookBack: nat, requestedDay: string)
    requires WidthIs(rows, lookBack) && NextSample(rows, predicted, lookBack, requestedDay).Ok?
    ensures var row := NextSample(rows, predicted, lookBack, requestedDay).value;
            WidthIs(Upsert(rows, row), lookBack)
            && NextSample(Upsert(rows, row), predicted, lookBack, requestedDay) == Ok(row)
            && Upsert(Upsert(rows, row), row) == Upsert(rows, row)
  {
    var row := NextSample(rows, predicted, lookBack, requestedDay).value;
    NextDateDiffers(requestedDay);
    UpsertKeepsInvariants(rows, row, lookBack);
    MatchingUpsertOther(rows, row, requestedDay);
    UpsertIdempotent(rows, row);
  }

  /** The table as the rollout mutates it: `append_sample` grows it with `np.vstack` or
      overwrites matching rows in place. */
  class SampleTable<V> {
    var rows: seq<Row<V>>

    constructor (rows: seq<Row<V>>)
      ensures this.rows == rows
    {
      this.rows := rows;
    }

    /** `append_sample(array, predicted, look_back, requested_day)`: returns the next
        day's date; on failure the table is left as it was. */
    method AppendSample(predicted: V, lookBack: nat, requestedDay: string) returns (r: Result<string>)
      requires WidthIs(rows, lookBack)
      modifies this
      ensures var next := NextSample(old(rows), predicted, lookBack, requestedDay);
              (next.Err? ==> r == Err(next.error) && rows == old(rows))
              && (next.Ok? ==> r == Ok(next.value.date) && rows == Upsert(old(rows), next.value))
    {
      var next := NextSample(rows, predicted, lookBack, requestedDay);
      if next.Err? {
        return Err(next.error);
      }
      var row := next.value;
      if |Matching(rows, row.date)| == 0 {
        rows := rows + [row];
      } else {
        rows := Overwrite(rows, row);
      }
      r := Ok(row.date);
    }
  }
}
