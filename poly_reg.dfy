/** `get_trend_pred` of `backend/ML/PolyReg.py`: move every date of the sample table one
    day back, keep the rows from April on of 2020 and later years, fit a curve through
    (day number, label) and compare the curve's last value with the value `look_back`
    points earlier. The fit (`PolynomialFeatures(degree=4)` and `LinearRegression`) is the
    function parameter `fit`, which returns the fitted curve. */
module PolyReg {
  import opened Errors
  import opened Calendar
  import opened DateFormat
  import opened Samples

  /** The three strings `get_trend_pred` returns. */
  datatype Trend = Upward | Downward | NotChanged

  /** The fit: from the day numbers and labels of the kept rows to the fitted curve. */
  type Fit<!V> = (seq<int>, seq<V>) -> (int -> real)

  /** `united_samples[:, -1:]`: the last column of a row, its newest value. */
  function Label<V>(row: Row<V>): V
    requires |row.window| >= 1
  {
    row.window[|row.window| - 1]
  }

  predicate HasLabels<V>(rows: seq<Row<V>>) {
    forall i :: 0 <= i < |rows| ==> |rows[i].window| >= 1
  }

  function Labels<V>(rows: seq<Row<V>>): (ls: seq<V>)
    requires HasLabels(rows)
    ensures |ls| == |rows| && forall i :: 0 <= i < |rows| ==> ls[i] == Label(rows[i])
  {
    seq(|rows|, i requires 0 <= i < |rows| => Label(rows[i]))
  }

  /** Draining a generator of `f(x)` for each x in order: the first failure ends it. */
  function MapAll<A, B>(f: A -> Result<B>, xs: seq<A>): (r: Result<seq<B>>)
    ensures r.Ok? ==> |r.value| == |xs| && forall i :: 0 <= i < |xs| ==> f(xs[i]) == Ok(r.value[i])
    ensures r.Err? ==> exists i :: 0 <= i < |xs| && f(xs[i]) == Err(r.error)
                                   && forall j :: 0 <= j < i ==> f(xs[j]).Ok?
  {
    if |xs| == 0 then Ok([])
    else
      var head := f(xs[0]);
      if head.Err? then Err(head.error)
      else
        var tail := MapAll(f, xs[1..]);
        if tail.Err? then
          ghost var i :| 0 <= i < |xs| - 1 && f(xs[1..][i]) == Err(tail.error)
                         && forall j :: 0 <= j < i ==> f(xs[1..][j]).Ok?;
          assert f(xs[i + 1]) == Err(tail.error);
          assert forall j :: 1 <= j < i + 1 ==> f(xs[j]).Ok? by {
            forall j | 1 <= j < i + 1 ensures f(xs[j]).Ok? {
              assert xs[j] == xs[1..][j - 1];
            }
          }
          Err(tail.error)
        else
          Ok([head.value] + tail.value)
  }

  /** Lines 41-43: `change_date(date, -1)` of every date, in order; the first date that
      does not parse or leaves the calendar ends the generator with its error. */
  function ShiftBack(dates: seq<string>): (r: Result<seq<string>>)
    ensures r.Ok? ==> |r.value| == |dates|
    ensures r.Ok? ==> forall i :: 0 <= i < |dates| ==> ChangeDate(dates[i], -1) == Ok(r.value[i])
    ensures r.Err? ==> exists i :: 0 <= i < |dates| && ChangeDate(dates[i], -1) == Err(r.error)
                                   && forall j :: 0 <= j < i ==> ChangeDate(dates[j], -1).Ok?
  {
    MapAll(s => ChangeDate(s, -1), dates)
  }

  /** Every moved date is canonical and one day before the date it came from. */
  lemma ShiftBackDates(dates: seq<string>)
    requires ShiftBack(dates).Ok?
    ensures forall i :: 0 <= i < |dates| ==>
              var s := ShiftBack(dates).value[i];
              IsCanonical(s) && Parse(dates[i]).Ok? && Parse(s).Ok?
              && Ordinal(Parse(s).value) == Ordinal(Parse(dates[i]).value) - 1
  {
    var out := ShiftBack(dates).value;
    forall i | 0 <= i < |dates|
      ensures IsCanonical(out[i]) && Parse(dates[i]).Ok? && Parse(out[i]).Ok?
              && Ordinal(Parse(out[i]).value) == Ordinal(Parse(dates[i]).value) - 1
    {
      assert ChangeDate(dates[i], -1) == Ok(out[i]);
    }
  }

  /** Line 46: `int(date[0:4]) >= 2020 and int(date[5:7]) >= 4`. On a date the test reads
      the year and the month: it keeps April to December of 2020 and of every later year,
      and so drops January to March of 2021 as well. */
  predicate AfterOnset(s: string): (r: bool)
    requires IsCanonical(s)
    ensures Parse(s).Ok? ==> (r <==> Parse(s).value.year >= 2020 && Parse(s).value.month >= 4)
  {
    assert IsDigit(s[5..7][0]) && IsDigit(s[5..7][1]);
    Number(s[..4]) >= 2020 && Number(s[5..7]) >= 4
  }

  lemma AfterOnsetExamples()
    ensures IsCanonical("2020-04-01") && AfterOnset("2020-04-01")
    ensures IsCanonical("2020-03-31") && !AfterOnset("2020-03-31")
    ensures IsCanonical("2021-01-15") && !AfterOnset("2021-01-15")
  {
    NumberOfFour("2020");
    NumberOfFour("2021");
    NumberOfTwo("04");
    NumberOfTwo("03");
    NumberOfTwo("01");
    assert "2020-04-01"[..4] == "2020" && "2020-04-01"[5..7] == "04" && "2020-04-01"[8..] == "01";
    assert "2020-03-31"[..4] == "2020" && "2020-03-31"[5..7] == "03" && "2020-03-31"[8..] == "31";
    assert "2021-01-15"[..4] == "2021" && "2021-01-15"[5..7] == "01" && "2021-01-15"[8..] == "15";
  }

  predicate AllCanonical(ds: seq<string>) {
    forall i :: 0 <= i < |ds| ==> IsCanonical(ds[i])
  }

  /** `BOOL_COND_ARRAY`, the list comprehension of line 46. */
  function Mask(ds: seq<string>): (m: seq<bool>)
    requires AllCanonical(ds)
    ensures |m| == |ds| && forall i :: 0 <= i < |ds| ==> (m[i] <==> AfterOnset(ds[i]))
  {
    seq(|ds|, i requires 0 <= i < |ds| => AfterOnset(ds[i]))
  }

  /** Boolean-mask indexing `xs[mask]`: the elements where the mask is true, in order. */
  function Keep<T>(mask: seq<bool>, xs: seq<T>): (r: seq<T>)
    requires |mask| == |xs|
    ensures |r| <= |xs|
    ensures (forall i :: 0 <= i < |mask| ==> mask[i]) ==> r == xs
    ensures (forall i :: 0 <= i < |mask| ==> !mask[i]) ==> r == []
  {
    if |xs| == 0 then []
    else (if mask[0] then [xs[0]] else []) + Keep(mask[1..], xs[1..])
  }

  /** The positions where the mask is true, in increasing order. */
  function KeptIndices(mask: seq<bool>): (ks: seq<int>)
  {
    if |mask| == 0 then []
    else
      var rest := KeptIndices(mask[1..]);
      (if mask[0] then [0] else []) + seq(|rest|, k requires 0 <= k < |rest| => rest[k] + 1)
  }

  /** The kept positions are true ones. */
  lemma {:induction false} KeptIndicesInRange(mask: seq<bool>)
    ensures forall k :: 0 <= k < |KeptIndices(mask)| ==>
              0 <= KeptIndices(mask)[k] < |mask| && mask[KeptIndices(mask)[k]]
  {
    if |mask| > 0 {
      var tail := mask[1..];
      var rest := KeptIndices(tail);
      KeptIndicesInRange(tail);
      var shifted := seq(|rest|, k requires 0 <= k < |rest| => rest[k] + 1);
      var ks := KeptIndices(mask);
      assert ks == (if mask[0] then [0] else []) + shifted;
      forall k | 0 <= k < |ks| ensures 0 <= ks[k] < |mask| && mask[ks[k]] {
        if !mask[0] || k > 0 {
          var j := if mask[0] then k - 1 else k;
          assert ks[k] == shifted[j] == rest[j] + 1;
          assert 0 <= rest[j] < |tail| && tail[rest[j]];
        }
      }
    }
  }

  /** The kept positions come in strictly increasing order. */
  lemma {:induction false} KeptIndicesIncreasing(mask: seq<bool>)
    ensures forall k, l :: 0 <= k < l < |KeptIndices(mask)| ==> KeptIndices(mask)[k] < KeptIndices(mask)[l]
  {
    if |mask| > 0 {
      var tail := mask[1..];
      var rest := KeptIndices(tail);
      KeptIndicesIncreasing(tail);
      KeptIndicesInRange(tail);
      var shifted := seq(|rest|, k requires 0 <= k < |rest| => rest[k] + 1);
      var ks := KeptIndices(mask);
      assert ks == (if mask[0] then [0] else []) + shifted;
      forall k, l | 0 <= k < l < |ks| ensures ks[k] < ks[l] {
        var d := if mask[0] then 1 else 0;
        assert ks[l] == shifted[l - d] == rest[l - d] + 1;
        assert 0 <= rest[l - d];
        if k >= d {
          assert ks[k] == shifted[k - d] == rest[k - d] + 1;
          assert rest[k - d] < rest[l - d];
        }
      }
    }
  }

  /** Every true position is kept. */
  lemma {:induction false} KeptIndicesComplete(mask: seq<bool>)
    ensures forall i :: 0 <= i < |mask| && mask[i] ==> i in KeptIndices(mask)
  {
    if |mask| > 0 {
      var rest := KeptIndices(mask[1..]);
      KeptIndicesComplete(mask[1..]);
      var ks := KeptIndices(mask);
      var shifted := seq(|rest|, k requires 0 <= k < |rest| => rest[k] + 1);
      assert ks == (if mask[0] then [0] else []) + shifted;
      forall i | 0 <= i < |mask| && mask[i] ensures i in ks {
        if i > 0 {
          assert mask[1..][i - 1];
          var k :| 0 <= k < |rest| && rest[k] == i - 1;
          assert shifted[k] == i;
        }
      }
    }
  }

  /** The kept positions are exactly the true ones, in strictly increasing order. */
  lemma KeptIndicesSpec(mask: seq<bool>)
    ensures var ks := KeptIndices(mask);
            (forall k :: 0 <= k < |ks| ==> 0 <= ks[k] < |mask| && mask[ks[k]])
            && (forall k, l :: 0 <= k < l < |ks| ==> ks[k] < ks[l])
            && (forall i :: 0 <= i < |mask| && mask[i] ==> i in ks)
  {
    KeptIndicesInRange(mask);
    KeptIndicesIncreasing(mask);
    KeptIndicesComplete(mask);
  }

  /** Masking keeps exactly the elements at the kept positions, in order. */
  lemma {:induction false} KeepAtIndices<T>(mask: seq<bool>, xs: seq<T>)
    requires |mask| == |xs|
    ensures |Keep(mask, xs)| == |KeptIndices(mask)|
    ensures forall k :: 0 <= k < |KeptIndices(mask)| ==>
              0 <= KeptIndices(mask)[k] < |xs| && Keep(mask, xs)[k] == xs[KeptIndices(mask)[k]]
  {
    KeptIndicesSpec(mask);
    if |xs| > 0 {
      KeepAtIndices(mask[1..], xs[1..]);
      var ks, rest := KeptIndices(mask), KeptIndices(mask[1..]);
      var tail := Keep(mask[1..], xs[1..]);
      var shifted := seq(|rest|, k requires 0 <= k < |rest| => rest[k] + 1);
      assert ks == (if mask[0] then [0] else []) + shifted;
      assert Keep(mask, xs) == (if mask[0] then [xs[0]] else []) + tail;
      forall k | 0 <= k < |shifted| ensures tail[k] == xs[shifted[k]] {
        assert xs[1..][rest[k]] == xs[rest[k] + 1];
      }
    }
  }

  function Zip<T, U>(xs: seq<T>, ys: seq<U>): (zs: seq<(T, U)>)
    requires |xs| == |ys|
    ensures |zs| == |xs| && forall i :: 0 <= i < |xs| ==> zs[i] == (xs[i], ys[i])
  {
    seq(|xs|, i requires 0 <= i < |xs| => (xs[i], ys[i]))
  }

  /** The one mask applied to the dates and to the labels keeps them aligned: masking
      the pairs gives the pairs of the masked sequences. */
  lemma {:induction false} MaskAligns<T, U>(mask: seq<bool>, xs: seq<T>, ys: seq<U>)
    requires |mask| == |xs| == |ys|
    ensures |Keep(mask, xs)| == |Keep(mask, ys)|
    ensures Keep(mask, Zip(xs, ys)) == Zip(Keep(mask, xs), Keep(mask, ys))
  {
    if |xs| > 0 {
      MaskAligns(mask[1..], xs[1..], ys[1..]);
      assert Zip(xs, ys)[1..] == Zip(xs[1..], ys[1..]);
      var a, b := Keep(mask[1..], xs[1..]), Keep(mask[1..], ys[1..]);
      if mask[0] {
        assert Zip([xs[0]] + a, [ys[0]] + b) == [(xs[0], ys[0])] + Zip(a, b);
      } else {
        assert Keep(mask, xs) == a && Keep(mask, ys) == b;
      }
    }
  }

  /** Lines 54-56: `toordinal(strptime(date))` of every kept date. */
  function DayNumbers(ds: seq<string>): (ns: seq<int>)
    requires forall i :: 0 <= i < |ds| ==> Parse(ds[i]).Ok?
    ensures |ns| == |ds| && forall i :: 0 <= i < |ds| ==> ns[i] == Ordinal(Parse(ds[i]).value)
  {
    seq(|ds|, i requires 0 <= i < |ds| => Ordinal(Parse(ds[i]).value))
  }

  /** The points the fit sees: the day number of every moved date that passes the filter,
      with the label of its row. */
  function Points<V>(rows: seq<Row<V>>): (r: Result<(seq<int>, seq<V>)>)
    requires HasLabels(rows)
    ensures ShiftBack(DateColumn(rows)).Err? ==> r == Err(ShiftBack(DateColumn(rows)).error)
    ensures r.Ok? ==> |r.value.0| == |r.value.1|
  {
    var moved :- ShiftBack(DateColumn(rows));
    ShiftBackDates(DateColumn(rows));
    var mask := Mask(moved);
    var kept := Keep(mask, moved);
    KeepAtIndices(mask, moved);
    KeepAtIndices(mask, Labels(rows));
    Ok((DayNumbers(kept), Keep(mask, Labels(rows))))
  }

  /** Point k comes from the k-th row, in table order, whose date moved back one day falls
      in April 2020 or later as the filter reads it: its x is that moved date's day number
      and its y the row's label. Every such row gives a point. */
  lemma PointsSpec<V>(rows: seq<Row<V>>)
    requires HasLabels(rows) && ShiftBack(DateColumn(rows)).Ok?
    ensures Points(rows).Ok?
    ensures var moved := ShiftBack(DateColumn(rows)).value;
            var ks := KeptIndices(Mask(moved));
            var pts := Points(rows).value;
            |pts.0| == |ks|
            && (forall k, l :: 0 <= k < l < |ks| ==> ks[k] < ks[l])
            && (forall k :: 0 <= k < |ks| ==>
                  0 <= ks[k] < |rows| && AfterOnset(moved[ks[k]])
                  && pts.0[k] == Ordinal(Parse(rows[ks[k]].date).value) - 1
                  && pts.1[k] == Label(rows[ks[k]]))
            && (forall i :: 0 <= i < |rows| && AfterOnset(moved[i]) ==> i in ks)
  {
    var dates := DateColumn(rows);
    var moved := ShiftBack(dates).value;
    ShiftBackDates(dates);
    var mask := Mask(moved);
    KeptIndicesSpec(mask);
    KeepAtIndices(mask, moved);
    KeepAtIndices(mask, Labels(rows));
    var ks := KeptIndices(mask);
    forall k | 0 <= k < |ks|
      ensures Points(rows).value.0[k] == Ordinal(Parse(rows[ks[k]].date).value) - 1
    {
      assert dates[ks[k]] == rows[ks[k]].date;
    }
  }

  /** Python slice bounds: a negative index counts from the end, and both are clamped. */
  function SliceBound(i: int, n: nat): (b: nat)
    ensures b <= n
  {
    if i < 0 then (if n + i < 0 then 0 else n + i) else (if i > n then n else i)
  }

  /** `s[start:end]` on a one-dimensional numpy array. */
  function PySlice<T>(s: seq<T>, start: int, end: int): (r: seq<T>)
    ensures |r| <= |s|
    ensures 0 <= start <= end <= |s| ==> r == s[start..end]
    ensures -|s| <= start <= end < 0 ==> r == s[|s| + start..|s| + end]
    ensures end <= start && (start < 0 <==> end < 0) ==> r == []
  {
    var a, b := SliceBound(start, |s|), SliceBound(end, |s|);
    if a < b then s[a..b] else []
  }

  /** Lines 71-79: `ahead = trend[-1:]`, `behind = trend[-look_back-1:-look_back]` and the
      comparison chain. A comparison with an empty `behind` broadcasts to an empty array,
      whose truth value is false, so the result is `not_changed`. */
  function Classify(trend: seq<real>, lookBack: int): (r: Trend)
    ensures lookBack == 0 ==> r == NotChanged
    ensures lookBack >= 1 && |trend| <= lookBack ==> r == NotChanged
  {
    var ahead, behind := PySlice(trend, -1, |trend|), PySlice(trend, -lookBack - 1, -lookBack);
    if |ahead| == 1 && |behind| == 1 && ahead[0] > behind[0] then Upward
    else if |ahead| == 1 && |behind| == 1 && ahead[0] < behind[0] then Downward
    else NotChanged
  }

  /** The index `trend[-look_back-1:-look_back]` selects, if it selects one. */
  function BehindIndex(n: nat, lookBack: int): (o: Option<nat>)
    ensures o.Some? ==> o.value < n
  {
    if lookBack >= 1 then (if n >= lookBack + 1 then Some(n - lookBack - 1) else None)
    else if lookBack == 0 then None
    else if -lookBack - 1 < n then Some(-lookBack - 1)
    else None
  }

  /** The classification compares the last value with the value `look_back` places
      before it: `upward` exactly when it is greater, `downward` exactly when it is
      smaller, `not_changed` when they are equal or there is no such value. A width of
      zero compares with nothing; a negative width `-j` compares with `trend[j - 1]`. */
  lemma ClassifySpec(trend: seq<real>, lookBack: int)
    ensures var n, b := |trend|, BehindIndex(|trend|, lookBack);
            (Classify(trend, lookBack) == Upward <==> n >= 1 && b.Some? && trend[n - 1] > trend[b.value])
            && (Classify(trend, lookBack) == Downward <==> n >= 1 && b.Some? && trend[n - 1] < trend[b.value])
            && (Classify(trend, lookBack) == NotChanged <==>
                  !(n >= 1 && b.Some?) || trend[n - 1] == trend[b.value])
  {
    var n := |trend|;
    var ahead, behind := PySlice(trend, -1, n), PySlice(trend, -lookBack - 1, -lookBack);
    if n >= 1 {
      assert ahead == trend[n - 1..n];
    }
    var b := BehindIndex(n, lookBack);
    if b.Some? {
      assert behind == trend[b.value..b.value + 1];
    } else {
      assert |behind| == 0;
    }
  }

  /** On a strictly rising curve with at least `look_back + 1` points the trend is
      `upward`, on a strictly falling one `downward`, on a flat one `not_changed`. */
  lemma MonotoneTrend(trend: seq<real>, lookBack: int)
    requires lookBack >= 1 && |trend| >= lookBack + 1
    ensures (forall i, j :: 0 <= i < j < |trend| ==> trend[i] < trend[j]) ==> Classify(trend, lookBack) == Upward
    ensures (forall i, j :: 0 <= i < j < |trend| ==> trend[i] > trend[j]) ==> Classify(trend, lookBack) == Downward
    ensures (forall i, j :: 0 <= i < j < |trend| ==> trend[i] == trend[j]) ==> Classify(trend, lookBack) == NotChanged
  {
    ClassifySpec(trend, lookBack);
  }

  /** The fitted curve at the day numbers of the points, `linreg_model.predict(...)`. */
  function CurveAt(curve: int -> real, xs: seq<int>): (t: seq<real>)
    ensures |t| == |xs| && forall i :: 0 <= i < |xs| ==> t[i] == curve(xs[i])
  {
    seq(|xs|, i requires 0 <= i < |xs| => curve(xs[i]))
  }

  /** `get_trend_pred(united_samples, look_back)`. Fitting no points raises in sklearn. */
  function GetTrendPred<V>(rows: seq<Row<V>>, lookBack: int, fit: Fit<V>): (r: Result<Trend>)
    requires HasLabels(rows)
    ensures ShiftBack(DateColumn(rows)).Err? ==> r == Err(ShiftBack(DateColumn(rows)).error)
    ensures ShiftBack(DateColumn(rows)).Ok? ==>
              (r == Err(InsufficientHistory) <==> |Points(rows).value.0| == 0)
    ensures r.Ok? ==>
              var pts := Points(rows).value;
              |pts.0| >= 1 && r.value == Classify(CurveAt(fit(pts.0, pts.1), pts.0), lookBack)
  {
    var pts :- Points(rows);
    if |pts.0| == 0 then Err(InsufficientHistory)
    else Ok(Classify(CurveAt(fit(pts.0, pts.1), pts.0), lookBack))
  }

  /** Nothing is fitted when no moved date passes the filter. */
  lemma NoPointsBeforeOnset<V>(rows: seq<Row<V>>, lookBack: int, fit: Fit<V>)
    requires HasLabels(rows) && ShiftBack(DateColumn(rows)).Ok?
    ensures GetTrendPred(rows, lookBack, fit) == Err(InsufficientHistory) <==>
              forall i :: 0 <= i < |rows| ==> !AfterOnset(ShiftBack(DateColumn(rows)).value[i])
  {
    PointsSpec(rows);
    var moved := ShiftBack(DateColumn(rows)).value;
    var ks := KeptIndices(Mask(moved));
    if |ks| > 0 {
      assert AfterOnset(moved[ks[0]]);
    }
  }

  /** With the table's dates strictly increasing, a fitted curve that rises with the day
      number, and at least `look_back + 1` kept rows, the trend is `upward`. */
  lemma RisingCurveIsUpward<V>(rows: seq<Row<V>>, lookBack: int, fit: Fit<V>)
    requires HasLabels(rows) && ShiftBack(DateColumn(rows)).Ok? && lookBack >= 1
    requires forall i, j :: 0 <= i < j < |rows| ==>
               Parse(rows[i].date).Ok? && Parse(rows[j].date).Ok?
               && Ordinal(Parse(rows[i].date).value) < Ordinal(Parse(rows[j].date).value)
    requires Points(rows).Ok? && |Points(rows).value.0| >= lookBack + 1
    requires var pts := Points(rows).value;
             forall x, y :: x < y ==> fit(pts.0, pts.1)(x) < fit(pts.0, pts.1)(y)
    ensures GetTrendPred(rows, lookBack, fit) == Ok(Upward)
  {
    PointsSpec(rows);
    var pts := Points(rows).value;
    var ks := KeptIndices(Mask(ShiftBack(DateColumn(rows)).value));
    var curve := fit(pts.0, pts.1);
    var t := CurveAt(curve, pts.0);
    forall i, j | 0 <= i < j < |t| ensures t[i] < t[j] {
      assert ks[i] < ks[j];
      assert pts.0[i] < pts.0[j];
    }
    MonotoneTrend(t, lookBack);
  }
}
