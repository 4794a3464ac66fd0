/** The text form of dates in `backend/ML/utils.py`: `DATE_FORMAT = '%Y-%m-%d'`, the
    complete extended calendar-date form of ISO 8601:2004 (section 4.1.2.2), read by
    `datetime.strptime` and written by `datetime.strftime`, and `change_date`, which
    shifts such a string by a number of days. */
module DateFormat {
  import opened Errors
  import opened Calendar

  /** `timedelta(days = k)` refuses |k| above this with OverflowError. */
  const MaxTimedeltaDays := 999999999

  predicate IsDigit(c: char) { '0' <= c <= '9' }

  predicate AllDigits(s: string) { forall i :: 0 <= i < |s| ==> IsDigit(s[i]) }

  function DigitValue(c: char): int { c as int - '0' as int }

  function DigitChar(x: int): (c: char)
    requires 0 <= x <= 9
    ensures IsDigit(c) && DigitValue(c) == x
  {
    ('0' as int + x) as char
  }

  function Pow10(w: nat): nat { if w == 0 then 1 else 10 * Pow10(w - 1) }

  /** The value of a string of decimal digits, as Python's `int`. */
  function Number(s: string): int
  {
    if |s| == 0 then 0 else Number(s[..|s| - 1]) * 10 + DigitValue(s[|s| - 1])
  }

  /** `n` written with exactly `w` digits, zero-padded on the left. */
  function Pad(n: nat, w: nat): (p: string)
    ensures |p| == w && AllDigits(p)
  {
    if w == 0 then [] else Pad(n / 10, w - 1) + [DigitChar(n % 10)]
  }

  lemma {:induction false} NumberOfPad(n: nat, w: nat)
    requires n < Pow10(w)
    ensures |Pad(n, w)| == w && AllDigits(Pad(n, w)) && Number(Pad(n, w)) == n
  {
    if w > 0 {
      NumberOfPad(n / 10, w - 1);
      var p := Pad(n, w);
      assert p[..w - 1] == Pad(n / 10, w - 1);
    }
  }

  lemma {:induction false} PadOfNumber(s: string)
    requires AllDigits(s)
    ensures Number(s) >= 0 && Pad(Number(s), |s|) == s
  {
    if |s| > 0 {
      var init := s[..|s| - 1];
      PadOfNumber(init);
      var n := Number(s);
      assert n / 10 == Number(init) && n % 10 == DigitValue(s[|s| - 1]);
      assert s == init + [s[|s| - 1]];
    }
  }

  /** The `%m` directive of CPython's strptime: `1[0-2]|0[1-9]|[1-9]`. */
  predicate MonthField(t: string) {
    (|t| == 1 && '1' <= t[0] <= '9')
    || (|t| == 2 && ((t[0] == '1' && '0' <= t[1] <= '2') || (t[0] == '0' && '1' <= t[1] <= '9')))
  }

  /** The `%d` directive of CPython's strptime: `3[01]|[12]\d|0[1-9]|[1-9]| [1-9]`. */
  predicate DayField(t: string) {
    (|t| == 1 && '1' <= t[0] <= '9')
    || (|t| == 2 && ((t[0] == '3' && (t[1] == '0' || t[1] == '1'))
                     || ((t[0] == '1' || t[0] == '2') && IsDigit(t[1]))
                     || (t[0] == '0' && '1' <= t[1] <= '9')
                     || (t[0] == ' ' && '1' <= t[1] <= '9')))
  }

  /** `int()` of a matched field; `int` skips the leading blank of `' 7'`. */
  function FieldValue(t: string): int
    requires |t| > 0
  {
    if t[0] == ' ' then Number(t[1..]) else Number(t)
  }

  /** `datetime.strptime(s, '%Y-%m-%d')`: four digits, a dash, a month field, a dash and a
      day field that consume the whole string, naming a day that exists. */
  function Parse(s: string): (r: Result<Date>)
    ensures r.Ok? ==> Valid(r.value)
    ensures r.Err? ==> r.error == InvalidDateFormat
  {
    if |s| < 8 || !AllDigits(s[..4]) || s[4] != '-' then Err(InvalidDateFormat)
    else
      // the month field is one or two characters long, so the second dash is at 6 or 7
      var j := if s[6] == '-' then 6 else 7;
      if s[j] != '-' || j + 1 >= |s| then Err(InvalidDateFormat)
      else
        var m, t := s[5..j], s[j + 1..];
        if !MonthField(m) || !DayField(t) then Err(InvalidDateFormat)
        else
          var d := Date(Number(s[..4]), FieldValue(m), FieldValue(t));
          if Valid(d) then Ok(d) else Err(InvalidDateFormat)
  }

  /** `datetime.strftime(d, '%Y-%m-%d')`: always the canonical `YYYY-MM-DD` shape. */
  function Format(d: Date): (s: string)
    requires Valid(d)
    ensures IsCanonical(s)
  {
    Pad(d.year, 4) + "-" + Pad(d.month, 2) + "-" + Pad(d.day, 2)
  }

  /** The canonical `YYYY-MM-DD` shape. */
  predicate IsCanonical(s: string) {
    |s| == 10 && AllDigits(s[..4]) && s[4] == '-' && AllDigits(s[5..7]) && s[7] == '-' && AllDigits(s[8..])
  }

  lemma FormatFields(d: Date)
    requires Valid(d)
    ensures |Format(d)| == 10
    ensures Format(d)[..4] == Pad(d.year, 4) && Format(d)[5..7] == Pad(d.month, 2) && Format(d)[8..] == Pad(d.day, 2)
    ensures Number(Format(d)[..4]) == d.year && Number(Format(d)[5..7]) == d.month && Number(Format(d)[8..]) == d.day
    ensures IsCanonical(Format(d))
  {
    NumberOfPad(d.year, 4);
    NumberOfPad(d.month, 2);
    NumberOfPad(d.day, 2);
  }

  lemma NumberOfTwo(s: string)
    requires |s| == 2
    ensures Number(s) == DigitValue(s[0]) * 10 + DigitValue(s[1])
  {
    var a := s[..1];
    assert a[..0] == [];
    assert Number(a) == DigitValue(s[0]);
  }

  lemma NumberOfFour(s: string)
    requires |s| == 4
    ensures Number(s) == DigitValue(s[0]) * 1000 + DigitValue(s[1]) * 100 + DigitValue(s[2]) * 10 + DigitValue(s[3])
  {
    NumberOfTwo(s[..2]);
    assert s[..3][..2] == s[..2];
  }

  /** A zero-padded month is a `%m` field with the month's value. */
  lemma MonthFieldOfPad(m: int)
    requires 1 <= m <= 12
    ensures MonthField(Pad(m, 2)) && FieldValue(Pad(m, 2)) == m
  {
    var t := Pad(m, 2);
    NumberOfPad(m, 2);
    NumberOfTwo(t);
    assert IsDigit(t[0]) && IsDigit(t[1]);
    assert m == DigitValue(t[0]) * 10 + DigitValue(t[1]);
  }

  /** A zero-padded day is a `%d` field with the day's value. */
  lemma DayFieldOfPad(d: int)
    requires 1 <= d <= 31
    ensures DayField(Pad(d, 2)) && FieldValue(Pad(d, 2)) == d
  {
    var t := Pad(d, 2);
    NumberOfPad(d, 2);
    NumberOfTwo(t);
    assert IsDigit(t[0]) && IsDigit(t[1]);
    assert d == DigitValue(t[0]) * 10 + DigitValue(t[1]);
  }

  /** Reading back what strftime wrote gives the same date. */
  lemma ParseFormat(d: Date)
    requires Valid(d)
    ensures Parse(Format(d)) == Ok(d)
  {
    FormatFields(d);
    MonthFieldOfPad(d.month);
    DayFieldOfPad(d.day);
    var s := Format(d);
    var m, t := Pad(d.month, 2), Pad(d.day, 2);
    assert s[6] == m[1] && IsDigit(m[1]);
    assert s[4] == '-' && s[7] == '-';
    assert s[5..7] == m && s[8..] == t;
  }

  /** A canonical string that parses is exactly what strftime writes for its date. */
  lemma FormatParse(s: string)
    requires IsCanonical(s) && Parse(s).Ok?
    ensures Format(Parse(s).value) == s
  {
    var d := Parse(s).value;
    assert s[6] != '-';
    PadOfNumber(s[..4]);
    PadOfNumber(s[5..7]);
    PadOfNumber(s[8..]);
    assert s == s[..4] + "-" + s[5..7] + "-" + s[8..];
  }

  lemma FormatInjective(a: Date, b: Date)
    requires Valid(a) && Valid(b) && Format(a) == Format(b)
    ensures a == b
  {
    ParseFormat(a);
    ParseFormat(b);
  }

  /** `change_date(date, delta_days)`: parse, add `delta_days` days, format. */
  function ChangeDate(s: string, k: int): (r: Result<string>)
    ensures (k < -MaxTimedeltaDays || k > MaxTimedeltaDays) ==> r == Err(DateOutOfRange)
    ensures -MaxTimedeltaDays <= k <= MaxTimedeltaDays && Parse(s).Err? ==> r == Err(InvalidDateFormat)
    ensures Parse(s).Ok? ==> (r.Ok? <==> 1 <= Ordinal(Parse(s).value) + k <= MaxOrdinal)
    ensures r.Ok? ==> IsCanonical(r.value) && Parse(s).Ok? && Parse(r.value).Ok?
                      && Ordinal(Parse(r.value).value) == Ordinal(Parse(s).value) + k
  {
    if k < -MaxTimedeltaDays || k > MaxTimedeltaDays then Err(DateOutOfRange)
    else
      var d :- Parse(s);
      var e :- Shift(d, k);
      FormatFields(e);
      ParseFormat(e);
      Ok(Format(e))
  }

  /** `change_date(d, 0)` gives back a canonical date; a lenient spelling comes back canonical. */
  lemma ChangeDateZero(s: string)
    requires Parse(s).Ok?
    ensures ChangeDate(s, 0) == Ok(Format(Parse(s).value))
    ensures IsCanonical(s) ==> ChangeDate(s, 0) == Ok(s)
  {
    var d := Parse(s).value;
    ShiftByOrdinal(d, 0, d);
    if IsCanonical(s) {
      FormatParse(s);
    }
  }

  /** On a string strftime wrote, `change_date` is a shift of its date. */
  lemma ChangeDateOfFormat(d: Date, k: int)
    requires Valid(d) && -MaxTimedeltaDays <= k <= MaxTimedeltaDays
    ensures Shift(d, k).Ok? ==> ChangeDate(Format(d), k) == Ok(Format(Shift(d, k).value))
    ensures Shift(d, k).Err? ==> ChangeDate(Format(d), k) == Err(DateOutOfRange)
  {
    ParseFormat(d);
  }

  /** `change_date(change_date(d, k), -k) == d` for a canonical d whenever the first call succeeds. */
  lemma ChangeDateRoundTrip(s: string, k: int)
    requires IsCanonical(s) && ChangeDate(s, k).Ok?
    ensures ChangeDate(ChangeDate(s, k).value, -k) == Ok(s)
  {
    var d := Parse(s).value;
    FormatParse(s);
    assert s == Format(d);
    ChangeDateOfFormat(d, k);
    var e := Shift(d, k).value;
    ChangeDateOfFormat(e, -k);
    ShiftRoundTrip(d, k);
  }

  /** `change_date(d, 1)` is the calendar successor of d, and fails only after 9999-12-31. */
  lemma ChangeDateSuccessor(s: string)
    requires Parse(s).Ok?
    ensures ChangeDate(s, 1) == (match Succ(Parse(s).value)
                                  case Ok(e) => Ok(Format(e))
                                  case Err(x) => Err(x))
  {
    ShiftOneIsSuccessor(Parse(s).value);
  }

  /** strptime accepts the zero-padded form and also one-digit and blank-padded fields. */
  lemma ParseAcceptsLenientFields()
    ensures Parse("2020-04-01") == Ok(Date(2020, 4, 1))
    ensures Parse("2020-4-1") == Ok(Date(2020, 4, 1))
    ensures Parse("2020-04- 1") == Ok(Date(2020, 4, 1))
  {
    NumberOfFour("2020");
    NumberOfTwo("04");
    NumberOfTwo("01");
    assert Number("4") == 4 && Number("1") == 1;
    assert "2020-04-01"[..4] == "2020" && "2020-04-01"[5..7] == "04" && "2020-04-01"[8..] == "01";
    assert "2020-4-1"[..4] == "2020" && "2020-4-1"[5..6] == "4" && "2020-4-1"[7..] == "1";
    assert "2020-04- 1"[..4] == "2020" && "2020-04- 1"[5..7] == "04" && "2020-04- 1"[8..] == " 1";
    assert " 1"[1..] == "1";
  }

  /** strptime refuses days that do not exist and year 0. */
  lemma ParseRefusesMissingDays()
    ensures Parse("2020-02-30").Err? && Parse("2021-02-29").Err? && Parse("0000-01-01").Err?
  {
    NumberOfFour("2020");
    NumberOfFour("2021");
    NumberOfFour("0000");
    NumberOfTwo("02");
    NumberOfTwo("30");
    NumberOfTwo("29");
    assert "2020-02-30"[..4] == "2020" && "2020-02-30"[5..7] == "02" && "2020-02-30"[8..] == "30";
    assert "2021-02-29"[..4] == "2021" && "2021-02-29"[5..7] == "02" && "2021-02-29"[8..] == "29";
    assert "0000-01-01"[..4] == "0000";
  }

  /** strptime refuses month 13, a short year and trailing text. */
  lemma ParseRefusesMalformed()
    ensures Parse("2020-13-01").Err? && Parse("20-04-01").Err? && Parse("2020-04-01 ").Err?
  {
    assert "2020-13-01"[5..7] == "13";
    assert "20-04-01"[2] == '-';
    assert "2020-04-01 "[8..] == "01 ";
  }

  lemma FormatExample()
    ensures Format(Date(2020, 4, 1)) == "2020-04-01"
  {
    ParseAcceptsLenientFields();
    FormatParse("2020-04-01");
  }

  /** `change_date` writes a leniently spelled date back in canonical form. */
  lemma ChangeDateCanonicalizes()
    ensures ChangeDate("2020-4-1", 0) == Ok("2020-04-01")
  {
    ParseAcceptsLenientFields();
    ChangeDateZero("2020-4-1");
    FormatExample();
  }
}
