/** Calendar dates as the source handles them with Python's `datetime`: parsing the
    league start date with `strptime(s, "%Y-%m-%d")`, adding whole days with
    `timedelta` (which Python does on proleptic Gregorian ordinals and which overflows
    past 9999-12-31), and printing with `strftime("%Y-%m-%d...")`. */
module CivilDate {
  import opened Wrappers
  import opened Digits
  import Lex

  datatype Date = Date(year: int, month: int, day: int)

  const MaxYear := 9999
  /** The ordinal of 9999-12-31, Python's `date.max.toordinal()`. */
  const MaxOrdinal := 3652059

  predicate IsLeapYear(y: int) {
    y % 4 == 0 && (y % 100 != 0 || y % 400 == 0)
  }

  function DaysInYear(y: int): int {
    if IsLeapYear(y) then 366 else 365
  }

  function DaysInMonth(y: int, m: int): (n: int)
    requires 1 <= m <= 12
    ensures 28 <= n <= 31
  {
    if m == 2 then (if IsLeapYear(y) then 29 else 28)
    else if m == 4 || m == 6 || m == 9 || m == 11 then 30
    else 31
  }

  /** The dates `datetime` can represent. */
  predicate Valid(d: Date) {
    && 1 <= d.year <= MaxYear
    && 1 <= d.month <= 12
    && 1 <= d.day <= DaysInMonth(d.year, d.month)
  }

  /** Calendar order: year, then month, then day. */
  predicate Before(a: Date, b: Date) {
    || a.year < b.year
    || (a.year == b.year && a.month < b.month)
    || (a.year == b.year && a.month == b.month && a.day < b.day)
  }

  /** Days in the years before `y`, counted from 0001-01-01. */
  function DaysBeforeYear(y: int): int
    requires y >= 1
  {
    var p := y - 1;
    p * 365 + p / 4 - p / 100 + p / 400
  }

  /** Days in the months of year `y` before month `m`: Python's cumulative month
      table, with the leap day counted from March on. */
  function DaysBeforeMonth(y: int, m: int): int
    requires 1 <= m <= 12
  {
    [0, 0, 31, 59, 90, 120, 151, 181, 212, 243, 273, 304, 334][m] + (if m > 2 && IsLeapYear(y) then 1 else 0)
  }

  /** Python's `date.toordinal()`: 0001-01-01 is day 1. */
  function ToOrdinal(d: Date): int
    requires Valid(d)
  {
    DaysBeforeYear(d.year) + DaysBeforeMonth(d.year, d.month) + d.day
  }

  lemma MaxOrdinalIsLastDay()
    ensures Valid(Date(MaxYear, 12, 31)) && ToOrdinal(Date(MaxYear, 12, 31)) == MaxOrdinal
  {
  }

  lemma DaysBeforeYearStep(y: int)
    requires y >= 1
    ensures DaysBeforeYear(y + 1) == DaysBeforeYear(y) + DaysInYear(y)
  {
    var p := y - 1;
    assert y / 4 == p / 4 + (if y % 4 == 0 then 1 else 0);
    assert y / 100 == p / 100 + (if y % 100 == 0 then 1 else 0);
    assert y / 400 == p / 400 + (if y % 400 == 0 then 1 else 0);
  }

  lemma {:induction false} DaysBeforeYearMonotone(y: int, z: int)
    requires 1 <= y <= z
    ensures DaysBeforeYear(y) + (z - y) * 365 <= DaysBeforeYear(z)
    decreases z - y
  {
    if y < z {
      DaysBeforeYearStep(y);
      DaysBeforeYearMonotone(y + 1, z);
    }
  }

  /** The days before the following month, or the whole year after December. */
  lemma MonthEnd(y: int, m: int)
    requires 1 <= m <= 12
    ensures m < 12 ==> DaysBeforeMonth(y, m) + DaysInMonth(y, m) == DaysBeforeMonth(y, m + 1)
    ensures m == 12 ==> DaysBeforeMonth(y, m) + DaysInMonth(y, m) == DaysInYear(y)
  {
  }

  lemma {:induction false} DaysBeforeMonthMonotone(y: int, m: int, n: int)
    requires 1 <= m <= n <= 12
    ensures DaysBeforeMonth(y, m) + (n - m) * 28 <= DaysBeforeMonth(y, n)
    decreases n - m
  {
    if m < n {
      MonthEnd(y, n - 1);
      DaysBeforeMonthMonotone(y, m, n - 1);
    }
  }

  /** The ordinal of a valid date lies inside its year. */
  lemma OrdinalWithinYear(d: Date)
    requires Valid(d)
    ensures DaysBeforeYear(d.year) < ToOrdinal(d) <= DaysBeforeYear(d.year + 1)
  {
    DaysBeforeMonthMonotone(d.year, d.month, 12);
    MonthEnd(d.year, 12);
    DaysBeforeYearStep(d.year);
  }

  /** Ordinals follow calendar order, so distinct dates have distinct ordinals. */
  lemma OrdinalMonotone(a: Date, b: Date)
    requires Valid(a) && Valid(b) && Before(a, b)
    ensures ToOrdinal(a) < ToOrdinal(b)
  {
    if a.year < b.year {
      OrdinalWithinYear(a);
      OrdinalWithinYear(b);
      DaysBeforeYearMonotone(a.year + 1, b.year);
    } else if a.month < b.month {
      MonthEnd(a.year, a.month);
      DaysBeforeMonthMonotone(a.year, a.month + 1, b.month);
    }
  }

  lemma OrdinalInjective(a: Date, b: Date)
    requires Valid(a) && Valid(b) && ToOrdinal(a) == ToOrdinal(b)
    ensures a == b
  {
    if Before(a, b) {
      OrdinalMonotone(a, b);
    } else if Before(b, a) {
      OrdinalMonotone(b, a);
    }
  }

  lemma OrdinalBound(d: Date)
    requires Valid(d)
    ensures 1 <= ToOrdinal(d) <= MaxOrdinal
  {
    MaxOrdinalIsLastDay();
    if d != Date(MaxYear, 12, 31) {
      OrdinalMonotone(d, Date(MaxYear, 12, 31));
    }
    OrdinalWithinYear(d);
  }

  /** The following day, or None past 9999-12-31. */
  function NextDay(d: Date): (r: Option<Date>)
    requires Valid(d)
    ensures r.None? <==> d == Date(MaxYear, 12, 31)
    ensures r.Some? ==> Valid(r.value) && ToOrdinal(r.value) == ToOrdinal(d) + 1
  {
    if d.day < DaysInMonth(d.year, d.month) then
      Some(Date(d.year, d.month, d.day + 1))
    else if d.month < 12 then
      MonthEnd(d.year, d.month);
      Some(Date(d.year, d.month + 1, 1))
    else if d.year < MaxYear then
      MonthEnd(d.year, 12);
      DaysBeforeYearStep(d.year);
      Some(Date(d.year + 1, 1, 1))
    else
      None
  }

  /** `d + timedelta(days=k)`: Python computes it as `date.fromordinal(d.toordinal() + k)`,
      which raises OverflowError (None here) when the ordinal passes `MaxOrdinal`. */
  function AddDays(d: Date, k: nat): (r: Option<Date>)
    requires Valid(d)
    ensures r.Some? <==> ToOrdinal(d) + k <= MaxOrdinal
    ensures r.Some? ==> Valid(r.value) && ToOrdinal(r.value) == ToOrdinal(d) + k
  {
    if k == 0 then
      OrdinalBound(d);
      Some(d)
    else
      match AddDays(d, k - 1)
      case None => None
      case Some(x) =>
        NextDayOverflow(x);
        NextDay(x)
  }

  /** The day after `x` exists exactly when `x`'s ordinal is below the last one. */
  lemma NextDayOverflow(x: Date)
    requires Valid(x)
    ensures NextDay(x).Some? <==> ToOrdinal(x) + 1 <= MaxOrdinal
  {
    OrdinalBound(x);
    MaxOrdinalIsLastDay();
    if ToOrdinal(x) == MaxOrdinal {
      OrdinalInjective(x, Date(MaxYear, 12, 31));
    }
  }

  /** `strftime("%Y-%m-%d")`. */
  function Format(d: Date): (r: string)
    requires Valid(d)
    ensures |r| == 10
  {
    Pad(d.year, 4) + ("-" + (Pad(d.month, 2) + ("-" + Pad(d.day, 2))))
  }

  /** Formatted dates sort as strings in calendar order. */
  lemma FormatOrder(a: Date, b: Date)
    requires Valid(a) && Valid(b) && Before(a, b)
    ensures Lex.Less(Format(a), Format(b))
  {
    var ta := "-" + (Pad(a.month, 2) + ("-" + Pad(a.day, 2)));
    var tb := "-" + (Pad(b.month, 2) + ("-" + Pad(b.day, 2)));
    if a.year < b.year {
      PadMonotone(a.year, b.year, 4);
      Lex.EqualLengthHead(Pad(a.year, 4), Pad(b.year, 4), ta, tb);
    } else if a.month < b.month {
      PadMonotone(a.month, b.month, 2);
      Lex.EqualLengthHead(Pad(a.month, 2), Pad(b.month, 2), "-" + Pad(a.day, 2), "-" + Pad(b.day, 2));
      Lex.CommonPrefix("-", Pad(a.month, 2) + ("-" + Pad(a.day, 2)), Pad(b.month, 2) + ("-" + Pad(b.day, 2)));
      Lex.CommonPrefix(Pad(a.year, 4), ta, tb);
    } else {
      PadMonotone(a.day, b.day, 2);
      Lex.CommonPrefix("-", Pad(a.day, 2), Pad(b.day, 2));
      Lex.CommonPrefix(Pad(a.month, 2), "-" + Pad(a.day, 2), "-" + Pad(b.day, 2));
      Lex.CommonPrefix("-", Pad(a.month, 2) + ("-" + Pad(a.day, 2)), Pad(b.month, 2) + ("-" + Pad(b.day, 2)));
      Lex.CommonPrefix(Pad(a.year, 4), ta, tb);
    }
  }

  /** `%m`: the first of the alternatives `1[0-2]`, `0[1-9]`, `[1-9]` that matches,
      with what follows it. */
  function MatchMonth(s: string): (r: Option<(int, string)>)
    ensures r.Some? ==> 1 <= r.value.0 <= 12 && |r.value.1| < |s| && r.value.1 == s[|s| - |r.value.1|..]
  {
    if |s| >= 2 && s[0] == '1' && '0' <= s[1] <= '2' then Some((10 + DigitValue(s[1]), s[2..]))
    else if |s| >= 2 && s[0] == '0' && '1' <= s[1] <= '9' then Some((DigitValue(s[1]), s[2..]))
    else if |s| >= 1 && '1' <= s[0] <= '9' then Some((DigitValue(s[0]), s[1..]))
    else None
  }

  /** `%d`: the first of the alternatives `3[0-1]`, `[1-2]\d`, `0[1-9]`, `[1-9]`,
      ` [1-9]` that matches, with what follows it. */
  function MatchDay(s: string): (r: Option<(int, string)>)
    ensures r.Some? ==> 1 <= r.value.0 <= 31 && |r.value.1| < |s| && r.value.1 == s[|s| - |r.value.1|..]
  {
    if |s| >= 2 && s[0] == '3' && '0' <= s[1] <= '1' then Some((30 + DigitValue(s[1]), s[2..]))
    else if |s| >= 2 && '1' <= s[0] <= '2' && IsDigit(s[1]) then Some((10 * DigitValue(s[0]) + DigitValue(s[1]), s[2..]))
    else if |s| >= 2 && s[0] == '0' && '1' <= s[1] <= '9' then Some((DigitValue(s[1]), s[2..]))
    else if |s| >= 1 && '1' <= s[0] <= '9' then Some((DigitValue(s[0]), s[1..]))
    else if |s| >= 2 && s[0] == ' ' && '1' <= s[1] <= '9' then Some((DigitValue(s[1]), s[2..]))
    else None
  }

  /** `datetime.strptime(s, "%Y-%m-%d")`; None where Python raises ValueError: the
      text does not match, text remains after the day, or the date does not exist. */
  function Parse(s: string): (r: Option<Date>)
    ensures r.Some? ==> Valid(r.value)
  {
    if |s| < 5 || !AllDigits(s[..4]) || s[4] != '-' then None
    else
      match MatchMonth(s[5..])
      case None => None
      case Some((m, rest)) =>
        if |rest| == 0 || rest[0] != '-' then None
        else
          match MatchDay(rest[1..])
          case None => None
          case Some((d, tail)) =>
            var date := Date(Value(s[..4]), m, d);
            if tail == [] && Valid(date) then Some(date) else None
  }

  lemma Pad2(x: nat)
    ensures Pad(x, 2) == [DigitChar(x / 10 % 10), DigitChar(x % 10)]
  {
    assert Pad(x / 100, 0) == [];
  }

  lemma MatchMonthPad(m: int, t: string)
    requires 1 <= m <= 12
    ensures MatchMonth(Pad(m, 2) + t) == Some((m, t))
  {
    Pad2(m);
    var u := Pad(m, 2) + t;
    assert u[2..] == t;
    if m >= 10 {
      assert u[0] == '1' && DigitValue(u[1]) == m - 10;
    } else {
      assert u[0] == '0' && DigitValue(u[1]) == m;
    }
  }

  lemma MatchDayPad(d: int)
    requires 1 <= d <= 31
    ensures MatchDay(Pad(d, 2)) == Some((d, []))
  {
    Pad2(d);
    var u := Pad(d, 2);
    if d >= 30 {
      assert u[0] == '3' && DigitValue(u[1]) == d - 30;
    } else if d >= 10 {
      assert DigitValue(u[0]) == d / 10 && DigitValue(u[1]) == d % 10;
      assert u[0] != '3';
    } else {
      assert u[0] == '0' && DigitValue(u[1]) == d;
    }
  }

  /** Parsing reads back every formatted date. */
  lemma ParseFormat(d: Date)
    requires Valid(d)
    ensures Parse(Format(d)) == Some(d)
  {
    var s := Format(d);
    PadValue(d.year, 4);
    assert s[..4] == Pad(d.year, 4);
    var dayPart := "-" + Pad(d.day, 2);
    assert s[5..] == Pad(d.month, 2) + dayPart;
    MatchMonthPad(d.month, dayPart);
    assert dayPart[1..] == Pad(d.day, 2);
    MatchDayPad(d.day);
  }

  /** A month field of two characters is the zero-padded month. */
  lemma MonthTwoChars(u: string)
    requires MatchMonth(u).Some? && |MatchMonth(u).value.1| == |u| - 2
    ensures u[..2] == Pad(MatchMonth(u).value.0, 2)
  {
    Pad2(MatchMonth(u).value.0);
    DigitRoundTrip(u[1]);
  }

  /** A day field of two characters that does not start with a space is the
      zero-padded day. */
  lemma DayTwoChars(u: string)
    requires MatchDay(u).Some? && |MatchDay(u).value.1| == |u| - 2 && u[0] != ' '
    ensures u[..2] == Pad(MatchDay(u).value.0, 2)
  {
    Pad2(MatchDay(u).value.0);
    DigitRoundTrip(u[0]);
    DigitRoundTrip(u[1]);
  }

  /** A ten-character date with no space before the day is the canonical form
      `strftime` gives back. */
  lemma FormatParse(s: string, d: Date)
    requires Parse(s) == Some(d) && |s| == 10 && s[8] != ' '
    ensures Format(d) == s
  {
    var rest := MatchMonth(s[5..]).value.1;
    var tail := MatchDay(rest[1..]).value.1;
    assert |rest| == 3 && tail == [];
    MonthTwoChars(s[5..]);
    assert rest[1..] == s[8..];
    DayTwoChars(s[8..]);
    PadValue(d.year, 4);
    PadValueInjective(s[..4], Pad(d.year, 4));
    assert s == s[..4] + ("-" + (s[5..7] + ("-" + s[8..])));
  }

  /** Two digit strings of one length with one value are equal. */
  lemma {:induction false} PadValueInjective(s: string, t: string)
    requires AllDigits(s) && AllDigits(t) && |s| == |t| && Value(s) == Value(t)
    ensures s == t
  {
    if |s| > 0 {
      var n := |s| - 1;
      assert Value(s[..n]) == Value(t[..n]) && DigitValue(s[n]) == DigitValue(t[n]);
      PadValueInjective(s[..n], t[..n]);
      assert s == s[..n] + [s[n]] && t == t[..n] + [t[n]];
    }
  }
}
