// Calendar arithmetic behind the date columns, the date filters and the
// month calendar: proleptic Gregorian dates, day numbers counted from
// 1970-01-01, weeks starting on Monday, and the 'YYYY-MM-DD' text form
// the date columns and date inputs use. Local time is taken to be UTC.

module Dates {

  import opened Optional

  /** Milliseconds in a day: instants are milliseconds since the epoch. */
  const MsPerDay: int := 86400000

  datatype Civil = Civil(year: nat, month: nat, day: nat)

  predicate IsLeap(y: nat)
  {
    y % 4 == 0 && (y % 100 != 0 || y % 400 == 0)
  }

  function YearLength(y: nat): nat
  {
    if IsLeap(y) then 366 else 365
  }

  function DaysInMonth(y: nat, m: int): (n: int)
    requires 1 <= m <= 12
    ensures 28 <= n <= 31
  {
    if m == 2 then (if IsLeap(y) then 29 else 28)
    else if m == 4 || m == 6 || m == 9 || m == 11 then 30
    else 31
  }

  predicate ValidCivil(c: Civil)
  {
    1 <= c.month <= 12 && 1 <= c.day <= DaysInMonth(c.year, c.month)
  }

  /** Days from 0000-01-01 to the first of January of year y. */
  function DaysBeforeYear(y: nat): nat
  {
    365 * y + (y + 3) / 4 - (y + 99) / 100 + (y + 399) / 400
  }

  /** Days from the first of January to the first of month m (m == 13 is the next year). */
  function DaysBeforeMonth(y: nat, m: int): (n: nat)
    requires 1 <= m <= 13
  {
    (match m
     case 1 => 0 case 2 => 31 case 3 => 59 case 4 => 90 case 5 => 120 case 6 => 151
     case 7 => 181 case 8 => 212 case 9 => 243 case 10 => 273 case 11 => 304 case 12 => 334
     case _ => 365)
    + (if m > 2 && IsLeap(y) then 1 else 0)
  }

  /** The day number of 1970-01-01 counted from 0000-01-01. */
  const Epoch: nat := 719528

  /** Day number of a date: days since 1970-01-01, negative before it. */
  function Days(c: Civil): int
    requires ValidCivil(c)
  {
    DaysBeforeYear(c.year) + DaysBeforeMonth(c.year, c.month) + c.day - 1 - Epoch
  }

  lemma EpochIsJanuaryFirst1970()
    ensures Days(Civil(1970, 1, 1)) == 0
  {
  }

  lemma DaysBeforeYearStep(y: nat)
    ensures DaysBeforeYear(y + 1) == DaysBeforeYear(y) + YearLength(y)
  {
    CeilingStep(y, 4);
    CeilingStep(y, 100);
    CeilingStep(y, 400);
    assert DaysBeforeYear(y + 1) - DaysBeforeYear(y)
      == 365 + ((y + 4) / 4 - (y + 3) / 4) - ((y + 100) / 100 - (y + 99) / 100) + ((y + 400) / 400 - (y + 399) / 400);
    MultipleNesting(y);
  }

  /** A multiple of 400 is one of 100, and a multiple of 100 one of 4. */
  lemma MultipleNesting(y: nat)
    ensures y % 400 == 0 ==> y % 100 == 0
    ensures y % 100 == 0 ==> y % 4 == 0
  {
    if y % 400 == 0 {
      var q := y / 400;
      assert y == 100 * (4 * q);
    }
    if y % 100 == 0 {
      var q := y / 100;
      assert y == 4 * (25 * q);
    }
  }

  /** Counting multiples of d: one more is passed exactly when y is one. */
  lemma CeilingStep(y: nat, d: nat)
    requires d == 4 || d == 100 || d == 400
    ensures (y + d) / d - (y + d - 1) / d == if y % d == 0 then 1 else 0
  {
    var q, r := y / d, y % d;
    assert y == q * d + r && 0 <= r < d;
    assert (y + d) / d == q + 1;
    assert (y + d - 1) / d == if r == 0 then q else q + 1;
  }

  lemma {:induction false} DaysBeforeYearMonotone(y1: nat, y2: nat)
    requires y1 < y2
    ensures DaysBeforeYear(y2) >= DaysBeforeYear(y1) + YearLength(y1)
    decreases y2 - y1
  {
    DaysBeforeYearStep(y1);
    if y1 + 1 < y2 {
      DaysBeforeYearMonotone(y1 + 1, y2);
    }
  }

  lemma DaysBeforeMonthStep(y: nat, m: int)
    requires 1 <= m <= 12
    ensures DaysBeforeMonth(y, m + 1) == DaysBeforeMonth(y, m) + DaysInMonth(y, m)
    ensures DaysBeforeMonth(y, 13) == YearLength(y)
  {
  }

  lemma DaysBeforeMonthMonotone(y: nat, m1: int, m2: int)
    requires 1 <= m1 < m2 <= 13
    ensures DaysBeforeMonth(y, m2) >= DaysBeforeMonth(y, m1) + DaysInMonth(y, m1)
  {
  }

  /** Splits n days after the first of January of year y into a year and a day of that year. */
  function YearFrom(y: nat, n: nat): (r: (nat, nat))
    ensures r.0 >= y && r.1 < YearLength(r.0)
    ensures DaysBeforeYear(r.0) + r.1 == DaysBeforeYear(y) + n
    decreases n
  {
    if n < YearLength(y) then (y, n)
    else
      DaysBeforeYearStep(y);
      YearFrom(y + 1, n - YearLength(y))
  }

  /** Splits a day of year y, counted from the first of month m, into a month and a day of that month. */
  function MonthFrom(y: nat, m: int, n: nat): (r: (int, nat))
    requires 1 <= m <= 12
    requires DaysBeforeMonth(y, m) + n < YearLength(y)
    ensures m <= r.0 <= 12 && r.1 < DaysInMonth(y, r.0)
    ensures DaysBeforeMonth(y, r.0) + r.1 == DaysBeforeMonth(y, m) + n
    decreases 12 - m
  {
    DaysBeforeMonthStep(y, m);
    if n < DaysInMonth(y, m) then (m, n)
    else MonthFrom(y, m + 1, n - DaysInMonth(y, m))
  }

  /** The date of a day number: the inverse of Days (from year 0 on). */
  function FromDays(z: int): (c: Civil)
    requires z + Epoch >= 0
    ensures ValidCivil(c) && Days(c) == z
  {
    var (y, n) := YearFrom(0, z + Epoch);
    var (m, k) := MonthFrom(y, 1, n);
    Civil(y, m, k + 1)
  }

  lemma DayOfYearBound(c: Civil)
    requires ValidCivil(c)
    ensures DaysBeforeMonth(c.year, c.month) + c.day - 1 < YearLength(c.year)
  {
    DaysBeforeMonthStep(c.year, c.month);
    if c.month < 12 {
      DaysBeforeMonthMonotone(c.year, c.month + 1, 13);
    }
  }

  /** Two valid dates with the same day number are the same date. */
  lemma DaysInjective(a: Civil, b: Civil)
    requires ValidCivil(a) && ValidCivil(b) && Days(a) == Days(b)
    ensures a == b
  {
    DayOfYearBound(a);
    DayOfYearBound(b);
    if a.year < b.year {
      DaysBeforeYearMonotone(a.year, b.year);
    } else if b.year < a.year {
      DaysBeforeYearMonotone(b.year, a.year);
    }
    assert a.year == b.year;
    if a.month < b.month {
      DaysBeforeMonthMonotone(a.year, a.month, b.month);
    } else if b.month < a.month {
      DaysBeforeMonthMonotone(a.year, b.month, a.month);
    }
  }

  lemma FromDaysDays(c: Civil)
    requires ValidCivil(c)
    ensures Days(c) + Epoch >= 0 && FromDays(Days(c)) == c
  {
    DaysInjective(FromDays(Days(c)), c);
  }

  /** The day of the month moves the day number one for one. */
  lemma DaysOfMonthDay(y: nat, m: nat, d: nat)
    requires ValidCivil(Civil(y, m, d))
    ensures Days(Civil(y, m, d)) == Days(Civil(y, m, 1)) + d - 1
  {
  }

  /** The day that contains instant t (milliseconds since the epoch). */
  function DayOf(t: int): int
  {
    t / MsPerDay
  }

  /** The first instant of day z: local midnight. */
  function DayStart(z: int): int
  {
    z * MsPerDay
  }

  lemma DayOfBounds(t: int)
    ensures DayStart(DayOf(t)) <= t < DayStart(DayOf(t) + 1)
  {
  }

  /** Day of the week, Monday 0 to Sunday 6 (1970-01-01 was a Thursday). */
  function Weekday(z: int): (w: int)
    ensures 0 <= w < 7
  {
    (z + 3) % 7
  }

  /** The Monday on or before z: startOfWeek with weeks starting on Monday. */
  function WeekStart(z: int): (s: int)
    ensures s <= z < s + 7 && Weekday(s) == 0
  {
    z - Weekday(z)
  }

  /** Every day of a week has that week's Monday as its week start. */
  lemma WeekStartOfWeek(s: int, k: int)
    requires Weekday(s) == 0 && 0 <= k < 7
    ensures WeekStart(s + k) == s
  {
  }

  /** First and last day of the month that contains c. */
  function MonthFirst(y: nat, m: int): int
    requires 1 <= m <= 12
  {
    Days(Civil(y, m, 1))
  }

  function MonthLast(y: nat, m: int): (z: int)
    requires 1 <= m <= 12
    ensures z == MonthFirst(y, m) + DaysInMonth(y, m) - 1
  {
    Days(Civil(y, m, DaysInMonth(y, m)))
  }

  /** The days of month (y, m) are exactly the days from its first to its last. */
  lemma InMonthIff(y: nat, m: int, z: int)
    requires 1 <= m <= 12
    ensures MonthFirst(y, m) <= z <= MonthLast(y, m) <==>
              z + Epoch >= 0 && FromDays(z).year == y && FromDays(z).month == m
  {
    if MonthFirst(y, m) <= z <= MonthLast(y, m) {
      var c := Civil(y, m, z - MonthFirst(y, m) + 1);
      assert Days(c) == z;
      FromDaysDays(c);
    }
    if z + Epoch >= 0 && FromDays(z).year == y && FromDays(z).month == m {
      var c := FromDays(z);
      DaysOfMonthDay(y, m, c.day);
    }
  }

  /** The month before and after (y, m); January's predecessor is the previous December. */
  function PrevMonth(y: nat, m: int): (r: (nat, int))
    requires 1 <= m <= 12
    ensures 1 <= r.1 <= 12
  {
    if m > 1 then (y, m - 1) else if y > 0 then (y - 1, 12) else (0, 1)
  }

  function NextMonth(y: nat, m: int): (r: (nat, int))
    requires 1 <= m <= 12
    ensures 1 <= r.1 <= 12
  {
    if m < 12 then (y, m + 1) else (y + 1, 1)
  }

  /** NextMonth and PrevMonth undo each other, and NextMonth starts the day after the month ends. */
  lemma MonthSteps(y: nat, m: int)
    requires 1 <= m <= 12
    ensures PrevMonth(NextMonth(y, m).0, NextMonth(y, m).1) == (y, m)
    ensures (y, m) != (0, 1) ==> NextMonth(PrevMonth(y, m).0, PrevMonth(y, m).1) == (y, m)
    ensures MonthFirst(NextMonth(y, m).0, NextMonth(y, m).1) == MonthLast(y, m) + 1
  {
    if m == 12 {
      DaysBeforeYearStep(y);
    }
  }

  predicate IsDigit(c: char)
  {
    '0' <= c <= '9'
  }

  predicate AllDigits(s: string)
  {
    forall i :: 0 <= i < |s| ==> IsDigit(s[i])
  }

  /** The decimal value of a string of digits. */
  function DigitsValue(s: string): nat
    requires AllDigits(s)
  {
    if s == [] then 0 else DigitsValue(s[..|s| - 1]) * 10 + (s[|s| - 1] as int - '0' as int)
  }

  function Pow10(w: nat): (p: nat)
    ensures p >= 1
  {
    if w == 0 then 1 else 10 * Pow10(w - 1)
  }

  /** n written with exactly w digits, zero-padded on the left. */
  function PadDigits(n: nat, w: nat): (s: string)
    ensures |s| == w && AllDigits(s)
  {
    if w == 0 then [] else PadDigits(n / 10, w - 1) + [('0' as int + n % 10) as char]
  }

  lemma {:induction false} PadDigitsValue(n: nat, w: nat)
    requires n < Pow10(w)
    ensures DigitsValue(PadDigits(n, w)) == n
    decreases w
  {
    if w > 0 {
      assert n / 10 < Pow10(w - 1);
      PadDigitsValue(n / 10, w - 1);
      var s := PadDigits(n, w);
      assert s[..|s| - 1] == PadDigits(n / 10, w - 1);
    }
  }

  lemma {:induction false} DigitsValueBound(s: string)
    requires AllDigits(s)
    ensures DigitsValue(s) < Pow10(|s|)
    decreases |s|
  {
    if s != [] {
      DigitsValueBound(s[..|s| - 1]);
    }
  }

  lemma {:induction false} PadDigitsOfValue(s: string)
    requires AllDigits(s)
    ensures PadDigits(DigitsValue(s), |s|) == s
    decreases |s|
  {
    if s != [] {
      var p := s[..|s| - 1];
      var v, d := DigitsValue(p), s[|s| - 1] as int - '0' as int;
      assert (v * 10 + d) / 10 == v && (v * 10 + d) % 10 == d;
      PadDigitsOfValue(p);
      assert s == p + [s[|s| - 1]];
    }
  }

  /** format(date, 'yyyy-MM-dd') for years of at most four digits. */
  function FormatIsoDate(c: Civil): (s: string)
    ensures |s| == 10 && s[4] == '-' && s[7] == '-'
  {
    PadDigits(c.year, 4) + "-" + PadDigits(c.month, 2) + "-" + PadDigits(c.day, 2)
  }

  /** The date a 'YYYY-MM-DD' text names, None when the text is not one or names no date. */
  function ParseCivil(s: string): (r: Option<Civil>)
    ensures r.Some? ==> ValidCivil(r.value) && r.value.year < 10000
  {
    if |s| == 10 && s[4] == '-' && s[7] == '-'
       && AllDigits(s[..4]) && AllDigits(s[5..7]) && AllDigits(s[8..])
    then
      DigitsValueBound(s[..4]);
      var c := Civil(DigitsValue(s[..4]), DigitsValue(s[5..7]), DigitsValue(s[8..]));
      if ValidCivil(c) then Some(c) else None
    else None
  }

  /** parseISO on a date column or a date input: its day number, None for an invalid date. */
  function ParseIsoDate(s: string): (r: Option<int>)
  {
    match ParseCivil(s)
    case None => None
    case Some(c) => Some(Days(c))
  }

  /** Formatting a date and parsing it back gives the same date. */
  lemma ParseFormat(c: Civil)
    requires ValidCivil(c) && c.year < 10000
    ensures ParseCivil(FormatIsoDate(c)) == Some(c)
  {
    var s := FormatIsoDate(c);
    assert s[..4] == PadDigits(c.year, 4);
    assert s[5..7] == PadDigits(c.month, 2);
    assert s[8..] == PadDigits(c.day, 2);
    PadDigitsValue(c.year, 4);
    PadDigitsValue(c.month, 2);
    PadDigitsValue(c.day, 2);
  }

  /** A text that parses is the canonical form of its date. */
  lemma FormatParse(s: string)
    requires ParseCivil(s).Some?
    ensures FormatIsoDate(ParseCivil(s).value) == s
  {
    PadDigitsOfValue(s[..4]);
    PadDigitsOfValue(s[5..7]);
    PadDigitsOfValue(s[8..]);
    assert s == s[..4] + "-" + s[5..7] + "-" + s[8..];
  }

  /** The day key of a day number and the texts that parse to it are one and the same. */
  lemma ParseIsoDateKey(s: string, z: int)
    requires z + Epoch >= 0 && FromDays(z).year < 10000
    ensures ParseIsoDate(s) == Some(z) <==> s == FormatIsoDate(FromDays(z))
  {
    if ParseIsoDate(s) == Some(z) {
      FormatParse(s);
      DaysInjective(ParseCivil(s).value, FromDays(z));
    }
    if s == FormatIsoDate(FromDays(z)) {
      ParseFormat(FromDays(z));
    }
  }
}
