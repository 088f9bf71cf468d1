/** Day numbers and Gregorian dates. Months count from zero, years and days from one. */
module Calendar {
  /** Division that rounds towards zero. */
  function Quot(a: int, b: nat): int
    requires b > 0
  {
    if a >= 0 then a / b else -((-a) / b)
  }

  const DAYS := [31, 28, 31, 30, 31, 30, 31, 31, 30, 31, 30, 31]

  function LastDay(month: int, year: int): int
    requires 0 <= month < 12
  {
    if month == 1 && year % 4 == 0 && year % 400 != 100 && year % 400 != 200 && year % 400 != 300 then 29
    else DAYS[month]
  }

  /** The days of the months from `m` up to `month`. */
  function SumMonths(m: int, month: int, year: int): int
    requires 0 <= m && month <= 12
    decreases month - m
  {
    if m < month then LastDay(m, year) + SumMonths(m + 1, month, year) else 0
  }

  function DaysPrior(year: int): int {
    365 * (year - 1) + Quot(year - 1, 4) - Quot(year - 1, 100) + Quot(year - 1, 400)
  }

  function ToAbsolute(month: int, day: int, year: int): int
    requires month <= 12
  {
    day + SumMonths(0, month, year) + DaysPrior(year)
  }

  datatype Date = Date(month: int, day: int, year: int)

  predicate Valid(d: Date) { d.year >= 1 && 0 <= d.month < 12 && 1 <= d.day <= LastDay(d.month, d.year) }

  function Absolute(d: Date): int
    requires Valid(d)
  {
    ToAbsolute(d.month, d.day, d.year)
  }

  /** How many years from `y` on the day lies behind the first day of the next. */
  function CountYears(abs: int, y: int): int
    requires y >= 0
    decreases abs - y
  {
    if abs >= ToAbsolute(0, 1, y + 1) then YearIsLong(y); 1 + CountYears(abs, y + 1) else 0
  }

  lemma YearIsLong(y: int)
    requires y >= 0
    ensures ToAbsolute(0, 1, y + 1) >= 1 + 365 * y
  {}

  /** How many months from `m` on the day lies behind their last day. The table of
      month lengths ends with the year. */
  function CountMonths(abs: int, m: int, year: int): int
    requires 0 <= m <= 12
    decreases 12 - m
  {
    if m < 12 && abs > ToAbsolute(m, LastDay(m, year), year) then 1 + CountMonths(abs, m + 1, year) else 0
  }

  function FromAbsolute(abs: int): Date
    requires abs >= 1
  {
    var approx := Quot(abs, 366);
    var year := approx + CountYears(abs, approx);
    var month := CountMonths(abs, 0, year);
    MonthInYear(abs, 0, year);
    Date(month, abs - ToAbsolute(month, 1, year) + 1, year)
  }

  lemma {:induction false} MonthInYear(abs: int, m: int, year: int)
    requires 0 <= m <= 12
    ensures 0 <= CountMonths(abs, m, year) <= 12 - m
    decreases 12 - m
  {
    if m < 12 && abs > ToAbsolute(m, LastDay(m, year), year) {
      MonthInYear(abs, m + 1, year);
    }
  }

  // ---- years and months -------------------------------------------------------------

  predicate IsLeap(year: int) { year % 4 == 0 && (year % 100 != 0 || year % 400 == 0) }

  /** February is long exactly in leap years. */
  lemma FebruaryIsLeap(year: int)
    ensures LastDay(1, year) == if IsLeap(year) then 29 else 28
  {
    var q, r := year / 400, year % 400;
    Divides(100, 4 * q + r / 100, r % 100);
    assert year == 100 * (4 * q + r / 100) + r % 100;
    assert r % 100 == 0 <==> r == 0 || r == 100 || r == 200 || r == 300;
  }

  /** April, June, September and November have 30 days, February 29 or 28, and the
      others 31. */
  lemma MonthLengths(month: int, year: int)
    requires 0 <= month < 12
    ensures LastDay(month, year) == if month in {3, 5, 8, 10} then 30
                                    else if month == 1 then if IsLeap(year) then 29 else 28
                                    else 31
  {
    FebruaryIsLeap(year);
  }

  lemma NextQuot(n: int, b: nat)
    requires n >= 0 && b > 0
    ensures Quot(n + 1, b) - Quot(n, b) == if (n + 1) % b == 0 then 1 else 0
  {
    var q, r := n / b, n % b;
    assert n == b * q + r;
    if r + 1 == b {
      assert n + 1 == b * (q + 1);
      Divides(b, q + 1, 0);
    } else {
      assert n + 1 == b * q + (r + 1);
      Divides(b, q, r + 1);
    }
  }

  lemma Divides(b: nat, q: int, r: nat)
    requires r < b
    ensures (b * q + r) / b == q && (b * q + r) % b == r
  {
    var n := b * q + r;
    assert b * (n / b - q) == r - n % b;
    if n / b - q >= 1 {
      Grows(b, 1, n / b - q);
    } else if n / b - q <= -1 {
      Grows(b, n / b - q, -1);
    }
  }

  lemma Grows(b: nat, x: int, y: int)
    requires x <= y
    ensures b * x <= b * y
  {
    assert b * (y - x) >= 0;
  }

  /** A year has 365 days, or 366. */
  lemma YearLength(year: int)
    requires year >= 1
    ensures DaysPrior(year + 1) == DaysPrior(year) + (if IsLeap(year) then 366 else 365)
  {
    hide Quot;
    NextQuot(year - 1, 4);
    NextQuot(year - 1, 100);
    NextQuot(year - 1, 400);
    LeapDays(year);
  }

  lemma LeapDays(year: int)
    ensures (if year % 4 == 0 then 1 else 0) - (if year % 100 == 0 then 1 else 0) + (if year % 400 == 0 then 1 else 0)
         == if IsLeap(year) then 1 else 0
  {
    var q, r := year / 400, year % 400;
    Divides(100, 4 * q + r / 100, r % 100);
    Divides(4, 100 * q + r / 4, r % 4);
    assert year == 100 * (4 * q + r / 100) + r % 100 == 4 * (100 * q + r / 4) + r % 4;
  }

  lemma SumSnoc(m: int, month: int, year: int)
    requires 0 <= m <= month < 12
    ensures SumMonths(m, month + 1, year) == SumMonths(m, month, year) + LastDay(month, year)
    decreases month - m
  {
    if m < month {
      SumSnoc(m + 1, month, year);
    }
  }

  /** The first day of a month follows the last day of the one before. */
  lemma MonthEnd(month: int, year: int)
    requires 0 <= month < 12
    ensures ToAbsolute(month + 1, 1, year) == ToAbsolute(month, LastDay(month, year), year) + 1
  {
    SumSnoc(0, month, year);
  }

  /** The months of a year make up the year. */
  lemma YearEnd(year: int)
    requires year >= 1
    ensures ToAbsolute(12, 1, year) == ToAbsolute(0, 1, year + 1)
  {
    YearLength(year);
    FebruaryIsLeap(year);
    hide DaysPrior;
    assert SumMonths(0, 12, year) == if IsLeap(year) then 366 else 365 by {
      SumSnoc(0, 0, year); SumSnoc(0, 1, year); SumSnoc(0, 2, year); SumSnoc(0, 3, year);
      SumSnoc(0, 4, year); SumSnoc(0, 5, year); SumSnoc(0, 6, year); SumSnoc(0, 7, year);
      SumSnoc(0, 8, year); SumSnoc(0, 9, year); SumSnoc(0, 10, year); SumSnoc(0, 11, year);
    }
  }

  lemma YearsGrow(y: int, z: int)
    requires 1 <= y <= z
    ensures ToAbsolute(0, 1, y) + 365 * (z - y) <= ToAbsolute(0, 1, z)
    decreases z - y
  {
    if y < z {
      YearsGrow(y, z - 1);
      YearLength(z - 1);
    }
  }

  lemma MonthsGrow(m: int, n: int, year: int)
    requires 0 <= m <= n <= 12
    ensures ToAbsolute(m, 1, year) + 28 * (n - m) <= ToAbsolute(n, 1, year)
    decreases n - m
  {
    if m < n {
      MonthsGrow(m, n - 1, year);
      MonthEnd(n - 1, year);
    }
  }

  /** A date lies in its year. */
  lemma InYear(d: Date)
    requires Valid(d)
    ensures ToAbsolute(0, 1, d.year) <= Absolute(d) < ToAbsolute(0, 1, d.year + 1)
    ensures ToAbsolute(d.month, 1, d.year) <= Absolute(d) < ToAbsolute(d.month + 1, 1, d.year)
  {
    MonthEnd(d.month, d.year);
    MonthsGrow(0, d.month, d.year);
    MonthsGrow(d.month + 1, 12, d.year);
    YearEnd(d.year);
  }

  // ---- finding the date of a day -----------------------------------------------------

  /** The count ends in the year that holds the day. */
  lemma {:induction false} CountYearsFinds(abs: int, y: int)
    requires abs >= 1 && y >= 0 && (y == 0 || ToAbsolute(0, 1, y) <= abs)
    ensures var year := y + CountYears(abs, y);
            year >= 1 && ToAbsolute(0, 1, year) <= abs < ToAbsolute(0, 1, year + 1)
    decreases abs - y
  {
    hide ToAbsolute;
    FirstDay();
    if abs >= ToAbsolute(0, 1, y + 1) {
      YearIsLong(y);
      CountYearsFinds(abs, y + 1);
    }
  }

  lemma FirstDay()
    ensures ToAbsolute(0, 1, 1) == 1
  {}

  /** The approximation is never a year too late. */
  lemma ApproxEarly(abs: int)
    requires abs >= 1
    ensures var approx := Quot(abs, 366); approx >= 0 && (approx == 0 || ToAbsolute(0, 1, approx) <= abs)
  {}

  /** The count ends in the month that holds the day. */
  lemma {:induction false} CountMonthsFinds(abs: int, m: int, year: int)
    requires 0 <= m <= 11 && ToAbsolute(m, 1, year) <= abs < ToAbsolute(12, 1, year)
    ensures var month := m + CountMonths(abs, m, year);
            month <= 11 && ToAbsolute(month, 1, year) <= abs <= ToAbsolute(month, LastDay(month, year), year)
    decreases 12 - m
  {
    hide DaysPrior, SumMonths, LastDay;
    MonthEnd(m, year);
    if abs > ToAbsolute(m, LastDay(m, year), year) {
      CountMonthsFinds(abs, m + 1, year);
    }
  }

  /** Every day number from one on is the number of the date found for it. */
  lemma AbsoluteOfFrom(abs: int)
    requires abs >= 1
    ensures Valid(FromAbsolute(abs)) && Absolute(FromAbsolute(abs)) == abs
  {
    hide DaysPrior, SumMonths, CountYears, CountMonths, Quot, LastDay;
    var approx := Quot(abs, 366);
    ApproxEarly(abs);
    CountYearsFinds(abs, approx);
    var year := approx + CountYears(abs, approx);
    YearEnd(year);
    CountMonthsFinds(abs, 0, year);
    MonthInYear(abs, 0, year);
    DayInMonth(abs, CountMonths(abs, 0, year), year);
  }

  /** Day numbers within a month. */
  lemma DayInMonth(abs: int, month: int, year: int)
    requires 0 <= month < 12 && ToAbsolute(month, 1, year) <= abs <= ToAbsolute(month, LastDay(month, year), year)
    ensures var day := abs - ToAbsolute(month, 1, year) + 1;
            1 <= day <= LastDay(month, year) && ToAbsolute(month, day, year) == abs
  {}

  /** Later dates have larger numbers. */
  lemma Monotone(d: Date, e: Date)
    requires Valid(d) && Valid(e)
    ensures Absolute(d) < Absolute(e) <==>
            d.year < e.year || (d.year == e.year && (d.month < e.month || (d.month == e.month && d.day < e.day)))
  {
    InYear(d);
    InYear(e);
    if d.year < e.year {
      YearsGrow(d.year + 1, e.year);
    } else if d.year > e.year {
      YearsGrow(e.year + 1, d.year);
    } else if d.month < e.month {
      MonthsGrow(d.month + 1, e.month, d.year);
    } else if d.month > e.month {
      MonthsGrow(e.month + 1, d.month, d.year);
    }
  }

  /** Every date is the one found for its number. */
  lemma FromOfAbsolute(d: Date)
    requires Valid(d)
    ensures Absolute(d) >= 1 && FromAbsolute(Absolute(d)) == d
  {
    hide *;
    InYear(d);
    ValidYear(d);
    YearsGrow(1, d.year);
    FirstDay();
    var e := FromAbsolute(Absolute(d));
    AbsoluteOfFrom(Absolute(d));
    Monotone(d, e);
    Monotone(e, d);
  }

  /** Larger numbers have later dates. */
  lemma FromMonotone(a: int, b: int)
    requires 1 <= a < b
    ensures var d, e := FromAbsolute(a), FromAbsolute(b);
            d.year < e.year || (d.year == e.year && (d.month < e.month || (d.month == e.month && d.day < e.day)))
  {
    hide *;
    AbsoluteOfFrom(a);
    AbsoluteOfFrom(b);
    Monotone(FromAbsolute(a), FromAbsolute(b));
  }

  lemma ValidYear(d: Date)
    requires Valid(d)
    ensures d.year >= 1
  {}
}
