/**
  The proleptic Gregorian calendar in one fixed-offset zone, as the scheduler sees it through
  Go's time package. A moment is a number of whole minutes since 0001-01-01 00:00 local time.
 */
module Calendar {

  const DAY := 1440

  datatype Civil = Civil(year: int, month: int, day: int, hour: int, minute: int)

  predicate IsLeap(y: int) {
    y % 4 == 0 && (y % 100 != 0 || y % 400 == 0)
  }

  function DaysIn(y: int, m: int): (n: int)
    ensures 28 <= n <= 31
  {
    if m == 2 then if IsLeap(y) then 29 else 28
    else if m == 4 || m == 6 || m == 9 || m == 11 then 30
    else 31
  }

  /** Days from 0001-01-01 to the first day of year `y`. */
  function DaysBeforeYear(y: int): int {
    365 * (y - 1) + (y - 1) / 4 - (y - 1) / 100 + (y - 1) / 400
  }

  function YearLength(y: int): int {
    if IsLeap(y) then 366 else 365
  }

  /** Days from the first of January to the first of month `m`. */
  function DaysBeforeMonth(y: int, m: int): int
    requires 1 <= m <= 13
    decreases m
  {
    if m == 1 then 0 else DaysBeforeMonth(y, m - 1) + DaysIn(y, m - 1)
  }

  /** The moment of a date. As in the original, months and smaller fields may overflow. */
  function Date(y: int, m: int, d: int, h: int, min: int): int {
    var year, month := y + (m - 1) / 12, (m - 1) % 12 + 1;
    DAY * (DaysBeforeYear(year) + DaysBeforeMonth(year, month) + d - 1) + 60 * h + min
  }

  predicate IsDate(c: Civil) {
    && 1 <= c.month <= 12 && 1 <= c.day <= DaysIn(c.year, c.month)
    && 0 <= c.hour < 24 && 0 <= c.minute < 60
  }

  function Minutes(c: Civil): int {
    Date(c.year, c.month, c.day, c.hour, c.minute)
  }

  // Reading a moment

  /** The year a day falls in, and the days of that year before it. */
  function YearOf(day: int): (int, int) {
    var n, r := day / 146097, day % 146097;
    var c := if r / 36524 > 3 then 3 else r / 36524;
    var r2 := r - 36524 * c;
    var q := r2 / 1461;
    var r3 := r2 - 1461 * q;
    var k := if r3 / 365 > 3 then 3 else r3 / 365;
    (400 * n + 100 * c + 4 * q + k + 1, r3 - 365 * k)
  }

  /** The month and day of month, `rest` days after the first of month `m`. */
  function MonthFrom(y: int, m: int, rest: int): (int, int)
    requires 1 <= m <= 12
    decreases 12 - m
  {
    if m == 12 || rest < DaysIn(y, m) then (m, rest + 1)
    else MonthFrom(y, m + 1, rest - DaysIn(y, m))
  }

  function Read(t: int): Civil {
    var day, rest := t / DAY, t % DAY;
    var (year, yday) := YearOf(day);
    var (month, dom) := MonthFrom(year, 1, yday);
    Civil(year, month, dom, rest / 60, rest % 60)
  }

  /** Sunday is 0; the first of January of year 1 is a Monday. */
  function Weekday(t: int): int {
    (t / DAY + 1) % 7
  }

  // The calendar is consistent

  lemma Centuries(n: int, c: int, q: int, k: int)
    requires 0 <= c <= 3 && 0 <= q <= 24 && 0 <= k <= 3
    ensures var y := 400 * n + 100 * c + 4 * q + k;
            y / 4 == 100 * n + 25 * c + q && y / 100 == 4 * n + c && y / 400 == n
  {}

  lemma YearOfIsExact(day: int)
    ensures var (y, d) := YearOf(day); DaysBeforeYear(y) + d == day && 0 <= d < YearLength(y)
  {
    var n, r := day / 146097, day % 146097;
    var c := if r / 36524 > 3 then 3 else r / 36524;
    var r2 := r - 36524 * c;
    assert 0 <= r2 <= 36524 && (r2 == 36524 ==> c == 3);
    var q := r2 / 1461;
    var r3 := r2 - 1461 * q;
    assert 0 <= q <= 24 && 0 <= r3 < 1461 && (q == 24 && r3 == 1460 ==> c == 3);
    var k := if r3 / 365 > 3 then 3 else r3 / 365;
    Centuries(n, c, q, k);
    var y := 400 * n + 100 * c + 4 * q + k + 1;
    LeapCriterion(n, c, q, k);
  }

  lemma LeapCriterion(n: int, c: int, q: int, k: int)
    requires 0 <= c <= 3 && 0 <= q <= 24 && 0 <= k <= 3
    ensures IsLeap(400 * n + 100 * c + 4 * q + k + 1) <==> k == 3 && (q != 24 || c == 3)
  {}

  lemma Step4(y: int)
    ensures y / 4 == (y - 1) / 4 + if y % 4 == 0 then 1 else 0
  {}

  lemma Step100(y: int)
    ensures y / 100 == (y - 1) / 100 + if y % 100 == 0 then 1 else 0
    ensures y % 100 == 0 ==> y % 4 == 0
  {}

  lemma Step400(y: int)
    ensures y / 400 == (y - 1) / 400 + if y % 400 == 0 then 1 else 0
    ensures y % 400 == 0 ==> y % 100 == 0
  {}

  /** Consecutive years abut. */
  lemma NextYear(y: int)
    ensures DaysBeforeYear(y + 1) == DaysBeforeYear(y) + YearLength(y)
  {
    Step4(y);
    Step100(y);
    Step400(y);
  }

  lemma {:induction false} YearsGrow(y: int, z: int)
    requires y <= z
    ensures DaysBeforeYear(y) + 365 * (z - y) <= DaysBeforeYear(z)
    decreases z - y
  {
    hide DaysBeforeYear;
    if y < z {
      YearsGrow(y, z - 1);
      NextYear(z - 1);
    }
  }

  /** Only one year contains a given day. */
  lemma YearOfIsUnique(y: int, d: int)
    requires 0 <= d < YearLength(y)
    ensures YearOf(DaysBeforeYear(y) + d) == (y, d)
  {
    hide DaysBeforeYear, YearOf;
    var day := DaysBeforeYear(y) + d;
    YearOfIsExact(day);
    var (z, e) := YearOf(day);
    NextYear(y);
    NextYear(z);
    if z < y {
      YearsGrow(z + 1, y);
    } else if y < z {
      YearsGrow(y + 1, z);
    }
  }

  lemma {:induction false} MonthFromIsExact(y: int, m: int, rest: int)
    requires 1 <= m <= 12 && 0 <= rest < YearLength(y) - DaysBeforeMonth(y, m)
    ensures
      var (month, day) := MonthFrom(y, m, rest);
      && m <= month <= 12 && 1 <= day <= DaysIn(y, month)
      && DaysBeforeMonth(y, month) + day - 1 == DaysBeforeMonth(y, m) + rest
    decreases 12 - m
  {
    hide DaysIn, YearLength;
    if m == 12 {
      TwelveMonths(y);
    } else if rest >= DaysIn(y, m) {
      MonthFromIsExact(y, m + 1, rest - DaysIn(y, m));
    }
  }

  lemma {:induction false} MonthFromIsUnique(y: int, m: int, month: int, day: int)
    requires 1 <= m <= month <= 12 && 1 <= day <= DaysIn(y, month)
    ensures MonthFrom(y, m, DaysBeforeMonth(y, month) - DaysBeforeMonth(y, m) + day - 1) == (month, day)
    decreases month - m
  {
    hide DaysIn;
    if m < month {
      MonthsGrow(y, m + 1, month);
      MonthFromIsUnique(y, m + 1, month, day);
    }
  }

  lemma {:induction false} MonthsGrow(y: int, m: int, n: int)
    requires 1 <= m <= n <= 13
    ensures DaysBeforeMonth(y, m) + 28 * (n - m) <= DaysBeforeMonth(y, n)
    decreases n - m
  {
    if m < n {
      MonthsGrow(y, m, n - 1);
    }
  }

  /** The twelve months make up the year. */
  lemma TwelveMonths(y: int)
    ensures DaysBeforeMonth(y, 13) == YearLength(y)
    ensures DaysBeforeMonth(y, 12) == YearLength(y) - 31 && DaysIn(y, 12) == 31
  {
    var d := map m | 1 <= m <= 13 :: DaysBeforeMonth(y, m);
    assert d[2] == 31 && d[3] == d[2] + DaysIn(y, 2) && d[4] == d[3] + 31;
    assert d[5] == d[4] + 30 && d[6] == d[5] + 31 && d[7] == d[6] + 30;
    assert d[8] == d[7] + 31 && d[9] == d[8] + 31 && d[10] == d[9] + 30;
    assert d[11] == d[10] + 31 && d[12] == d[11] + 30 && d[13] == d[12] + 31;
  }

  /** Reading a moment gives a date, and the date's moment is the one read. */
  lemma ReadIsExact(t: int)
    ensures IsDate(Read(t)) && Minutes(Read(t)) == t
  {
    hide DaysBeforeYear, YearOf, MonthFrom, DaysBeforeMonth, DaysIn;
    YearOfIsExact(t / DAY);
    var (year, yday) := YearOf(t / DAY);
    FirstMonth(year);
    MonthFromIsExact(year, 1, yday);
  }

  lemma FirstMonth(y: int)
    ensures DaysBeforeMonth(y, 1) == 0
  {}

  /** A date is the only one with its moment. */
  lemma ReadIsUnique(c: Civil)
    requires IsDate(c)
    ensures Read(Minutes(c)) == c
  {
    hide DaysBeforeYear, YearOf, MonthFrom, DaysBeforeMonth, DaysIn;
    FirstMonth(c.year);
    var yday := DaysBeforeMonth(c.year, c.month) + c.day - 1;
    DayOfYear(c.year, c.month, c.day);
    YearOfIsUnique(c.year, yday);
    MonthFromIsUnique(c.year, 1, c.month, c.day);
    var day := DaysBeforeYear(c.year) + yday;
    assert Minutes(c) == DAY * day + 60 * c.hour + c.minute;
    assert Minutes(c) / DAY == day && Minutes(c) % DAY == 60 * c.hour + c.minute;
  }

  lemma DayOfYear(y: int, m: int, d: int)
    requires 1 <= m <= 12 && 1 <= d <= DaysIn(y, m)
    ensures 0 <= DaysBeforeMonth(y, m) + d - 1 < YearLength(y)
  {
    MonthsGrow(y, 1, m);
    MonthsGrow(y, m + 1, 13);
    TwelveMonths(y);
  }

  // Stretches of time that share a field

  lemma MonthStep(y: int, m: int)
    requires 1 <= m <= 12
    ensures DaysBeforeMonth(y, m + 1) == DaysBeforeMonth(y, m) + DaysIn(y, m)
  {}

  /** The first of the next month, also across the end of the year. */
  lemma NextMonth(y: int, m: int)
    requires 1 <= m <= 12
    ensures Date(y, m + 1, 1, 0, 0) == Date(y, m, 1, 0, 0) + DAY * DaysIn(y, m)
  {
    hide DaysBeforeYear, YearLength, DaysIn, DaysBeforeMonth;
    MonthStep(y, m);
    if m == 12 {
      TwelveMonths(y);
      NextYear(y);
      FirstMonth(y + 1);
    }
  }

  /** A whole day, with its minutes. */
  lemma WithinDay(y: int, m: int, d: int, t: int)
    requires 1 <= m <= 12 && 1 <= d <= DaysIn(y, m)
    requires Date(y, m, d, 0, 0) <= t < Date(y, m, d + 1, 0, 0)
    ensures Read(t).year == y && Read(t).month == m && Read(t).day == d
    ensures t == Date(y, m, d, 0, 0) + 60 * Read(t).hour + Read(t).minute
  {
    hide Read, DaysBeforeYear, DaysBeforeMonth, DaysIn;
    var rest := t - Date(y, m, d, 0, 0);
    var c := Civil(y, m, d, rest / 60, rest % 60);
    assert Minutes(c) == t;
    ReadIsUnique(c);
  }

  /** A whole month. */
  lemma WithinMonth(y: int, m: int, t: int)
    requires 1 <= m <= 12
    requires Date(y, m, 1, 0, 0) <= t < Date(y, m + 1, 1, 0, 0)
    ensures Read(t).year == y && Read(t).month == m
  {
    hide Read, DaysBeforeYear, DaysBeforeMonth, DaysIn;
    NextMonth(y, m);
    var day := (t - Date(y, m, 1, 0, 0)) / DAY + 1;
    WithinDay(y, m, day, t);
  }

  /** Days, hours and minutes count up from the first of the month. */
  lemma DateIsLinear(y: int, m: int, d: int, h: int, min: int)
    ensures Date(y, m, d, h, min) == Date(y, m, 1, 0, 0) + DAY * (d - 1) + 60 * h + min
  {
    hide DaysBeforeYear, DaysBeforeMonth;
  }

  /** A moment lies within its own month, day and hour. */
  lemma Spans(t: int)
    ensures
      var c := Read(t);
      && IsDate(c)
      && Date(c.year, c.month, 1, 0, 0) <= Date(c.year, c.month, c.day, 0, 0)
         <= Date(c.year, c.month, c.day, c.hour, 0) <= t
      && t < Date(c.year, c.month, c.day, c.hour + 1, 0) <= Date(c.year, c.month, c.day + 1, 0, 0)
         <= Date(c.year, c.month + 1, 1, 0, 0)
  {
    hide Read, Date, DaysIn;
    ReadIsExact(t);
    var c := Read(t);
    NextMonth(c.year, c.month);
    DateIsLinear(c.year, c.month, c.day, c.hour, c.minute);
    DateIsLinear(c.year, c.month, c.day, c.hour, 0);
    DateIsLinear(c.year, c.month, c.day, c.hour + 1, 0);
    DateIsLinear(c.year, c.month, c.day, 0, 0);
    DateIsLinear(c.year, c.month, c.day + 1, 0, 0);
  }

  /** The rest of the day shares its date and weekday. */
  lemma RestOfDay(t: int, v: int)
    requires t <= v < Date(Read(t).year, Read(t).month, Read(t).day + 1, 0, 0)
    ensures Read(v).year == Read(t).year && Read(v).month == Read(t).month && Read(v).day == Read(t).day
    ensures Weekday(v) == Weekday(t)
  {
    hide Read, Date, DaysIn;
    Spans(t);
    var c := Read(t);
    WithinDay(c.year, c.month, c.day, v);
    Midnight(c.year, c.month, c.day);
    DateIsLinear(c.year, c.month, c.day, 0, 0);
    DateIsLinear(c.year, c.month, c.day + 1, 0, 0);
    var start := Date(c.year, c.month, c.day, 0, 0);
    assert t / DAY == start / DAY && v / DAY == start / DAY;
  }

  lemma Midnight(y: int, m: int, d: int)
    ensures Date(y, m, d, 0, 0) % DAY == 0
  {}

  /** The rest of the hour shares its hour. */
  lemma RestOfHour(t: int, v: int)
    requires t <= v < Date(Read(t).year, Read(t).month, Read(t).day, Read(t).hour + 1, 0)
    ensures Read(v).hour == Read(t).hour
  {
    hide Read, Date, DaysIn;
    Spans(t);
    Spans(v);
    RestOfDay(t, v);
    var c := Read(t);
    WithinDay(c.year, c.month, c.day, v);
    DateIsLinear(c.year, c.month, c.day, c.hour, 0);
    DateIsLinear(c.year, c.month, c.day, c.hour + 1, 0);
    DateIsLinear(c.year, c.month, c.day, 0, 0);
  }

  /** A date lies within its year. */
  lemma WithinYear(c: Civil)
    requires IsDate(c)
    ensures DAY * DaysBeforeYear(c.year) <= Minutes(c) < DAY * DaysBeforeYear(c.year + 1)
  {
    hide DaysBeforeYear, DaysBeforeMonth, DaysIn;
    DayOfYear(c.year, c.month, c.day);
    NextYear(c.year);
  }

  // Known dates

  lemma FirstMonths(y: int, d: int)
    ensures Date(y, 1, d, 0, 0) == DAY * (DaysBeforeYear(y) + d - 1)
    ensures Date(y, 2, d, 0, 0) == DAY * (DaysBeforeYear(y) + 31 + d - 1)
    ensures Date(y, 3, d, 0, 0) == DAY * (DaysBeforeYear(y) + 59 + (if IsLeap(y) then 1 else 0) + d - 1)
  {
    assert DaysBeforeMonth(y, 1) == 0;
    assert DaysBeforeMonth(y, 2) == 31;
    assert DaysBeforeMonth(y, 3) == 31 + DaysIn(y, 2);
    hide DaysBeforeYear, DaysBeforeMonth, IsLeap;
  }

  lemma WeekdaysFollow(t: int)
    ensures Weekday(t + 24 * 60) == (Weekday(t) + 1) % 7
  {
    assert (t + DAY) / DAY == t / DAY + 1;
  }

  /**
    1 January 1970 was a Thursday and 29 February 2000 a Tuesday. After 28 February comes another day
    in 2000, and the first of March in 2100.
   */
  lemma KnownDates()
    ensures Date(1970, 1, 1, 0, 0) == 719_162 * 24 * 60 && Weekday(719_162 * 24 * 60) == 4
    ensures Date(2000, 2, 29, 0, 0) == 730_178 * 24 * 60 && Weekday(730_178 * 24 * 60) == 2
    ensures Date(2000, 3, 1, 0, 0) - Date(2000, 2, 28, 0, 0) == 2 * 24 * 60
    ensures Date(2100, 3, 1, 0, 0) - Date(2100, 2, 28, 0, 0) == 24 * 60
  {
    FirstMonths(1970, 1);
    FirstMonths(2000, 29);
    FirstMonths(2000, 28);
    FirstMonths(2000, 1);
    FirstMonths(2100, 28);
    FirstMonths(2100, 1);
    hide Date;
  }
}
