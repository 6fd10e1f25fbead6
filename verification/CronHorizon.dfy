/**
  When the cron search can come back empty-handed: exactly for expressions whose only days are
  leap days or days their months never have.
 */
module CronHorizon {
  import opened Calendar
  import opened Cron

  /** What parsing guarantees of every accepted expression. */
  ghost predicate WellFormed(c: Cron) {
    && OnlyWithin(c.min, 0, 59) && OnlyWithin(c.hour, 0, 23) && OnlyWithin(c.dom, 1, 31)
    && OnlyWithin(c.month, 1, 12) && OnlyWithin(c.dow, 0, 7)
    && (c.dow[7] ==> c.dow[0])
    && (c.domStar ==> forall d | 1 <= d <= 31 :: c.dom[d])
  }

  /** A non-empty set of numbers between `lo` and `hi`. */
  ghost predicate OnlyWithin(s: Table, lo: int, hi: int) {
    && (forall i | 0 <= i < 64 && s[i] :: lo <= i <= hi)
    && exists i :: 0 <= i < 64 && s[i]
  }

  /** The search from the minute `now` finds something. */
  ghost predicate Finds(c: Cron, now: int) {
    exists v :: now < v < Limit(now + 1) && Matches(c, v)
  }

  /** Some named day of the month exists in a named month every year. */
  ghost predicate HasYearlyDay(c: Cron) {
    exists m, d :: 1 <= m <= 12 && 1 <= d <= DaysIn(1, m) && c.month[m] && c.dom[d]
  }

  /** Next never fails exactly when weekdays are restricted or some named day comes every year. */
  lemma AlwaysFindsIff(c: Cron)
    requires WellFormed(c)
    ensures (forall now :: Finds(c, now)) <==> !c.dowStar || HasYearlyDay(c)
  {
    hide Finds, HasYearlyDay, WellFormed;
    if !c.dowStar || HasYearlyDay(c) {
      forall now
        ensures Finds(c, now)
      {
        FindsNextYear(c, now);
      }
    } else {
      LeapDayGap(c);
    }
  }

  /** A matching minute in the calendar year after `now`. */
  lemma FindsNextYear(c: Cron, now: int)
    requires WellFormed(c) && (!c.dowStar || HasYearlyDay(c))
    ensures Finds(c, now)
  {
    hide Read, Date, Matches, DaysIn;
    var h :| 0 <= h < 64 && c.hour[h];
    var i :| 0 <= i < 64 && c.min[i];
    var y := Read(now + 1).year + 1;
    var m, d := NamedDay(c, y, h, i);
    var date := Civil(y, m, d, h, i);
    DateMatches(c, date);
    InFiveYears(now + 1, date);
    assert Matches(c, Minutes(date));
  }

  /** A day of year `y` the expression names. */
  lemma NamedDay(c: Cron, y: int, h: int, i: int) returns (m: int, d: int)
    requires WellFormed(c) && (!c.dowStar || HasYearlyDay(c))
    requires 0 <= h < 24 && 0 <= i < 60
    ensures 1 <= m <= 12 && 1 <= d <= DaysIn(y, m) && c.month[m]
    ensures DayMatches(c, d, Weekday(Date(y, m, d, h, i)))
  {
    hide Date;
    if !c.dowStar {
      m :| 0 <= m < 64 && c.month[m];
      var w :| 0 <= w < 64 && c.dow[w];
      if w == 7 {
        w := 0;
      }
      d := WeekdayInMonth(y, m, w, h, i);
    } else {
      m, d :| 1 <= m <= 12 && 1 <= d <= DaysIn(1, m) && c.month[m] && c.dom[d];
    }
  }

  /** Every weekday occurs in the first week of a month. */
  lemma WeekdayInMonth(y: int, m: int, w: int, h: int, i: int) returns (d: int)
    requires 0 <= w < 7 && 0 <= h < 24 && 0 <= i < 60
    ensures 1 <= d <= 7 && Weekday(Date(y, m, d, h, i)) == w
  {
    hide Date;
    var first := Date(y, m, 1, 0, 0);
    Midnight(y, m, 1);
    d := (w - Weekday(first)) % 7 + 1;
    DateIsLinear(y, m, d, h, i);
    assert Date(y, m, d, h, i) / DAY == first / DAY + (d - 1);
  }

  /** A date whose fields are all named matches. */
  lemma DateMatches(c: Cron, d: Civil)
    requires IsDate(d) && c.month[d.month] && c.hour[d.hour] && c.min[d.minute]
    requires DayMatches(c, d.day, Weekday(Minutes(d)))
    ensures Matches(c, Minutes(d))
  {
    hide Read;
    ReadIsUnique(d);
  }

  /** Every date of the next calendar year is within the search. */
  lemma InFiveYears(t: int, d: Civil)
    requires IsDate(d) && d.year == Read(t).year + 1
    ensures t < Minutes(d) < Limit(t)
  {
    hide Read, DaysBeforeYear, DaysBeforeMonth, DaysIn;
    ReadIsExact(t);
    var r := Read(t);
    WithinYear(r);
    WithinYear(d);
    YearsGrow(d.year + 1, r.year + 5);
    MonthsGrow(r.year + 5, 1, r.month);
    FirstMonth(r.year + 5);
  }

  /** From the first of March 2096 there is no 29th of February for more than five years. */
  lemma LeapDayGap(c: Cron)
    requires WellFormed(c) && c.dowStar && !HasYearlyDay(c)
    ensures exists now :: !Finds(c, now)
  {
    hide Read, Date, DaysBeforeYear;
    var start := Civil(2096, 3, 1, 0, 0);
    var now := Minutes(start) - 1;
    ReadIsUnique(start);
    FirstMonth(2101);
    MonthsGrow(2101, 1, 3);
    WithinYear(Civil(2101, 3, 1, 0, 0));
    WithinYear(Civil(2104, 2, 29, 0, 0));
    YearsGrow(2102, 2104);
    forall v | now < v < Limit(now + 1)
      ensures !Matches(c, v)
    {
      NothingUntil2104(c, v);
    }
    assert !Finds(c, now);
  }

  lemma StarHasYearlyDay(c: Cron)
    requires WellFormed(c) && c.domStar
    ensures HasYearlyDay(c)
  {
    var m :| 0 <= m < 64 && c.month[m];
    assert c.dom[1] && 1 <= DaysIn(1, m);
  }

  /** The leap day of 2096 is followed by that of 2104. */
  lemma NothingUntil2104(c: Cron, v: int)
    requires WellFormed(c) && c.dowStar && !HasYearlyDay(c)
    requires Date(2096, 3, 1, 0, 0) <= v < Date(2104, 2, 29, 0, 0)
    ensures !Matches(c, v)
  {
    hide Read, Date, DaysBeforeYear;
    ReadIsExact(v);
    var d := Read(v);
    NextMonth(2104, 2);
    DateIsLinear(2104, 2, 29, 0, 0);
    YearBetween(v, 2096, 2104);
    if Matches(c, v) {
      if c.domStar {
        StarHasYearlyDay(c);
      }
      assert c.month[d.month] && c.dom[d.day];
      assert d.day > DaysIn(1, d.month);
      assert d.month == 2 && d.day == 29 && IsLeap(d.year) && (d.year == 2096 || d.year == 2104);
      NextMonth(2096, 2);
      DateIsLinear(d.year, 2, 29, d.hour, d.minute);
    }
  }

  lemma YearBetween(v: int, y: int, z: int)
    requires Date(y, 3, 1, 0, 0) <= v < Date(z, 3, 1, 0, 0)
    ensures y <= Read(v).year <= z
  {
    hide Read, DaysBeforeYear, DaysBeforeMonth, DaysIn;
    ReadIsExact(v);
    var d := Read(v);
    WithinYear(d);
    WithinYear(Civil(y, 3, 1, 0, 0));
    WithinYear(Civil(z, 3, 1, 0, 0));
    if d.year < y {
      YearsGrow(d.year + 1, y);
    } else if d.year > z {
      YearsGrow(z + 1, d.year);
    }
  }

  /** The search always has minutes to try. */
  lemma LimitIsLater(t: int)
    ensures t < Limit(t)
  {
    hide Read, Date, DaysIn;
    ReadIsExact(t);
    var first := Civil(Read(t).year + 1, 1, 1, 0, 0);
    InFiveYears(t, first);
  }
}
