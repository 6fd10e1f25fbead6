/**
  Cron expressions: matching a minute, and the search that skips whole months, days and hours
  (internal/tasks/schedule.go).
 */
module Cron {
  import opened Text
  import opened Calendar

  type Table = s: seq<bool> | |s| == 64 witness seq(64, i => false)

  datatype Cron = Cron(
    min: Table, hour: Table, dom: Table, month: Table, dow: Table, domStar: bool, dowStar: bool)

  /** If both day fields are restricted, either may match. */
  predicate DayMatches(c: Cron, day: int, weekday: int)
    requires 0 <= day < 64 && 0 <= weekday < 64
  {
    var dom, dow := c.dom[day], c.dow[weekday];
    if c.domStar && c.dowStar then true
    else if c.domStar then dow
    else if c.dowStar then dom
    else dom || dow
  }

  /** The minute `t` is one the expression names. */
  predicate Matches(c: Cron, t: int) {
    var d := Read(t);
    && IsDate(d)
    && c.month[d.month] && DayMatches(c, d.day, Weekday(t)) && c.hour[d.hour] && c.min[d.minute]
  }

  /** The minute, the hour and the month of `t` are named. */
  predicate TimeMatches(c: Cron, t: int) {
    var d := Read(t);
    && IsDate(d) && c.month[d.month] && c.hour[d.hour] && c.min[d.minute]
  }

  /**
    With both day fields restricted a minute matches exactly if it would with either of them starred;
    with one of them starred the other decides, and with both every day matches.
   */
  lemma EitherDayMatches(c: Cron, t: int)
    ensures IsDate(Read(t)) && 0 <= Weekday(t) < 7
    ensures !c.domStar && !c.dowStar ==>
      (Matches(c, t) <==> Matches(c.(dowStar := true), t) || Matches(c.(domStar := true), t))
    ensures !c.domStar && c.dowStar ==> (Matches(c, t) <==> TimeMatches(c, t) && c.dom[Read(t).day])
    ensures c.domStar && !c.dowStar ==> (Matches(c, t) <==> TimeMatches(c, t) && c.dow[Weekday(t)])
    ensures c.domStar && c.dowStar ==> (Matches(c, t) <==> TimeMatches(c, t))
  {
    ReadIsExact(t);
    hide Read;
  }

  /** Five years on, with the 29th of February carried to the first of March when needed. */
  function Limit(t: int): int {
    var d := Read(t);
    Date(d.year + 5, d.month, d.day, d.hour, d.minute)
  }

  ghost predicate NoMatch(c: Cron, from: int, to: int) {
    forall v | from <= v < to :: !Matches(c, v)
  }

  /**
    The first matching minute after the minute `now`, within five years: exactly what trying
    every minute in turn would find.
   */
  method Next(c: Cron, now: int) returns (found: Option<int>)
    ensures found.Some? ==>
      now < found.value < Limit(now + 1) && Matches(c, found.value) && NoMatch(c, now + 1, found.value)
    ensures found.None? ==> NoMatch(c, now + 1, Limit(now + 1))
  {
    hide Read, Date, Matches;
    var t := now + 1;
    var limit := Limit(t);
    while t < limit
      invariant now < t && NoMatch(c, now + 1, t)
      decreases limit - t
    {
      ReadIsExact(t);
      var d := Read(t);
      if !c.month[d.month] {
        t := SkipMonth(c, t);
        continue;
      }
      if !DayMatches(c, d.day, Weekday(t)) {
        t := SkipDay(c, t);
        continue;
      }
      if !c.hour[d.hour] {
        t := SkipHour(c, t);
        continue;
      }
      if !c.min[d.minute] {
        MinuteMismatch(c, t);
        t := t + 1;
        continue;
      }
      FullMatch(c, t);
      return Some(t);
    }
    return None;
  }

  lemma MinuteMismatch(c: Cron, t: int)
    requires IsDate(Read(t)) && !c.min[Read(t).minute]
    ensures !Matches(c, t)
  {
    hide Read;
  }

  lemma FullMatch(c: Cron, t: int)
    requires IsDate(Read(t)) && c.month[Read(t).month] && DayMatches(c, Read(t).day, Weekday(t))
    requires c.hour[Read(t).hour] && c.min[Read(t).minute]
    ensures Matches(c, t)
  {
    hide Read;
  }

  /** The first of the next month. Nothing in a month the expression does not name can match. */
  method SkipMonth(c: Cron, t: int) returns (next: int)
    requires IsDate(Read(t)) && !c.month[Read(t).month]
    ensures next > t && NoMatch(c, t, next)
  {
    hide Read, Date, DaysIn;
    var d := Read(t);
    next := Date(d.year, d.month + 1, 1, 0, 0);
    Spans(t);
    forall v | t <= v < next
      ensures !Matches(c, v)
    {
      WithinMonth(d.year, d.month, v);
    }
  }

  /** The start of the next day. */
  method SkipDay(c: Cron, t: int) returns (next: int)
    requires IsDate(Read(t)) && !DayMatches(c, Read(t).day, Weekday(t))
    ensures next > t && NoMatch(c, t, next)
  {
    hide Read, Date, DaysIn;
    var d := Read(t);
    next := Date(d.year, d.month, d.day + 1, 0, 0);
    Spans(t);
    forall v | t <= v < next
      ensures !Matches(c, v)
    {
      RestOfDay(t, v);
    }
  }

  /** The start of the next hour. */
  method SkipHour(c: Cron, t: int) returns (next: int)
    requires IsDate(Read(t)) && !c.hour[Read(t).hour]
    ensures next > t && NoMatch(c, t, next)
  {
    hide Read, Date, DaysIn;
    var d := Read(t);
    next := Date(d.year, d.month, d.day, d.hour + 1, 0);
    Spans(t);
    forall v | t <= v < next
      ensures !Matches(c, v)
    {
      RestOfHour(t, v);
    }
  }
}
