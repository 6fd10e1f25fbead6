/**
  The next run of hourly, daily and weekly tasks by what the clock and the calendar show
  (internal/tasks/schedule.go, Next and Validate).
 */
module Clock {
  import opened Text
  import opened Calendar
  import CronParse
  import opened Schedule

  // The words of a plan

  predicate IsBlank(s: string) {
    CronParse.Trim(s) == ""
  }

  /** The plan runs this often; without a word it runs daily. */
  predicate Runs(p: Plan, frequency: string) {
    CronParse.ToLower(p.frequency) == frequency && !IsBlank(p.frequency)
  }

  predicate RunsDaily(p: Plan) {
    Runs(p, "daily") || IsBlank(p.frequency)
  }

  const SHORT := ["sun", "mon", "tue", "wed", "thu", "fri", "sat"]
  const LONG := ["sunday", "monday", "tuesday", "wednesday", "thursday", "friday", "saturday"]

  /** The word names this day of the week, Sunday being 0; no word names Monday. */
  predicate NamesDay(s: string, w: int) {
    0 <= w < 7 && if IsBlank(s) then w == 1 else CronParse.ToLower(s) in [SHORT[w], LONG[w]]
  }

  /** The day a weekly plan runs on; an unknown name, which creation refuses, would mean Sunday. */
  ghost predicate MeansDay(s: string, w: int) {
    NamesDay(s, w) || (w == 0 && forall v :: !NamesDay(s, v))
  }

  lemma DailyIsLower()
    ensures CronParse.ToLower("daily") == "daily" && CronParse.ToLower("mon") == "mon"
  {}

  lemma FrequencyIs(p: Plan)
    ensures Runs(p, "hourly") ==> Frequency(p) == "hourly"
    ensures RunsDaily(p) ==> Frequency(p) == "daily"
    ensures Runs(p, "weekly") ==> Frequency(p) == "weekly"
  {
    DailyIsLower();
    hide CronParse.ToLower, CronParse.Trim;
  }

  lemma WeekdayIs(s: string, w: int)
    requires MeansDay(s, w)
    ensures WeekdayNamed(s) == w
  {
    DailyIsLower();
    KnownDays(s);
    hide CronParse.ToLower, CronParse.Trim;
  }

  // What the clock shows

  /** The local clock shows the beginning of a minute that is `m` past the hour. */
  predicate ShowsMinute(t: int, off: int, m: int) {
    t == StartOf(LocalMinute(t, off), off) && Read(LocalMinute(t, off)).minute == m
  }

  predicate ShowsTime(t: int, off: int, h: int, m: int) {
    ShowsMinute(t, off, m) && Read(LocalMinute(t, off)).hour == h
  }

  predicate ShowsDay(t: int, off: int, w: int) {
    Weekday(LocalMinute(t, off)) == w
  }

  lemma StartsIn(v: int, off: int)
    ensures LocalMinute(StartOf(v, off), off) == v
  {}

  lemma HourlySlotIff(off: int, t: int, m: int)
    ensures IsSlot(Hourly(m), off, t) <==> ShowsMinute(t, off, m)
  {
    hide Read;
    if v :| Falls(Hourly(m), v) && t == StartOf(v, off) {
      StartsIn(v, off);
    }
    if ShowsMinute(t, off, m) {
      assert Falls(Hourly(m), LocalMinute(t, off));
    }
  }

  lemma DailySlotIff(off: int, t: int, h: int, m: int)
    ensures IsSlot(Daily(h, m), off, t) <==> ShowsTime(t, off, h, m)
  {
    hide Read;
    if v :| Falls(Daily(h, m), v) && t == StartOf(v, off) {
      StartsIn(v, off);
    }
    if ShowsTime(t, off, h, m) {
      assert Falls(Daily(h, m), LocalMinute(t, off));
    }
  }

  lemma WeeklySlotIff(off: int, t: int, w: int, h: int, m: int)
    ensures IsSlot(Weekly(w, h, m), off, t) <==> ShowsDay(t, off, w) && ShowsTime(t, off, h, m)
  {
    hide Read, Weekday;
    if v :| Falls(Weekly(w, h, m), v) && t == StartOf(v, off) {
      StartsIn(v, off);
    }
    if ShowsDay(t, off, w) && ShowsTime(t, off, h, m) {
      assert Falls(Weekly(w, h, m), LocalMinute(t, off));
    }
  }

  // The next run

  /** A strict answer is later than now, any other is not earlier. */
  predicate IsLater(t: int, now: int, strict: bool) {
    now <= t && (strict ==> now != t)
  }

  /** A daily task next runs when the clock first shows its time. */
  lemma DailyRun(p: Plan, off: int, now: int, strict: bool, t: int, h: int, m: int)
    requires RunsDaily(p) && ParseTime(p.time) == Some((h, m)) && IsNext(Periodic, p, off, now, strict, At(t))
    ensures ShowsTime(t, off, h, m) && IsLater(t, now, strict)
    ensures forall u | ShowsTime(u, off, h, m) && IsLater(u, now, strict) :: t <= u
  {
    FrequencyIs(p);
    hide Frequency, ParseTime, IsSlot, ShowsTime, CronParse.JudgeExpression;
    assert IsNextSlot(Daily(h, m), off, now, strict, t);
    forall u ensures IsSlot(Daily(h, m), off, u) <==> ShowsTime(u, off, h, m) {
      DailySlotIff(off, u, h, m);
    }
  }

  /** A weekly one on its weekday. */
  lemma WeeklyRun(p: Plan, off: int, now: int, strict: bool, t: int, w: int, h: int, m: int)
    requires Runs(p, "weekly") && MeansDay(p.dayOfWeek, w) && ParseTime(p.time) == Some((h, m))
    requires IsNext(Periodic, p, off, now, strict, At(t))
    ensures ShowsDay(t, off, w) && ShowsTime(t, off, h, m) && IsLater(t, now, strict)
    ensures forall u | ShowsDay(u, off, w) && ShowsTime(u, off, h, m) && IsLater(u, now, strict) :: t <= u
  {
    FrequencyIs(p);
    WeekdayIs(p.dayOfWeek, w);
    hide Frequency, ParseTime, IsSlot, ShowsTime, ShowsDay, CronParse.JudgeExpression, WeekdayNamed;
    assert IsNextSlot(Weekly(w, h, m), off, now, strict, t);
    forall u ensures IsSlot(Weekly(w, h, m), off, u) <==> ShowsDay(u, off, w) && ShowsTime(u, off, h, m) {
      WeeklySlotIff(off, u, w, h, m);
    }
  }

  /** An hourly one at its minute, or on the hour. */
  lemma HourlyRun(p: Plan, off: int, now: int, strict: bool, t: int, m: int)
    requires Runs(p, "hourly") && m == (if p.minute.Some? then p.minute.value else 0) && 0 <= m < 60
    requires IsNext(Periodic, p, off, now, strict, At(t))
    ensures ShowsMinute(t, off, m) && IsLater(t, now, strict)
    ensures forall u | ShowsMinute(u, off, m) && IsLater(u, now, strict) :: t <= u
  {
    FrequencyIs(p);
    hide Frequency, IsSlot, ShowsMinute, CronParse.JudgeExpression;
    assert IsNextSlot(Hourly(m), off, now, strict, t);
    forall u ensures IsSlot(Hourly(m), off, u) <==> ShowsMinute(u, off, m) {
      HourlySlotIff(off, u, m);
    }
  }

  /** A one-time task runs at its time, or never if that is over and the answer is to be strict. */
  lemma OneTimeRun(p: Plan, off: int, now: int, strict: bool, a: Answer)
    requires IsNext(OneTime, p, off, now, strict, a)
    ensures a == Error <==> p.runAt == None
    ensures p.runAt.Some? ==> (a == Never <==> strict && !IsLater(p.runAt.value, now, true))
    ensures p.runAt.Some? && a != Never ==> a == At(p.runAt.value)
  {}

  // What validation is for

  predicate IsFailure(a: Answer) {
    a == Error || a == Crash
  }

  /** What validation refuses although a next run could be computed. */
  ghost predicate IsRefusedAnyway(p: Plan) {
    || (Runs(p, "hourly") && p.minute.Some? && !(0 <= p.minute.value <= 59))
    || (Runs(p, "weekly") && forall w :: !NamesDay(p.dayOfWeek, w))
    || (IsBlank(p.frequency) && p.frequency != "")
  }

  lemma KnownDays(s: string)
    ensures CronParse.ToLower(OrDefault(s, "mon")) in Weekdays() <==> exists w :: NamesDay(s, w)
  {
    DailyIsLower();
    hide CronParse.ToLower, CronParse.Trim;
    var name := CronParse.ToLower(OrDefault(s, "mon"));
    if IsBlank(s) {
      assert NamesDay(s, 1);
    } else if name in Weekdays() {
      var w := Weekdays()[name];
      assert NamesDay(s, w);
    }
  }

  /** A plan is accepted exactly if computing its next run cannot fail and it is not refused all the same. */
  lemma ValidIff(p: Plan, off: int, now: int, strict: bool, a: Answer)
    requires IsNext(Periodic, p, off, now, strict, a)
    ensures IsValid(Periodic, p) <==> !IsFailure(a) && !IsRefusedAnyway(p)
  {
    KnownDays(p.dayOfWeek);
    BlankWords(p.frequency);
    DailyIsLower();
    if Frequency(p) == "cron" {
      CronNeverFails(p, off, now, strict, a);
    }
    hide CronParse.ToLower, CronParse.Trim, ParseTime, IsSlot, IsNextSlot, HourlyAnswer, CronParse.Parses, Weekdays,
         IsCronAnswer, NamesDay, WeekdayNamed;
  }

  /** With a cron expression only the expression can be at fault. */
  lemma CronNeverFails(p: Plan, off: int, now: int, strict: bool, a: Answer)
    requires IsNext(Periodic, p, off, now, strict, a) && Frequency(p) == "cron"
    ensures CronParse.JudgeExpression(p.cron) == CronParse.Accepted <==> !IsFailure(a)
  {
    hide CronParse.JudgeExpression, Frequency, CronParse.Parses;
    if CronParse.JudgeExpression(p.cron) == CronParse.Accepted {
      var c :| CronParse.Parses(p.cron, c) && IsCronAnswer(c, off, now, strict, a);
    }
  }

  lemma BlankWords(s: string)
    ensures IsBlank(s) ==> CronParse.ToLower(s) !in ["hourly", "daily", "weekly", "cron"]
    ensures CronParse.ToLower(s) == "" <==> s == ""
  {
    var low := CronParse.ToLower(s);
    assert |low| == |s|;
    if low in ["hourly", "daily", "weekly", "cron"] {
      assert !CronParse.IsSpace(low[0]) && !CronParse.IsSpace(low[|low| - 1]);
      assert !CronParse.IsSpace(s[0]) && !CronParse.IsSpace(s[|s| - 1]);
    }
  }
}
