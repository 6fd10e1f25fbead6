/**
  The next run of a task (internal/tasks/schedule.go, Next and parseHHMM). An instant is a number
  of nanoseconds since 0001-01-01 00:00 UTC; the zone is `off` whole minutes ahead of UTC.
 */
module Schedule {
  import opened Text
  import opened Calendar
  import Cron
  import CronHorizon
  import CronParse

  const MINUTE := 60_000_000_000

  /** The local minute an instant falls in. */
  function LocalMinute(t: int, off: int): int {
    t / MINUTE + off
  }

  /** The instant at which a local minute starts. */
  function StartOf(minute: int, off: int): int {
    (minute - off) * MINUTE
  }

  /** A stored schedule. `runAt` is the parsed one-time instant, if the text was a date-time. */
  datatype Plan = Plan(
    runAt: Option<int>, frequency: string, minute: Option<int>, time: string, dayOfWeek: string, cron: string)

  datatype Answer = Error | Crash | Never | At(instant: int)

  function OrDefault(s: string, d: string): string {
    if CronParse.Trim(s) == "" then d else s
  }

  function Weekdays(): map<string, int> {
    map["sun" := 0, "sunday" := 0, "mon" := 1, "monday" := 1, "tue" := 2, "tuesday" := 2,
        "wed" := 3, "wednesday" := 3, "thu" := 4, "thursday" := 4, "fri" := 5, "friday" := 5,
        "sat" := 6, "saturday" := 6]
  }

  /** Looks a weekday up; an unknown name reads as Sunday, the zero value. */
  function WeekdayNamed(s: string): (w: int)
    ensures 0 <= w < 7
  {
    var name := CronParse.ToLower(OrDefault(s, "mon"));
    if name in Weekdays() then Weekdays()[name] else 0
  }

  /** "HH:MM", or 09:00 when blank. */
  function ParseTime(s: string): (r: Option<(int, int)>)
    ensures r.Some? ==> 0 <= r.value.0 < 24 && 0 <= r.value.1 < 60
  {
    var text := CronParse.Trim(s);
    if text == "" then Some((9, 0))
    else
      var (hs, ms, cut) := CronParse.Cut(text, ':');
      var h :- CronParse.Atoi(hs);
      var m :- CronParse.Atoi(ms);
      if !cut || h < 0 || h > 23 || m < 0 || m > 59 then None else Some((h, m))
  }

  /** A time is its two numerals around the first colon; blank text is nine o'clock. */
  lemma ParseTimeIff(s: string, h: int, m: int)
    ensures ParseTime(s) == Some((h, m)) <==>
      var text := CronParse.Trim(s);
      if text == "" then h == 9 && m == 0
      else exists hs, ms :: text == hs + ":" + ms && ':' !in hs && IsClock(hs, ms, h, m)
  {
    var text := CronParse.Trim(s);
    hide CronParse.Trim, CronParse.Atoi;
    if text != "" {
      var k := Index(text, ':');
      if ParseTime(s) == Some((h, m)) {
        assert text == text[..k] + ":" + text[k + 1..] && IsClock(text[..k], text[k + 1..], h, m);
      }
      forall hs, ms | text == hs + ":" + ms && ':' !in hs && IsClock(hs, ms, h, m)
        ensures ParseTime(s) == Some((h, m))
      {
        assert text[..|hs|] == hs && text[|hs| + 1..] == ms;
        IndexIs(text, ':', |hs|);
      }
    }
  }

  /** The two texts are an hour and a minute. */
  predicate IsClock(hs: string, ms: string, h: int, m: int) {
    && CronParse.Atoi(hs) == Some(h) && CronParse.Atoi(ms) == Some(m)
    && 0 <= h <= 23 && 0 <= m <= 59
  }

  /** The periodic schedules that are not cron expressions. */
  datatype Rule = Hourly(minute: int) | Daily(hour: int, minute: int) | Weekly(weekday: int, hour: int, minute: int)

  predicate IsRule(r: Rule) {
    && 0 <= r.minute < 60
    && (!r.Hourly? ==> 0 <= r.hour < 24)
    && (r.Weekly? ==> 0 <= r.weekday < 7)
  }

  /** The local minute `v` has the minute, time or weekday the rule names. */
  predicate Falls(r: Rule, v: int) {
    var d := Read(v);
    match r
    case Hourly(m) => d.minute == m
    case Daily(h, m) => d.hour == h && d.minute == m
    case Weekly(w, h, m) => Weekday(v) == w && d.hour == h && d.minute == m
  }

  predicate After(t: int, now: int, strict: bool) {
    if strict then t > now else t >= now
  }

  /** An instant at the start of a local minute that the rule names. */
  ghost predicate IsSlot(r: Rule, off: int, t: int) {
    exists v :: Falls(r, v) && t == StartOf(v, off)
  }

  /** The earliest slot after (or, when not strict, at or after) `now`. */
  ghost predicate IsNextSlot(r: Rule, off: int, now: int, strict: bool, t: int) {
    && IsSlot(r, off, t) && After(t, now, strict)
    && forall u | IsSlot(r, off, u) && After(u, now, strict) :: t <= u
  }

  /** Clock fields are remainders of the minute count. */
  lemma ClockFields(v: int)
    ensures Read(v).minute == v % 60
    ensures 60 * Read(v).hour + Read(v).minute == v % DAY
  {
    hide YearOf, MonthFrom;
  }

  lemma InstantOrder(v: int, off: int, now: int)
    ensures StartOf(v, off) > now <==> v > LocalMinute(now, off)
    ensures StartOf(v, off) >= now <==> v > LocalMinute(now, off) || (v == LocalMinute(now, off) && now % MINUTE == 0)
  {}

  /** Slots recur with a fixed period. */
  function Period(r: Rule): (p: int)
    ensures p > 0
  {
    match r
    case Hourly(_) => 60
    case Daily(_, _) => DAY
    case Weekly(_, _, _) => 7 * DAY
  }

  function Phase(r: Rule): int {
    match r
    case Hourly(m) => m
    case Daily(h, m) => 60 * h + m
    case Weekly(w, h, m) => DAY * ((w + 6) % 7) + 60 * h + m
  }

  lemma FallsIff(r: Rule, v: int)
    requires IsRule(r)
    ensures Falls(r, v) <==> v % Period(r) == Phase(r)
  {
    hide Read, Weekday;
    ReadIsExact(v);
    ClockFields(v);
    match r
    case Hourly(m) =>
    case Daily(h, m) => SameClock(Read(v).hour, Read(v).minute, v % DAY, h, m);
    case Weekly(w, h, m) => WeeklyFallsIff(v, w, h, m);
  }

  lemma WeeklyFallsIff(v: int, w: int, h: int, m: int)
    requires 0 <= w < 7 && 0 <= h < 24 && 0 <= m < 60
    ensures Weekday(v) == w && Read(v).hour == h && Read(v).minute == m
      <==> v % (7 * DAY) == DAY * ((w + 6) % 7) + 60 * h + m
  {
    var day, time := WeekFields(v);
    assert 0 <= Read(v).minute < 60 && 60 * Read(v).hour + Read(v).minute == time by {
      ReadIsExact(v);
      ClockFields(v);
    }
    hide *;
    SameClock(Read(v).hour, Read(v).minute, time, h, m);
    SameWeekday(Weekday(v), day, time, w, 60 * h + m);
  }

  lemma SameClock(hour: int, minute: int, time: int, h: int, m: int)
    requires 0 <= minute < 60 && 0 <= m < 60 && 60 * hour + minute == time
    ensures time == 60 * h + m <==> hour == h && minute == m
  {}

  lemma SameWeekday(weekday: int, day: int, time: int, w: int, t: int)
    requires 0 <= weekday < 7 && 0 <= w < 7 && 0 <= time < DAY && 0 <= t < DAY && day == (weekday + 6) % 7
    ensures DAY * day + time == DAY * ((w + 6) % 7) + t <==> weekday == w && time == t
  {
    assert (weekday + 6) % 7 == (w + 6) % 7 <==> weekday == w;
  }

  /** The days since Monday, and the minutes since midnight. */
  lemma WeekFields(v: int) returns (day: int, time: int)
    ensures day == (v / DAY) % 7 == (Weekday(v) + 6) % 7 && 0 <= Weekday(v) < 7
    ensures time == v % DAY && 0 <= time < DAY && v % (7 * DAY) == DAY * day + time
  {
    day, time := (v / DAY) % 7, v % DAY;
    assert v == 7 * DAY * ((v / DAY) / 7) + (DAY * day + time);
  }

  /** A slot that is after `now`, one period after a slot that is not, is the next one. */
  lemma SlotIsLeast(r: Rule, off: int, now: int, strict: bool, c: int)
    requires IsRule(r) && Falls(r, c)
    requires After(StartOf(c, off), now, strict) && !After(StartOf(c - Period(r), off), now, strict)
    ensures IsNextSlot(r, off, now, strict, StartOf(c, off))
  {
    hide Falls, Period, Phase;
    forall u | IsSlot(r, off, u) && After(u, now, strict)
      ensures StartOf(c, off) <= u
    {
      var v :| Falls(r, v) && u == StartOf(v, off);
      FallsIff(r, v);
      FallsIff(r, c);
      SamePhase(r, v, c);
    }
  }

  lemma SamePhase(r: Rule, v: int, c: int)
    requires v % Period(r) == c % Period(r)
    ensures v <= c - Period(r) || c <= v
  {
    match r
    case Hourly(_) =>
    case Daily(_, _) =>
    case Weekly(_, _, _) =>
  }

  lemma NextPhase(r: Rule, c: int)
    ensures (c + Period(r)) % Period(r) == c % Period(r)
  {
    match r
    case Hourly(_) =>
    case Daily(_, _) =>
    case Weekly(_, _, _) =>
  }

  /** The minute `m` of the hour of `now`, also if there are not so many minutes in an hour. */
  function InHour(off: int, now: int, m: int): int {
    LocalMinute(now, off) - LocalMinute(now, off) % 60 + m
  }

  /** The slot in the current hour, day or week. */
  method CurrentSlot(r: Rule, local: int) returns (c: int)
    requires r.Hourly? || IsRule(r)
    ensures IsRule(r) ==> Falls(r, c) && c - Period(r) < local < c + Period(r)
    ensures r.Hourly? ==> c == local - local % 60 + r.minute
  {
    hide Read, Date, Falls;
    var d := Read(local);
    match r {
      case Hourly(m) =>
        c := Date(d.year, d.month, d.day, d.hour, m);
        HourSlot(local, m);
      case Daily(h, m) =>
        c := Date(d.year, d.month, d.day, h, m);
        DaySlot(local, h, m);
      case Weekly(w, h, m) =>
        c := Date(d.year, d.month, d.day, h, m);
        DaySlot(local, h, m);
        WeekSlot(local, c, w);
        c := c + DAY * ((w - Weekday(c) + 7) % 7);
    }
    if IsRule(r) {
      FallsIff(r, c);
    }
  }

  /**
    The next slot of a rule: this hour's, today's or this week's, or else the one after it. The
    minute of an hourly rule is not checked here.
   */
  method NextSlot(r: Rule, off: int, now: int, strict: bool) returns (t: int)
    requires r.Hourly? || IsRule(r)
    ensures IsRule(r) ==> IsNextSlot(r, off, now, strict, t)
    ensures r.Hourly? ==> t == HourlyAnswer(off, now, strict, r.minute)
  {
    hide Falls, StartOf, After, IsNextSlot;
    var c := CurrentSlot(r, LocalMinute(now, off));
    if IsRule(r) {
      NextOfCurrent(r, off, now, strict, c);
    }
    if !After(StartOf(c, off), now, strict) {
      c := c + Period(r);
    }
    t := StartOf(c, off);
  }

  function HourlyAnswer(off: int, now: int, strict: bool, m: int): int {
    var t := StartOf(InHour(off, now, m), off);
    if After(t, now, strict) then t else StartOf(InHour(off, now, m) + 60, off)
  }

  /** The current slot, or if that is over the one a period later, is the next. */
  lemma NextOfCurrent(r: Rule, off: int, now: int, strict: bool, c: int)
    requires IsRule(r) && Falls(r, c) && c - Period(r) < LocalMinute(now, off) < c + Period(r)
    ensures
      var next := if After(StartOf(c, off), now, strict) then c else c + Period(r);
      IsNextSlot(r, off, now, strict, StartOf(next, off))
  {
    hide Falls, StartOf, After, Period, IsNextSlot;
    Around(c, off, now, strict, Period(r));
    if After(StartOf(c, off), now, strict) {
      SlotIsLeast(r, off, now, strict, c);
    } else {
      NextPhase(r, c);
      FallsIff(r, c);
      FallsIff(r, c + Period(r));
      SlotIsLeast(r, off, now, strict, c + Period(r));
    }
  }

  /** A slot less than a period before or after `now`: its neighbours are on either side. */
  lemma Around(c: int, off: int, now: int, strict: bool, p: int)
    requires c - p < LocalMinute(now, off) < c + p
    ensures !After(StartOf(c - p, off), now, strict) && After(StartOf(c + p, off), now, strict)
  {
    InstantOrder(c - p, off, now);
    InstantOrder(c + p, off, now);
  }

  lemma WeekSlot(local: int, c: int, w: int)
    requires 0 <= w < 7 && local - local % DAY <= c < local - local % DAY + DAY
    ensures
      var s := c + DAY * ((w - Weekday(c) + 7) % 7);
      && s % (7 * DAY) == DAY * ((w + 6) % 7) + c % DAY
      && s - 7 * DAY < local < s + 7 * DAY
  {
    var k := (w - Weekday(c) + 7) % 7;
    DaysLater(c, k);
    DaysToWeekday(c / DAY, Weekday(c), w, k);
    var day, time := WeekFields(c + DAY * k);
    assert 0 <= local % DAY < DAY && 0 <= k < 7;
    hide *;
  }

  lemma DaysLater(c: int, k: int)
    ensures (c + DAY * k) / DAY == c / DAY + k && (c + DAY * k) % DAY == c % DAY
  {}

  lemma DaysToWeekday(day: int, weekday: int, w: int, k: int)
    requires weekday == (day + 1) % 7 && 0 <= w < 7 && k == (w - weekday + 7) % 7
    ensures (day + k) % 7 == (w + 6) % 7
  {
    assert (day + k + 1) % 7 == w;
  }

  /** The minute `m` of the current hour. */
  lemma HourSlot(local: int, m: int)
    ensures
      var d := Read(local);
      var c := Date(d.year, d.month, d.day, d.hour, m);
      && c == local - local % 60 + m
      && (0 <= m < 60 ==> c % 60 == m && c - 60 < local < c + 60)
  {
    hide Read, Date;
    ReadIsExact(local);
    ClockFields(local);
    var d := Read(local);
    DateIsLinear(d.year, d.month, d.day, d.hour, d.minute);
    DateIsLinear(d.year, d.month, d.day, d.hour, m);
    if 0 <= m < 60 {
      Rounded(local, 60, m);
    }
  }

  /** The time h:m of the current day. */
  lemma DaySlot(local: int, h: int, m: int)
    requires 0 <= h < 24 && 0 <= m < 60
    ensures
      var d := Read(local);
      var c := Date(d.year, d.month, d.day, h, m);
      && c % DAY == 60 * h + m && c - DAY < local < c + DAY
      && local - local % DAY <= c < local - local % DAY + DAY
  {
    hide Read, Date;
    ReadIsExact(local);
    ClockFields(local);
    var d := Read(local);
    DateIsLinear(d.year, d.month, d.day, d.hour, d.minute);
    DateIsLinear(d.year, d.month, d.day, h, m);
    Rounded(local, DAY, 60 * h + m);
  }

  lemma Rounded(local: int, p: int, r: int)
    requires (p == 60 || p == DAY) && 0 <= r < p
    ensures (local - local % p + r) % p == r
  {
    if p == 60 {
    } else {
    }
  }

  // Cron schedules

  /** What the cron search answers, starting after `now` or from the start of its minute. */
  ghost predicate IsCronAnswer(c: Cron.Cron, off: int, now: int, strict: bool, a: Answer) {
    var from := LocalMinute(now, off) + if strict then 1 else 0;
    match a
    case At(t) =>
      exists v :: t == StartOf(v, off) && from <= v < Cron.Limit(from)
                  && Cron.Matches(c, v) && Cron.NoMatch(c, from, v)
    case Never => Cron.NoMatch(c, from, Cron.Limit(from))
    case _ => false
  }

  /** A strict cron answer is later than `now`. */
  lemma StrictCronIsLater(c: Cron.Cron, off: int, now: int, t: int)
    requires IsCronAnswer(c, off, now, true, At(t))
    ensures t > now
  {
    hide Cron.Matches, Cron.NoMatch, Cron.Limit;
    var v :| t == StartOf(v, off) && LocalMinute(now, off) + 1 <= v < Cron.Limit(LocalMinute(now, off) + 1)
             && Cron.Matches(c, v) && Cron.NoMatch(c, LocalMinute(now, off) + 1, v);
    InstantOrder(v, off, now);
  }

  /**
    A non-strict answer is meant to be at or after `now`; it is earlier exactly when `now` is past
    the start of a minute that matches.
   */
  lemma NonStrictCronIsEarlierIff(c: Cron.Cron, off: int, now: int, t: int)
    requires IsCronAnswer(c, off, now, false, At(t))
    ensures t < now <==> now % MINUTE != 0 && Cron.Matches(c, LocalMinute(now, off))
  {
    hide Cron.Matches, Cron.Limit;
    var from := LocalMinute(now, off);
    var v :| t == StartOf(v, off) && from <= v < Cron.Limit(from) && Cron.Matches(c, v) && Cron.NoMatch(c, from, v);
    InstantOrder(v, off, now);
    assert v == from <==> Cron.Matches(c, from);
  }

  method NextCron(c: Cron.Cron, off: int, now: int, strict: bool) returns (a: Answer)
    ensures IsCronAnswer(c, off, now, strict, a)
  {
    hide Cron.Matches, Cron.NoMatch, Cron.Limit;
    var start := if strict then now else now - MINUTE;
    var found := Cron.Next(c, LocalMinute(start, off));
    a := if found.None? then Never else At(StartOf(found.value, off));
  }

  // Any task

  datatype TaskType = OneTime | Periodic | Unknown

  /** The rule of an hourly, daily or weekly plan, or None when its time does not parse. */
  function RuleOf(p: Plan, frequency: string): Option<Rule> {
    if frequency == "hourly" then Some(Hourly(MinuteOf(p)))
    else
      var (h, m) :- ParseTime(p.time);
      Some(if frequency == "daily" then Daily(h, m) else Weekly(WeekdayNamed(p.dayOfWeek), h, m))
  }

  /** How often a periodic plan runs. */
  function Frequency(p: Plan): string {
    CronParse.ToLower(OrDefault(p.frequency, "daily"))
  }

  /** What the next run of a task is. */
  ghost predicate IsNext(kind: TaskType, p: Plan, off: int, now: int, strict: bool, a: Answer) {
    match kind
    case OneTime =>
      a == if p.runAt.None? then Error else if strict && p.runAt.value <= now then Never else At(p.runAt.value)
    case Unknown => a == Error
    case Periodic =>
      if Frequency(p) in ["hourly", "daily", "weekly"] then
        match RuleOf(p, Frequency(p))
        case None => a == Error
        case Some(r) =>
          if IsRule(r) then a.At? && IsNextSlot(r, off, now, strict, a.instant)
          else r.Hourly? && a == At(HourlyAnswer(off, now, strict, r.minute))
      else if Frequency(p) == "cron" then
        match CronParse.JudgeExpression(p.cron)
        case Rejected => a == Error
        case Crashed => a == Crash
        case Accepted => exists c :: CronParse.Parses(p.cron, c) && IsCronAnswer(c, off, now, strict, a)
      else a == Error
  }

  /** The next run, whatever was stored. */
  method Next(kind: TaskType, p: Plan, off: int, now: int, strict: bool) returns (a: Answer)
    ensures IsNext(kind, p, off, now, strict, a)
  {
    hide CronParse.ToLower, OrDefault, ParseTime, WeekdayNamed, IsCronAnswer, IsNextSlot, HourlyAnswer;
    match kind {
      case OneTime =>
        if p.runAt.None? {
          return Error;
        }
        if strict && p.runAt.value <= now {
          return Never;
        }
        return At(p.runAt.value);
      case Unknown =>
        return Error;
      case Periodic =>
    }
    var frequency := Frequency(p);
    if frequency == "cron" {
      var parsed := CronParse.ParseCron(p.cron);
      match parsed {
        case Refused => return Error;
        case Panicked => return Crash;
        case Parsed(c) =>
          a := NextCron(c, off, now, strict);
          return;
      }
    }
    if frequency != "hourly" && frequency != "daily" && frequency != "weekly" {
      return Error;
    }
    var rule := RuleOf(p, frequency);
    if rule.None? {
      return Error;
    }
    var t := NextSlot(rule.value, off, now, strict);
    return At(t);
  }

  // Answers before now

  predicate IsHourly(kind: TaskType, p: Plan) {
    kind == Periodic && Frequency(p) == "hourly"
  }

  function MinuteOf(p: Plan): int {
    if p.minute.Some? then p.minute.value else 0
  }

  /** The cron expression of the plan names the minute `now` falls in. */
  ghost predicate CronNamesNow(kind: TaskType, p: Plan, off: int, now: int) {
    && kind == Periodic && Frequency(p) == "cron"
    && exists c :: CronParse.Parses(p.cron, c) && Cron.Matches(c, LocalMinute(now, off))
  }

  /**
    The next run is meant to lie at or after `now`. An answer lies before it exactly if it is not
    strict and the task's one time is over or `now` is past the start of a minute its cron expression
    names, or if an hourly minute that no hour has is so far back that even an hour later it is over.
   */
  lemma AnswersBeforeNowIff(kind: TaskType, p: Plan, off: int, now: int, strict: bool, a: Answer)
    requires IsNext(kind, p, off, now, strict, a) && a.At?
    ensures a.instant < now <==>
      || (!strict && kind == OneTime && p.runAt.Some? && p.runAt.value < now)
      || (!strict && CronNamesNow(kind, p, off, now) && now % MINUTE != 0)
      || (IsHourly(kind, p) && StartOf(InHour(off, now, MinuteOf(p)) + 60, off) < now)
    ensures MinuteOf(p) >= 0 ==> StartOf(InHour(off, now, MinuteOf(p)) + 60, off) >= now
  {
    hide CronParse.ToLower, OrDefault, ParseTime, WeekdayNamed, IsCronAnswer, IsNextSlot, CronParse.Parses,
         CronParse.JudgeExpression, Cron.Matches, CronParse.Trim;
    InstantOrder(InHour(off, now, MinuteOf(p)) + 60, off, now);
    if kind == Periodic && Frequency(p) == "cron" {
      var c :| CronParse.Parses(p.cron, c) && IsCronAnswer(c, off, now, strict, a);
      if strict {
        StrictCronIsLater(c, off, now, a.instant);
      } else {
        NonStrictCronIsEarlierIff(c, off, now, a.instant);
        forall d | CronParse.Parses(p.cron, d) ensures d == c {
          CronParse.ParsesOnce(p.cron, c, d);
        }
      }
    } else if kind == Periodic && RuleOf(p, Frequency(p)).Some? {
      var r := RuleOf(p, Frequency(p)).value;
      if IsRule(r) {
        NextSlotIsNotBefore(r, off, now, strict, a.instant);
      }
    }
  }

  lemma NextSlotIsNotBefore(r: Rule, off: int, now: int, strict: bool, t: int)
    requires IsNextSlot(r, off, now, strict, t)
    ensures t >= now
  {}

  /** What Create asks of a plan's hourly minute. */
  predicate HasValidMinute(p: Plan) {
    p.minute.Some? ==> 0 <= p.minute.value <= 59
  }

  /** So hourly, daily and weekly tasks that were created here never run in the past. */
  lemma SlotsAreNeverBeforeNow(p: Plan, off: int, now: int, strict: bool, a: Answer)
    requires IsNext(Periodic, p, off, now, strict, a) && a.At? && HasValidMinute(p) && Frequency(p) != "cron"
    ensures a.instant >= now
  {
    AnswersBeforeNowIff(Periodic, p, off, now, strict, a);
    hide IsNext, StartOf, InHour, Frequency;
  }

  // Creating a task

  /** Validate: what a schedule must look like. */
  predicate IsValid(kind: TaskType, p: Plan) {
    match kind
    case OneTime => p.runAt.Some?
    case Unknown => false
    case Periodic =>
      var frequency := CronParse.ToLower(p.frequency);
      if frequency == "hourly" then HasValidMinute(p)
      else if frequency == "daily" || frequency == "" then ParseTime(p.time).Some?
      else if frequency == "weekly" then
        ParseTime(p.time).Some? && CronParse.ToLower(OrDefault(p.dayOfWeek, "mon")) in Weekdays()
      else frequency == "cron" && CronParse.JudgeExpression(p.cron) == CronParse.Accepted
  }

  /** A task with this plan can be created at `now`, and will first run at `first`. */
  ghost predicate IsFirstRun(kind: TaskType, p: Plan, off: int, now: int, first: int) {
    && IsValid(kind, p) && IsNext(kind, p, off, now, false, At(first))
    && (kind == OneTime ==> first >= now - MINUTE)
  }

  /** No task is created that was to run more than a minute ago; only cron and one-time ones are to run before now. */
  lemma FirstRunIsRecent(kind: TaskType, p: Plan, off: int, now: int, first: int)
    requires IsFirstRun(kind, p, off, now, first)
    ensures first >= now - MINUTE
    ensures first < now ==> kind == OneTime || (kind == Periodic && Frequency(p) == "cron")
  {
    AnswersBeforeNowIff(kind, p, off, now, false, At(first));
    ValidMinute(kind, p);
    if kind == Periodic && Frequency(p) == "cron" {
      CronRunIsRecent(p, off, now, first);
    }
    hide IsNext, IsValid, Frequency, MinuteOf, InHour, StartOf, CronNamesNow;
  }

  lemma CronRunIsRecent(p: Plan, off: int, now: int, first: int)
    requires IsNext(Periodic, p, off, now, false, At(first)) && Frequency(p) == "cron"
    ensures first >= now - MINUTE
  {
    hide Frequency, CronParse.Parses, CronParse.JudgeExpression, IsCronAnswer;
    var c :| CronParse.Parses(p.cron, c) && IsCronAnswer(c, off, now, false, At(first));
    CronIsWithinAMinute(c, off, now, first);
  }

  lemma ValidMinute(kind: TaskType, p: Plan)
    requires IsValid(kind, p)
    ensures IsHourly(kind, p) ==> MinuteOf(p) >= 0
  {
    hide ParseTime, CronParse.JudgeExpression, Weekdays;
    assert CronParse.ToLower("daily")[0] == 'd';
  }

  /** A cron answer is not before the minute of `now`. */
  lemma CronIsWithinAMinute(c: Cron.Cron, off: int, now: int, first: int)
    requires IsCronAnswer(c, off, now, false, At(first))
    ensures first >= now - MINUTE
  {
    hide Cron.Matches, Cron.NoMatch, Cron.Limit;
    var from := LocalMinute(now, off);
    var v :| first == StartOf(v, off) && from <= v < Cron.Limit(from) && Cron.Matches(c, v) && Cron.NoMatch(c, from, v);
    assert StartOf(v, off) >= StartOf(from, off);
  }
}
