/**
  A schedule that can come back empty-handed and later does not: midnight of every 29 February
  (internal/tasks/schedule.go). No year from 2097 to 2103 has one, so in the evening of 28 February
  2099 the search of five years ends a day too early, and the next midnight it does not.
 */
module LeapDay {
  import opened Text
  import opened Calendar
  import opened Cron
  import opened CronHorizon
  import opened CronParse
  import opened CronWords
  import Schedule

  const EXPRESSION := "0 0 29 2 *"

  function Midnights(): Schedule.Plan {
    PlanOf(EXPRESSION)
  }

  function Only(n: nat): Table {
    seq(64, i => i == n)
  }

  /** What the expression means. */
  function Spec(): Cron {
    Cron(Only(0), Only(0), Only(29), Only(2), seq(64, i => 0 <= i <= 7), false, true)
  }

  // Reading the expression

  /** There is nothing to trim, and no shortcut. */
  lemma ExpressionAsWritten()
    ensures Expand(Trim(EXPRESSION)) == EXPRESSION
  {
    assert EXPRESSION[0] == '0' && EXPRESSION[|EXPRESSION| - 1] == '*';
    assert Trim(EXPRESSION) == EXPRESSION;
  }

  lemma Words()
    ensures IsWord("0") && IsWord("29") && IsWord("2") && IsWord("*")
  {}

  lemma Pieces()
    ensures EXPRESSION == "0" + (" " + "0 29 2 *") && "0 29 2 *" == "0" + (" " + "29 2 *")
    ensures "29 2 *" == "29" + (" " + "2 *") && "2 *" == "2" + (" " + "*")
  {}

  lemma ExpressionFields()
    ensures Fields(Expand(Trim(EXPRESSION))) == ["0", "0", "29", "2", "*"]
  {
    hide Fields, Trim, Expand, IsWord;
    ExpressionAsWritten();
    Words();
    Pieces();
    hide *;
    FirstField("0", "0 29 2 *");
    FirstField("0", "29 2 *");
    FirstField("29", "2 *");
    FirstField("2", "*");
    FirstField("*", "");
  }

  lemma Numerals()
    ensures Decimal(0) == "0" && Decimal(2) == "2" && Decimal(29) == "29"
    ensures ToLower("2") !in Months()
  {
    assert Decimal(2) == [Digit(2)] && Decimal(29) == Decimal(2) + [Digit(9)];
    assert |ToLower("2")| == 1;
  }

  lemma ExpressionMeansSpec()
    ensures Parses(EXPRESSION, Spec())
  {
    hide Selects, Judge, Split, Decimal, ToLower, Months, Days, Fields, Expand, Trim;
    ExpressionFields();
    Numerals();
    var c := Spec();
    forall i | 0 <= i < 64 ensures
      && (c.min[i] <==> Selects("0", 0, 59, map[], i)) && (c.hour[i] <==> Selects("0", 0, 23, map[], i))
      && (c.dom[i] <==> Selects("29", 1, 31, map[], i)) && (c.month[i] <==> Selects("2", 1, 12, Months(), i))
      && (c.dow[i] <==> Selects("*", 0, 7, Days(), i) || (i == 0 && Selects("*", 0, 7, Days(), 7)))
    {
      NumberField(0, 0, 59, map[], i);
      NumberField(0, 0, 23, map[], i);
      NumberField(29, 1, 31, map[], i);
      NumberField(2, 1, 12, Months(), i);
      StarField(0, 7, Days(), i);
      StarField(0, 7, Days(), 7);
    }
    NumberField(0, 0, 59, map[], 0);
    NumberField(0, 0, 23, map[], 0);
    NumberField(29, 1, 31, map[], 0);
    NumberField(2, 1, 12, Months(), 0);
    StarField(0, 7, Days(), 0);
    SpecIsWellFormed();
  }

  lemma SpecIsWellFormed()
    ensures WellFormed(Spec())
  {
    var c := Spec();
    assert c.min[0] && c.hour[0] && c.dom[29] && c.month[2] && c.dow[0];
  }

  // Two evenings in 2099

  /** Late on 28 February: the search ends on 28 February 2104. */
  function Evening(): int {
    Date(2099, 2, 28, 22, 0)
  }

  /** Two hours later it ends on 1 March 2104. */
  function NextMidnight(): int {
    Date(2099, 3, 1, 0, 0)
  }

  function NextLeapDay(): int {
    Date(2104, 2, 29, 0, 0)
  }

  lemma SpecHasNoYearlyDay()
    ensures !HasYearlyDay(Spec())
  {}

  /** The minute `k` of an hour, and the same minute five years later. */
  lemma LimitOf(d: Civil)
    requires IsDate(d)
    ensures Limit(Minutes(d)) == Date(d.year + 5, d.month, d.day, d.hour, d.minute)
  {
    hide Read, Date;
    ReadIsUnique(d);
  }

  lemma EndOfFebruary2099()
    ensures Evening() + 1 == Date(2099, 2, 28, 22, 1)
    ensures NextMidnight() == Evening() + 120 && NextMidnight() + 1 == Date(2099, 3, 1, 0, 1)
  {
    hide Date;
    NextMonth(2099, 2);
    DateIsLinear(2099, 2, 28, 22, 0);
    DateIsLinear(2099, 2, 28, 22, 1);
    DateIsLinear(2099, 3, 1, 0, 1);
  }

  lemma EndOfFebruary2104()
    ensures Date(2104, 2, 28, 22, 1) < NextLeapDay() < Date(2104, 3, 1, 0, 1)
  {
    hide Date;
    NextMonth(2104, 2);
    DateIsLinear(2104, 2, 28, 22, 1);
    DateIsLinear(2104, 2, 29, 0, 0);
    DateIsLinear(2104, 3, 1, 0, 1);
  }

  lemma EarlierYear(c: Civil, d: Civil)
    requires IsDate(c) && IsDate(d) && c.year < d.year
    ensures Minutes(c) < Minutes(d)
  {
    hide Date, DaysBeforeYear;
    WithinYear(c);
    WithinYear(d);
    YearsGrow(c.year + 1, d.year);
  }

  lemma InOrder()
    ensures Date(2096, 3, 1, 0, 0) <= Evening() + 1 == Date(2099, 2, 28, 22, 1)
    ensures NextMidnight() == Evening() + 120 && NextMidnight() + 1 == Date(2099, 3, 1, 0, 1)
    ensures Date(2104, 2, 28, 22, 1) < NextLeapDay() < Date(2104, 3, 1, 0, 1)
    ensures NextMidnight() + 1 < NextLeapDay()
  {
    hide Date;
    EndOfFebruary2099();
    EndOfFebruary2104();
    EarlierYear(Civil(2096, 3, 1, 0, 0), Civil(2099, 2, 28, 22, 1));
    EarlierYear(Civil(2099, 3, 1, 0, 1), Civil(2104, 2, 29, 0, 0));
  }

  lemma QuietUntilLeapDay(from: int, to: int)
    requires Date(2096, 3, 1, 0, 0) <= from && to <= NextLeapDay()
    ensures NoMatch(Spec(), from, to)
  {
    SpecIsWellFormed();
    SpecHasNoYearlyDay();
    hide Date, Matches, HasYearlyDay, WellFormed;
    forall v | from <= v < to ensures !Matches(Spec(), v) {
      NothingUntil2104(Spec(), v);
    }
  }

  lemma EveningFindsNothing()
    ensures Schedule.IsCronAnswer(Spec(), 0, Evening() * Schedule.MINUTE, true, Schedule.Never)
  {
    hide Date, Spec, NoMatch, Limit;
    var from := Evening() + 1;
    assert Schedule.LocalMinute(Evening() * Schedule.MINUTE, 0) == Evening();
    InOrder();
    LimitOf(Civil(2099, 2, 28, 22, 1));
    QuietUntilLeapDay(from, Limit(from));
  }

  lemma MidnightFindsLeapDay()
    ensures Schedule.IsCronAnswer(Spec(), 0, NextMidnight() * Schedule.MINUTE, true,
                                  Schedule.At(NextLeapDay() * Schedule.MINUTE))
  {
    hide Date, Matches, Spec, NoMatch, Limit;
    var from := NextMidnight() + 1;
    assert Schedule.LocalMinute(NextMidnight() * Schedule.MINUTE, 0) == NextMidnight();
    assert Schedule.StartOf(NextLeapDay(), 0) == NextLeapDay() * Schedule.MINUTE;
    InOrder();
    LimitOf(Civil(2099, 3, 1, 0, 1));
    LeapDayMatches();
    QuietUntilLeapDay(from, NextLeapDay());
  }

  lemma LeapDayMatches()
    ensures Matches(Spec(), NextLeapDay())
  {
    hide Date, Matches;
    DateMatches(Spec(), Civil(2104, 2, 29, 0, 0));
  }

  /** In the evening the schedule has no next run; two hours later it has one. */
  lemma NoNextRunThenOne()
    ensures Schedule.IsNext(Schedule.Periodic, Midnights(), 0, Evening() * Schedule.MINUTE, true, Schedule.Never)
    ensures Schedule.IsNext(Schedule.Periodic, Midnights(), 0, NextMidnight() * Schedule.MINUTE, true,
                            Schedule.At(NextLeapDay() * Schedule.MINUTE))
    ensures NextMidnight() == Evening() + 120
  {
    EveningFindsNothing();
    MidnightFindsLeapDay();
    InOrder();
    ExpressionMeansSpec();
    hide Schedule.IsNext, Schedule.IsCronAnswer, Parses, Spec, NextMidnight, NextLeapDay, Evening;
    CronAnswerIsNext(EXPRESSION, Spec(), Evening() * Schedule.MINUTE, true, Schedule.Never);
    CronAnswerIsNext(EXPRESSION, Spec(), NextMidnight() * Schedule.MINUTE, true,
                     Schedule.At(NextLeapDay() * Schedule.MINUTE));
  }

  // Creating it

  /** The last minute before 29 February 2096. */
  function DayBefore(): int {
    FirstLeapDay() - 1
  }

  function FirstLeapDay(): int {
    Date(2096, 2, 29, 0, 0)
  }

  lemma DayBeforeIs()
    ensures DayBefore() == Minutes(Civil(2096, 2, 28, 23, 59))
    ensures FirstLeapDay() == Minutes(Civil(2096, 2, 29, 0, 0)) == DayBefore() + 1 < Limit(DayBefore())
  {
    hide Date, Limit;
    DateIsLinear(2096, 2, 28, 23, 59);
    DateIsLinear(2096, 2, 29, 0, 0);
    LimitOf(Civil(2096, 2, 28, 23, 59));
    EarlierYear(Civil(2096, 2, 29, 0, 0), Civil(2101, 2, 28, 23, 59));
  }

  /** That minute is not the first of an hour. */
  lemma DayBeforeDoesNotMatch()
    ensures NoMatch(Spec(), DayBefore(), DayBefore() + 1)
  {
    DayBeforeIs();
    hide Read, Date, DayBefore, FirstLeapDay;
    ReadIsUnique(Civil(2096, 2, 28, 23, 59));
  }

  lemma FirstLeapDayMatches()
    ensures Matches(Spec(), FirstLeapDay())
  {
    DayBeforeIs();
    hide Date, Matches, DayBefore, FirstLeapDay;
    DateMatches(Spec(), Civil(2096, 2, 29, 0, 0));
  }

  /** So the search finds the next one. */
  lemma DayBeforeFindsLeapDay()
    ensures Schedule.IsCronAnswer(Spec(), 0, DayBefore() * Schedule.MINUTE, false,
                                  Schedule.At(FirstLeapDay() * Schedule.MINUTE))
  {
    DayBeforeIs();
    DayBeforeDoesNotMatch();
    FirstLeapDayMatches();
    hide Minutes, DayBefore, FirstLeapDay, Matches, Spec, NoMatch, Limit;
    assert Schedule.LocalMinute(DayBefore() * Schedule.MINUTE, 0) == DayBefore();
    assert Schedule.StartOf(FirstLeapDay(), 0) == FirstLeapDay() * Schedule.MINUTE;
  }

  /** On the day before 29 February 2096 a task with this schedule can be created. */
  lemma CanBeCreated()
    ensures Schedule.IsFirstRun(Schedule.Periodic, Midnights(), 0, DayBefore() * Schedule.MINUTE,
                                FirstLeapDay() * Schedule.MINUTE)
    ensures DayBefore() < FirstLeapDay() < Evening() - 120
  {
    DayBeforeFindsLeapDay();
    ExpressionMeansSpec();
    LongAgo();
    hide Schedule.IsNext, Schedule.IsValid, Schedule.IsCronAnswer, Parses, Spec, DayBefore, FirstLeapDay, Evening;
    CronAnswerIsNext(EXPRESSION, Spec(), DayBefore() * Schedule.MINUTE, false,
                     Schedule.At(FirstLeapDay() * Schedule.MINUTE));
  }

  lemma LongAgo()
    ensures DayBefore() < FirstLeapDay() < Evening() - 120
  {
    hide Date;
    DateIsLinear(2099, 2, 28, 20, 0);
    DateIsLinear(2099, 2, 28, 22, 0);
    EarlierYear(Civil(2096, 2, 29, 0, 0), Civil(2099, 2, 28, 20, 0));
  }
}
