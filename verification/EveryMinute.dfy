/**
  A next run that is not strict may lie before now (internal/tasks/schedule.go): every minute, asked
  half a minute past midnight.
 */
module EveryMinute {
  import opened Text
  import opened Calendar
  import opened Cron
  import opened CronHorizon
  import opened CronParse
  import opened CronWords
  import Schedule

  const EXPRESSION := "* * * * *"

  function Between(lo: int, hi: int): Table {
    seq(64, i => lo <= i <= hi)
  }

  /** What the expression means. */
  function Spec(): Cron {
    Cron(Between(0, 59), Between(0, 23), Between(1, 31), Between(1, 12), Between(0, 7), true, true)
  }

  /** There is nothing to trim, and no shortcut. */
  lemma ExpressionAsWritten()
    ensures Expand(Trim(EXPRESSION)) == EXPRESSION
  {
    assert EXPRESSION[0] == '*' && EXPRESSION[|EXPRESSION| - 1] == '*';
    assert Trim(EXPRESSION) == EXPRESSION;
  }

  lemma Pieces()
    ensures IsWord("*")
    ensures EXPRESSION == "*" + (" " + "* * * *") && "* * * *" == "*" + (" " + "* * *")
    ensures "* * *" == "*" + (" " + "* *") && "* *" == "*" + (" " + "*")
  {}

  lemma ExpressionFields()
    ensures Fields(Expand(Trim(EXPRESSION))) == ["*", "*", "*", "*", "*"]
  {
    hide Fields, Trim, Expand, IsWord;
    ExpressionAsWritten();
    Pieces();
    hide *;
    FirstField("*", "* * * *");
    FirstField("*", "* * *");
    FirstField("*", "* *");
    FirstField("*", "*");
    FirstField("*", "");
  }

  lemma ExpressionMeansSpec()
    ensures Parses(EXPRESSION, Spec())
  {
    hide Selects, Judge, Split, ToLower, Months, Days, Fields, Expand, Trim;
    ExpressionFields();
    var c := Spec();
    forall i | 0 <= i < 64 ensures
      && (c.min[i] <==> Selects("*", 0, 59, map[], i)) && (c.hour[i] <==> Selects("*", 0, 23, map[], i))
      && (c.dom[i] <==> Selects("*", 1, 31, map[], i)) && (c.month[i] <==> Selects("*", 1, 12, Months(), i))
      && (c.dow[i] <==> Selects("*", 0, 7, Days(), i) || (i == 0 && Selects("*", 0, 7, Days(), 7)))
    {
      StarField(0, 59, map[], i);
      StarField(0, 23, map[], i);
      StarField(1, 31, map[], i);
      StarField(1, 12, Months(), i);
      StarField(0, 7, Days(), i);
      StarField(0, 7, Days(), 7);
    }
    StarField(0, 59, map[], 0);
    StarField(0, 23, map[], 0);
    StarField(1, 31, map[], 0);
    StarField(1, 12, Months(), 0);
    StarField(0, 7, Days(), 0);
    SpecIsWellFormed();
  }

  lemma SpecIsWellFormed()
    ensures WellFormed(Spec())
  {
    var c := Spec();
    assert c.min[0] && c.hour[0] && c.dom[1] && c.month[1] && c.dow[0];
  }

  /** Midnight of day one, the minute that half a minute past midnight falls in, matches. */
  lemma MidnightMatches()
    ensures Schedule.IsCronAnswer(Spec(), 0, Schedule.MINUTE / 2, false, Schedule.At(0))
  {
    hide Limit, Read;
    ReadIsExact(0);
    LimitIsLater(0);
    assert Matches(Spec(), 0) && Schedule.StartOf(0, 0) == 0;
  }

  /** Not strictly after half a minute past midnight, "* * * * *" next runs at midnight. */
  lemma AnswersEarly()
    ensures Schedule.IsNext(Schedule.Periodic, PlanOf(EXPRESSION), 0, Schedule.MINUTE / 2, false, Schedule.At(0))
    ensures 0 < Schedule.MINUTE / 2
  {
    ExpressionMeansSpec();
    MidnightMatches();
    hide Parses, Spec, Schedule.IsCronAnswer, Schedule.IsNext;
    CronAnswerIsNext(EXPRESSION, Spec(), Schedule.MINUTE / 2, false, Schedule.At(0));
  }
}
