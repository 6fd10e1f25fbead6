/**
  What the shortcuts for cron expressions mean (internal/tasks/schedule.go, ParseCron).
 */
module Shortcuts {
  import opened Text
  import opened Calendar
  import opened Cron
  import opened CronHorizon
  import opened CronParse
  import opened CronWords

  // The five fields each of them stands for

  lemma FiveFields(a: string, b: string, c: string, d: string, e: string)
    requires IsWord(a) && IsWord(b) && IsWord(c) && IsWord(d) && IsWord(e)
    ensures Fields(a + (" " + (b + (" " + (c + (" " + (d + (" " + e)))))))) == [a, b, c, d, e]
  {
    hide IsWord, Fields;
    var s4 := d + (" " + e);
    var s3 := c + (" " + s4);
    var s2 := b + (" " + s3);
    FirstField(e, "");
    FirstField(d, e);
    FirstField(c, s4);
    FirstField(b, s3);
    FirstField(a, s2);
  }

  lemma Words()
    ensures IsWord("0") && IsWord("1") && IsWord("*")
  {}

  lemma Expands()
    ensures Expand(Trim("@hourly")) == "0 * * * *"
    ensures Expand(Trim("@daily")) == "0 0 * * *" == Expand(Trim("@midnight"))
    ensures Expand(Trim("@weekly")) == "0 0 * * 0"
    ensures Expand(Trim("@monthly")) == "0 0 1 * *"
  {
    assert Trim("@hourly") == "@hourly" && Trim("@daily") == "@daily" && Trim("@midnight") == "@midnight";
    assert Trim("@weekly") == "@weekly" && Trim("@monthly") == "@monthly";
  }

  /** The fields of a shortcut. */
  function FieldsOf(expr: string): seq<string> {
    Fields(Expand(Trim(expr)))
  }

  lemma ShortcutFields()
    ensures FieldsOf("@hourly") == ["0", "*", "*", "*", "*"]
    ensures FieldsOf("@daily") == ["0", "0", "*", "*", "*"] == FieldsOf("@midnight")
    ensures FieldsOf("@weekly") == ["0", "0", "*", "*", "0"]
    ensures FieldsOf("@monthly") == ["0", "0", "1", "*", "*"]
  {
    Expands();
    Words();
    hide Fields, Expand, Trim, IsWord;
    FiveFields("0", "*", "*", "*", "*");
    FiveFields("0", "0", "*", "*", "*");
    FiveFields("0", "0", "*", "*", "0");
    FiveFields("0", "0", "1", "*", "*");
    assert "0 * * * *" == "0" + (" " + ("*" + (" " + ("*" + (" " + ("*" + (" " + "*")))))));
    assert "0 0 * * *" == "0" + (" " + ("0" + (" " + ("*" + (" " + ("*" + (" " + "*")))))));
    assert "0 0 * * 0" == "0" + (" " + ("0" + (" " + ("*" + (" " + ("*" + (" " + "0")))))));
    assert "0 0 1 * *" == "0" + (" " + ("0" + (" " + ("1" + (" " + ("*" + (" " + "*")))))));
  }

  // What such fields select

  /** A starred field, or one that is the number `n`. */
  predicate IsSimple(field: string, n: nat) {
    field == "*" || field == Decimal(n)
  }

  lemma SimpleField(field: string, n: nat, lo: int, hi: int, names: map<string, int>, i: int)
    requires 0 <= lo <= n <= hi < 64 && ToLower(Decimal(n)) !in names && IsSimple(field, n)
    ensures Judge(Split(field, ','), lo, hi, names) == Accepted
    ensures Selects(field, lo, hi, names, i) <==> lo <= i <= hi && (field == "*" || i == n)
  {
    assert '*' !in Decimal(n) && '*' in "*";
    hide Selects, Judge, Split, Decimal;
    if field == "*" {
      StarField(lo, hi, names, i);
    } else {
      NumberField(n, lo, hi, names, i);
    }
  }

  lemma Digits()
    ensures Decimal(0) == "0" && Decimal(1) == "1"
    ensures ToLower("0") !in Months() && ToLower("1") !in Months() && ToLower("0") !in Days()
  {
    assert ToLower("0")[0] == '0' && ToLower("1")[0] == '1';
    hide ToLower;
  }

  /** On the hour; at midnight, if the second field is 0; on the first, if the third is 1; on Sundays by the last. */
  ghost predicate IsShortcut(f: seq<string>) {
    && |f| == 5 && f[0] == "0" && f[1] in ["*", "0"] && f[2] in ["*", "1"] && f[3] == "*" && f[4] in ["*", "0"]
    && (f[2] == "*" || f[4] == "*")
  }

  lemma ShortcutIsAccepted(expr: string)
    requires IsShortcut(FieldsOf(expr))
    ensures JudgeExpression(expr) == Accepted
  {
    var f := FieldsOf(expr);
    Digits();
    hide Judge, Split, Decimal, ToLower, Months, Days, Selects, Fields, Expand, Trim;
    SimpleField(f[0], 0, 0, 59, map[], 0);
    SimpleField(f[1], 0, 0, 23, map[], 0);
    SimpleField(f[2], 1, 1, 31, map[], 0);
    SimpleField(f[3], 1, 1, 12, Months(), 0);
    SimpleField(f[4], 0, 0, 7, Days(), 0);
  }

  lemma ShortcutMatches(expr: string, c: Cron, t: int)
    requires IsShortcut(FieldsOf(expr)) && Parses(expr, c)
    ensures
      var f, d := FieldsOf(expr), Read(t);
      Matches(c, t) <==>
        && d.minute == 0 && (f[1] == "*" || d.hour == 0) && (f[2] == "*" || d.day == 1)
        && (f[4] == "*" || Weekday(t) == 0)
  {
    var f, d, w := FieldsOf(expr), Read(t), Weekday(t);
    Digits();
    EitherDayMatches(c, t);
    hide Judge, Split, Decimal, ToLower, Months, Days, Selects, Fields, Expand, Trim, Read, Matches, Weekday,
         JudgeExpression, WellFormed;
    SimpleField(f[0], 0, 0, 59, map[], d.minute);
    SimpleField(f[1], 0, 0, 23, map[], d.hour);
    SimpleField(f[2], 1, 1, 31, map[], d.day);
    SimpleField(f[3], 1, 1, 12, Months(), d.month);
    SimpleField(f[4], 0, 0, 7, Days(), w);
    SimpleField(f[4], 0, 0, 7, Days(), 7);
  }

  /**
    The shortcuts are accepted, and name every full hour, every midnight, midnight of every Sunday and
    midnight of the first of every month.
   */
  lemma ShortcutsMean(c: Cron, t: int)
    ensures forall expr | expr in ["@hourly", "@daily", "@midnight", "@weekly", "@monthly"] ::
      JudgeExpression(expr) == Accepted
    ensures Parses("@hourly", c) ==> (Matches(c, t) <==> Read(t).minute == 0)
    ensures Parses("@daily", c) || Parses("@midnight", c) ==>
      (Matches(c, t) <==> Read(t).hour == Read(t).minute == 0)
    ensures Parses("@weekly", c) ==> (Matches(c, t) <==> Read(t).hour == Read(t).minute == 0 && Weekday(t) == 0)
    ensures Parses("@monthly", c) ==> (Matches(c, t) <==> Read(t).hour == Read(t).minute == 0 && Read(t).day == 1)
  {
    hide FieldsOf, Read, Matches, Weekday, Parses, JudgeExpression;
    ShortcutFields();
    forall expr | expr in ["@hourly", "@daily", "@midnight", "@weekly", "@monthly"]
      ensures JudgeExpression(expr) == Accepted
      ensures Parses(expr, c) ==>
        var f, d := FieldsOf(expr), Read(t);
        |f| == 5 && (Matches(c, t) <==>
          && d.minute == 0 && (f[1] == "*" || d.hour == 0) && (f[2] == "*" || d.day == 1)
          && (f[4] == "*" || Weekday(t) == 0))
    {
      ShortcutIsAccepted(expr);
      if Parses(expr, c) {
        ShortcutMatches(expr, c, t);
      }
    }
  }
}
