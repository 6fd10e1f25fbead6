/**
  Reading a cron expression word by word (internal/tasks/schedule.go), as the examples need it.
 */
module CronWords {
  import opened Text
  import opened Cron
  import opened CronHorizon
  import opened CronParse
  import Schedule

  ghost predicate IsWord(w: string) {
    w != "" && forall c | c in w :: !IsSpace(c)
  }

  lemma {:induction false} WordLength(w: string, rest: string)
    requires forall c | c in w :: !IsSpace(c)
    requires rest == "" || IsSpace(rest[0])
    ensures FieldLength(w + rest) == |w|
  {
    if w == "" {
      assert w + rest == rest;
    } else {
      assert (w + rest)[1..] == w[1..] + rest;
      WordLength(w[1..], rest);
    }
  }

  lemma FirstField(w: string, rest: string)
    requires IsWord(w)
    ensures Fields(w + (" " + rest)) == [w] + Fields(rest)
    ensures Fields(w) == [w]
  {
    var s := w + (" " + rest);
    WordLength(w, " " + rest);
    assert s[..|w|] == w && s[|w|..] == " " + rest && (" " + rest)[1..] == rest;
    WordLength(w, "");
    assert w + "" == w && w[..|w|] == w && w[|w|..] == "";
    hide FieldLength;
  }

  // White space and letters

  /** A space, or one of the five control characters from the tabulator to the carriage return. */
  predicate IsWhite(c: char) {
    c == ' ' || 9 <= c as int <= 13
  }

  predicate AreWhite(s: string) {
    forall c | c in s :: IsWhite(c)
  }

  predicate HasWhite(s: string) {
    exists c | c in s :: IsWhite(c)
  }

  lemma WhiteIsSpace(c: char)
    ensures IsWhite(c) <==> IsSpace(c)
  {
    assert c == '\U{0b}' <==> c as int == 11;
    assert c == '\U{0c}' <==> c as int == 12;
  }

  /** White space before the first word does not matter. */
  lemma {:induction false} SkipsWhite(lead: string, rest: string)
    requires AreWhite(lead)
    ensures Fields(lead + rest) == Fields(rest)
  {
    if lead == "" {
      assert lead + rest == rest;
    } else {
      WhiteIsSpace(lead[0]);
      assert (lead + rest)[1..] == lead[1..] + rest;
      SkipsWhite(lead[1..], rest);
    }
  }

  /** A text is read word by word, whatever white space lies around the words. */
  lemma WordByWord(lead: string, w: string, gap: string, rest: string)
    requires AreWhite(lead) && w != "" && !HasWhite(w) && AreWhite(gap)
    requires gap != "" || rest == ""
    ensures Fields(lead + (w + (gap + rest))) == [w] + Fields(rest) && Fields("") == []
  {
    SkipsWhite(lead, w + (gap + rest));
    forall c | c in w ensures !IsSpace(c) {
      WhiteIsSpace(c);
    }
    if gap != "" {
      WhiteIsSpace(gap[0]);
    }
    WordLength(w, gap + rest);
    var s := w + (gap + rest);
    assert s[..|w|] == w && s[|w|..] == gap + rest && s[0] == w[0];
    SkipsWhite(gap, rest);
    hide FieldLength, HasWhite, AreWhite;
  }

  /** Trimming takes the white space from both ends, and nothing else. */
  lemma {:induction false} TrimsEnds(lead: string, s: string, tail: string)
    requires AreWhite(lead) && AreWhite(tail)
    requires s == "" || !(IsWhite(s[0]) || IsWhite(s[|s| - 1]))
    ensures Trim(lead + s + tail) == s
    decreases |lead| + |tail|
  {
    var all := lead + s + tail;
    if lead != "" {
      WhiteIsSpace(lead[0]);
      assert all[0] == lead[0] && all[1..] == lead[1..] + s + tail;
      TrimsEnds(lead[1..], s, tail);
    } else if tail == "" {
      assert all == s;
      if s != "" {
        WhiteIsSpace(s[0]);
        WhiteIsSpace(s[|s| - 1]);
      }
    } else if s == "" {
      WhiteIsSpace(tail[0]);
      assert all[0] == tail[0] && all[1..] == lead + s + tail[1..];
      TrimsEnds(lead, s, tail[1..]);
    } else {
      WhiteIsSpace(s[0]);
      WhiteIsSpace(tail[|tail| - 1]);
      assert all[0] == s[0] && all[|all| - 1] == tail[|tail| - 1];
      assert all[..|all| - 1] == lead + s + tail[..|tail| - 1];
      TrimsEnds(lead, s, tail[..|tail| - 1]);
    }
  }

  const CAPITALS := "ABCDEFGHIJKLMNOPQRSTUVWXYZ"
  const SMALL := "abcdefghijklmnopqrstuvwxyz"

  /** Lower case changes capital letters into small ones, and nothing else. */
  lemma LowersLetters(s: string, i: nat)
    requires i < |s|
    ensures |ToLower(s)| == |s| && |CAPITALS| == |SMALL| == 26
    ensures forall k | 0 <= k < 26 :: s[i] == CAPITALS[k] ==> ToLower(s)[i] == SMALL[k]
    ensures s[i] !in CAPITALS ==> ToLower(s)[i] == s[i]
  {
    assert forall k | 0 <= k < 26 :: CAPITALS[k] as int == 65 + k && SMALL[k] as int == 97 + k;
    if 'A' <= s[i] <= 'Z' {
      assert CAPITALS[s[i] as int - 65] == s[i];
    }
  }

  /** A field that is one number names that number. */
  lemma NumberField(n: nat, lo: int, hi: int, names: map<string, int>, i: int)
    requires lo <= n <= hi < 64 && ToLower(Decimal(n)) !in names
    ensures Judge(Split(Decimal(n), ','), lo, hi, names) == Accepted
    ensures Selects(Decimal(n), lo, hi, names, i) <==> i == n
  {
    var part := Decimal(n);
    assert forall c | c in part :: IsDigit(c);
    IndexIsEnd(part, ',');
    IndexIsEnd(part, '/');
    assert Split(part, ',') == [part];
    AtoiOfDecimal(n);
    hide Decimal, Atoi, ToLower, Index;
    assert part != "*" by {
      assert part == "*" ==> '*' in part;
    }
    assert ParsePart(part, lo, hi, names) == Some(Progression(n, n, 1));
    assert Hits(Progression(n, n, 1), i) <==> i == n;
    assert PartSelects(part, lo, hi, names, i) <==> i == n;
  }

  lemma StarField(lo: int, hi: int, names: map<string, int>, i: int)
    requires 0 <= lo <= hi < 64
    ensures Judge(Split("*", ','), lo, hi, names) == Accepted
    ensures Selects("*", lo, hi, names, i) <==> lo <= i <= hi
  {
    IndexIsEnd("*", ',');
    IndexIsEnd("*", '/');
    assert Split("*", ',') == ["*"];
    assert ParsePart("*", lo, hi, names) == Some(Progression(lo, hi, 1));
    if lo <= i <= hi {
      StarSelectsAll(lo, hi, names, i);
    }
    hide ParsePart;
  }

  /** A plan with nothing but a cron expression. */
  function PlanOf(expr: string): Schedule.Plan {
    Schedule.Plan(None, "cron", None, "", "", expr)
  }

  lemma PlanIsCron(expr: string)
    ensures Schedule.Frequency(PlanOf(expr)) == "cron" == ToLower("cron")
  {
    assert Trim("cron") == "cron";
    assert ToLower("cron") == "cron";
  }

  lemma ParsedIsAccepted(expr: string, c: Cron)
    requires Parses(expr, c)
    ensures JudgeExpression(expr) == Accepted
  {}

  /** What the search answers is the next run. */
  lemma CronAnswerIsNext(expr: string, c: Cron, now: int, strict: bool, a: Schedule.Answer)
    requires Parses(expr, c) && Schedule.IsCronAnswer(c, 0, now, strict, a)
    ensures Schedule.IsNext(Schedule.Periodic, PlanOf(expr), 0, now, strict, a)
    ensures Schedule.IsValid(Schedule.Periodic, PlanOf(expr))
  {
    hide Schedule.Frequency, Schedule.IsCronAnswer, Parses, JudgeExpression, ToLower;
    PlanIsCron(expr);
    ParsedIsAccepted(expr, c);
  }
}
