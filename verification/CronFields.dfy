/**
  What the fields of a cron expression mean (internal/tasks/schedule.go, parseField), by their text:
  numbers, names, ranges, steps and lists.
 */
module CronFields {
  import opened Text
  import opened CronParse

  // Progressions by remainder

  lemma {:induction false} NotNegative(n: nat, s: nat)
    ensures n * s >= 0
  {
    if n > 0 {
      NotNegative(n - 1, s);
      assert n * s == (n - 1) * s + s;
    }
  }

  lemma AtLeastOnce(k: int, s: nat)
    ensures k > 0 ==> k * s >= s
    ensures k < 0 ==> k * s <= 0 - s
  {
    if k > 0 {
      NotNegative(k - 1, s);
      assert k * s == (k - 1) * s + s;
    } else if k < 0 {
      NotNegative(-k - 1, s);
      assert -(k * s) == (-k - 1) * s + s;
    }
  }

  /** Quotient and remainder are the only ones. */
  lemma OneRemainder(x: int, s: int, q: int, r: int)
    requires s > 0 && 0 <= r < s && x == q * s + r
    ensures x % s == r
  {
    var p, z := x / s, x % s;
    assert x == p * s + z;
    assert z - r == (q - p) * s;
    AtLeastOnce(q - p, s);
  }

  lemma OnePeriodMore(x: int, s: int)
    requires s > 0
    ensures (x + s) % s == x % s
  {
    var q, r := x / s, x % s;
    assert x == q * s + r;
    assert x + s == (q + 1) * s + r;
    OneRemainder(x + s, s, q + 1, r);
  }

  lemma {:induction false} HitsByRemainder(p: Progression, i: int)
    requires p.step > 0
    ensures Hits(p, i) <==> p.first <= i <= p.last && (i - p.first) % p.step == 0
    decreases p.last - p.first
  {
    if p.first < i <= p.last {
      var more := Progression(p.first + p.step, p.last, p.step);
      HitsByRemainder(more, i);
      OnePeriodMore(i - more.first, p.step);
      if i < more.first {
        SmallRemainder(i - p.first, p.step);
      }
    }
  }

  lemma SmallRemainder(x: int, s: int)
    requires 0 < x < s
    ensures x % s == x
  {
    OneRemainder(x, s, 0, x);
  }

  // The texts of values

  /** Names are made of small letters. */
  ghost predicate AreWords(names: map<string, int>) {
    forall name | name in names :: IsLetters(name)
  }

  predicate IsLetters(s: string) {
    s != "" && forall c | c in s :: 'a' <= c <= 'z'
  }

  /** A numeral, or a name of the field in any case. */
  predicate Denotes(x: string, a: int, names: map<string, int>) {
    (a >= 0 && x == Decimal(a)) || (ToLower(x) in names && names[ToLower(x)] == a)
  }

  /** Nothing in the text separates parts of a field. */
  predicate IsAtom(x: string) {
    x != "" && ',' !in x && '/' !in x && '-' !in x && '*' !in x
  }

  lemma NumeralsAreNoNames(n: nat, names: map<string, int>)
    requires AreWords(names)
    ensures ToLower(Decimal(n)) !in names
  {
    var s := ToLower(Decimal(n));
    assert IsDigit(Decimal(n)[0]) && s[0] == Decimal(n)[0];
    assert s[0] in s;
    hide Decimal;
  }

  lemma WordsAreAtoms(x: string)
    requires IsLetters(ToLower(x))
    ensures IsAtom(x)
  {
    forall i | 0 <= i < |x| ensures 'a' <= x[i] <= 'z' || 'A' <= x[i] <= 'Z' {
      assert ToLower(x)[i] in ToLower(x);
    }
  }

  lemma ValueOf(x: string, a: int, lo: int, hi: int, names: map<string, int>)
    requires AreWords(names) && Denotes(x, a, names) && lo <= a <= hi <= MAX_INT
    ensures IsAtom(x) && ParseValue(x, lo, hi, names) == Some(a)
  {
    hide Atoi, Decimal;
    if ToLower(x) in names {
      WordsAreAtoms(x);
      if a >= 0 && x == Decimal(a) {
        NumeralsAreNoNames(a, names);
      }
    } else {
      AtoiOfDecimal(a);
    }
  }

  // Parts

  /** What one part of a field is accepted as. */
  ghost predicate IsPart(part: string, lo: int, hi: int, names: map<string, int>, first: int, last: int, step: int) {
    ParsePart(part, lo, hi, names) == Some(Progression(first, last, step))
  }

  lemma NoStep(base: string)
    requires '/' !in base
    ensures Cut(base, '/') == (base, "", false)
  {
    IndexIsEnd(base, '/');
  }

  lemma CutAt(x: string, sep: char, y: string)
    requires sep !in x
    ensures Cut(x + [sep] + y, sep) == (x, y, true)
  {
    var s := x + [sep] + y;
    assert s[..|x|] == x && s[|x| + 1..] == y;
    IndexIs(s, sep, |x|);
  }

  /** A step stands behind a slash. */
  function Stepped(base: string, step: nat): string {
    base + "/" + Decimal(step)
  }

  lemma StepIs(base: string, step: nat)
    requires '/' !in base && step <= MAX_INT
    ensures Cut(Stepped(base, step), '/') == (base, Decimal(step), true) && Atoi(Decimal(step)) == Some(step)
  {
    CutAt(base, '/', Decimal(step));
    AtoiOfDecimal(step);
    hide Atoi, Decimal;
  }

  /** A text without commas is a field of one part. */
  lemma OnePart(part: string, lo: int, hi: int, names: map<string, int>, first: int, last: int, step: int, i: int)
    requires ',' !in part && step > 0 && IsPart(part, lo, hi, names, first, last, step)
    ensures Judge(Split(part, ','), lo, hi, names) == if first + step > MAX_INT then Crashed else Accepted
    ensures Selects(part, lo, hi, names, i) <==> first <= i <= last && (i - first) % step == 0
  {
    IndexIsEnd(part, ',');
    assert Split(part, ',') == [part];
    HitsByRemainder(Progression(first, last, step), i);
    hide ParsePart, Hits;
    var parts := Split(part, ',');
    assert parts[0] == part;
    assert PartSelects(part, lo, hi, names, i) <==> Hits(Progression(first, last, step), i);
  }

  lemma DigitsAreAtoms(n: nat)
    ensures IsAtom(Decimal(n))
  {
    hide Decimal;
  }

  /** x-y/s selects the values from x to y in steps of s. */
  lemma RangeWithStep(x: string, y: string, a: int, b: int, step: nat, lo: int, hi: int, names: map<string, int>,
                      i: int)
    requires AreWords(names) && Denotes(x, a, names) && Denotes(y, b, names)
    requires lo <= a <= b <= hi <= MAX_INT && 0 < step <= MAX_INT
    ensures Judge(Split(Stepped(x + "-" + y, step), ','), lo, hi, names)
         == if a + step > MAX_INT then Crashed else Accepted
    ensures Selects(Stepped(x + "-" + y, step), lo, hi, names, i) <==> a <= i <= b && (i - a) % step == 0
  {
    ValueOf(x, a, lo, hi, names);
    ValueOf(y, b, lo, hi, names);
    DigitsAreAtoms(step);
    StepIs(x + "-" + y, step);
    CutAt(x, '-', y);
    hide ParseValue, Denotes, Decimal, Atoi, Cut;
    assert (x + "-" + y)[|x|] == '-';
    assert '*' !in x + "-" + y;
    assert '*' in "*";
    OnePart(Stepped(x + "-" + y, step), lo, hi, names, a, b, step, i);
  }

  /** x-y selects all of them. */
  lemma RangeOf(x: string, y: string, a: int, b: int, lo: int, hi: int, names: map<string, int>, i: int)
    requires AreWords(names) && Denotes(x, a, names) && Denotes(y, b, names)
    requires lo <= a <= b <= hi < MAX_INT
    ensures Judge(Split(x + "-" + y, ','), lo, hi, names) == Accepted
    ensures Selects(x + "-" + y, lo, hi, names, i) <==> a <= i <= b
  {
    ValueOf(x, a, lo, hi, names);
    ValueOf(y, b, lo, hi, names);
    NoStep(x + "-" + y);
    CutAt(x, '-', y);
    hide ParseValue, Denotes, Cut;
    assert (x + "-" + y)[|x|] == '-';
    assert '*' !in x + "-" + y;
    assert '*' in "*";
    OnePart(x + "-" + y, lo, hi, names, a, b, 1, i);
  }

  /** x/s selects x and every s-th value after it; x/1 is x alone. */
  lemma ValueWithStep(x: string, a: int, step: nat, lo: int, hi: int, names: map<string, int>, i: int)
    requires AreWords(names) && Denotes(x, a, names) && lo <= a <= hi <= MAX_INT && 0 < step <= MAX_INT
    ensures Judge(Split(Stepped(x, step), ','), lo, hi, names) == if a + step > MAX_INT then Crashed else Accepted
    ensures Selects(Stepped(x, step), lo, hi, names, i) <==>
      if step == 1 then i == a else a <= i <= hi && (i - a) % step == 0
  {
    ValueOf(x, a, lo, hi, names);
    DigitsAreAtoms(step);
    StepIs(x, step);
    hide ParseValue, Denotes, Decimal, Atoi, Cut;
    assert '*' in "*";
    OnePart(Stepped(x, step), lo, hi, names, a, if step > 1 then hi else a, step, i);
  }

  /** A number or a name selects its value. */
  lemma ValueAlone(x: string, a: int, lo: int, hi: int, names: map<string, int>, i: int)
    requires AreWords(names) && Denotes(x, a, names) && lo <= a <= hi < MAX_INT
    ensures Judge(Split(x, ','), lo, hi, names) == Accepted
    ensures Selects(x, lo, hi, names, i) <==> i == a
  {
    ValueOf(x, a, lo, hi, names);
    NoStep(x);
    hide ParseValue, Denotes, Cut;
    assert '*' in "*";
    OnePart(x, lo, hi, names, a, a, 1, i);
  }

  /** A starred step selects every s-th value from the lower bound on. */
  lemma StarWithStep(step: nat, lo: int, hi: int, names: map<string, int>, i: int)
    requires 0 < step <= MAX_INT
    ensures Selects(Stepped("*", step), lo, hi, names, i) <==> lo <= i <= hi && (i - lo) % step == 0
  {
    DigitsAreAtoms(step);
    StepIs("*", step);
    hide Decimal, Atoi, Cut;
    OnePart(Stepped("*", step), lo, hi, names, lo, hi, step, i);
  }

  // Lists

  lemma Associates<T>(a: seq<T>, b: seq<T>, c: seq<T>)
    ensures a + b + c == a + (b + c)
  {}

  lemma Regroup<T>(head: seq<T>, sep: T, tail: seq<T>, g: seq<T>)
    ensures head + [sep] + tail + [sep] + g == head + [sep] + (tail + [sep] + g)
  {}

  lemma SplitOne(head: string, sep: char, tail: string)
    requires sep !in head
    ensures Split(head + [sep] + tail, sep) == [head] + Split(tail, sep)
  {
    CutAt(head, sep, tail);
  }

  lemma {:induction false} SplitJoins(f: string, sep: char, g: string)
    ensures Split(f + [sep] + g, sep) == Split(f, sep) + Split(g, sep)
    decreases |f|
  {
    var k := Index(f, sep);
    if k == |f| {
      assert f[..k] == f;
      SplitOne(f, sep, g);
    } else {
      var head, tail := f[..k], f[k + 1..];
      assert f == head + [sep] + tail;
      hide *;
      SplitJoins(tail, sep, g);
      SplitOne(head, sep, tail);
      SplitOne(head, sep, tail + [sep] + g);
      Regroup(head, sep, tail, g);
      Associates([head], Split(tail, sep), Split(g, sep));
    }
  }

  lemma {:induction false} JudgesInTurn(a: seq<string>, b: seq<string>, lo: int, hi: int, names: map<string, int>)
    ensures Judge(a + b, lo, hi, names)
         == if Judge(a, lo, hi, names) == Accepted then Judge(b, lo, hi, names) else Judge(a, lo, hi, names)
  {
    hide ParsePart, StepOverflows;
    if a == [] {
      assert a + b == b;
    } else {
      assert (a + b)[1..] == a[1..] + b;
      JudgesInTurn(a[1..], b, lo, hi, names);
    }
  }

  /** A list selects what either of its halves selects, and is accepted if both are. */
  lemma ListSelectsBoth(f: string, g: string, lo: int, hi: int, names: map<string, int>, i: int)
    ensures Selects(f + "," + g, lo, hi, names, i) <==> Selects(f, lo, hi, names, i) || Selects(g, lo, hi, names, i)
    ensures Judge(Split(f + "," + g, ','), lo, hi, names)
         == if Judge(Split(f, ','), lo, hi, names) == Accepted then Judge(Split(g, ','), lo, hi, names)
            else Judge(Split(f, ','), lo, hi, names)
  {
    SplitJoins(f, ',', g);
    var a, b := Split(f, ','), Split(g, ',');
    JudgesInTurn(a, b, lo, hi, names);
    hide Split, PartSelects, Judge;
    var both := a + b;
    if k :| 0 <= k < |a| && PartSelects(a[k], lo, hi, names, i) {
      assert both[k] == a[k];
    }
    if k :| 0 <= k < |b| && PartSelects(b[k], lo, hi, names, i) {
      assert both[|a| + k] == b[k];
    }
  }

  // Names

  const MONTHS := ["jan", "feb", "mar", "apr", "may", "jun", "jul", "aug", "sep", "oct", "nov", "dec"]
  const DAYS := ["sun", "mon", "tue", "wed", "thu", "fri", "sat"]

  lemma LettersAreSmall(s: string)
    requires IsLetters(s)
    ensures ToLower(s) == s
  {
    forall i | 0 <= i < |s| ensures ToLower(s)[i] == s[i] {
      assert s[i] in s;
    }
  }

  lemma MonthsAreNamed()
    ensures AreWords(Months()) && |MONTHS| == 12 && forall k | 0 <= k < 12 :: Denotes(MONTHS[k], k + 1, Months())
  {
    hide ToLower;
    forall k | 0 <= k < 12 ensures ToLower(MONTHS[k]) == MONTHS[k] {
      LettersAreSmall(MONTHS[k]);
    }
  }

  lemma DaysAreNamed()
    ensures AreWords(Days()) && |DAYS| == 7 && forall k | 0 <= k < 7 :: Denotes(DAYS[k], k, Days())
    ensures AreWords(map[])
  {
    hide ToLower;
    forall k | 0 <= k < 7 ensures ToLower(DAYS[k]) == DAYS[k] {
      LettersAreSmall(DAYS[k]);
    }
  }

  // What is refused

  lemma OneRefused(part: string, lo: int, hi: int, names: map<string, int>)
    requires ',' !in part && ParsePart(part, lo, hi, names) == None
    ensures Judge(Split(part, ','), lo, hi, names) == Rejected
  {
    IndexIsEnd(part, ',');
    assert Split(part, ',') == [part];
  }

  /** A range that goes down is refused. */
  lemma DownwardRange(x: string, y: string, a: int, b: int, lo: int, hi: int, names: map<string, int>)
    requires AreWords(names) && Denotes(x, a, names) && Denotes(y, b, names)
    requires lo <= b < a <= hi <= MAX_INT
    ensures Judge(Split(x + "-" + y, ','), lo, hi, names) == Rejected
  {
    ValueOf(x, a, lo, hi, names);
    ValueOf(y, b, lo, hi, names);
    NoStep(x + "-" + y);
    CutAt(x, '-', y);
    hide ParseValue, Denotes, Cut;
    assert (x + "-" + y)[|x|] == '-';
    assert '*' !in x + "-" + y;
    assert '*' in "*";
    OneRefused(x + "-" + y, lo, hi, names);
  }

  /** So is a number out of bounds, a word that is no name of the field, and a step of nothing. */
  lemma OutOfBounds(n: nat, lo: int, hi: int, names: map<string, int>)
    requires AreWords(names) && (n < lo || n > hi)
    ensures Judge(Split(Decimal(n), ','), lo, hi, names) == Rejected
  {
    NumeralsAreNoNames(n, names);
    DigitsAreAtoms(n);
    NoStep(Decimal(n));
    AtoiOfDecimal(n);
    hide Decimal, Atoi, Cut;
    assert '*' in "*";
    OneRefused(Decimal(n), lo, hi, names);
  }

  lemma UnknownWord(w: string, lo: int, hi: int, names: map<string, int>)
    requires IsLetters(ToLower(w)) && ToLower(w) !in names
    ensures Judge(Split(w, ','), lo, hi, names) == Rejected
  {
    WordsAreAtoms(w);
    NoStep(w);
    assert ToLower(w)[0] in ToLower(w);
    assert !IsDigit(w[0]) && w[0] != '+' && LeadingDigits(w) == 0;
    hide ToLower, Cut;
    assert '*' in "*";
    OneRefused(w, lo, hi, names);
  }

  lemma StepOfNothing(base: string, lo: int, hi: int, names: map<string, int>)
    requires ',' !in base && '/' !in base
    ensures Judge(Split(Stepped(base, 0), ','), lo, hi, names) == Rejected
  {
    DigitsAreAtoms(0);
    StepIs(base, 0);
    hide Decimal, Atoi, Cut;
    OneRefused(Stepped(base, 0), lo, hi, names);
  }

  // Signs

  /** A sign may stand before a numeral. */
  lemma AtoiOfSigned(n: nat)
    ensures Atoi("+" + Decimal(n)) == if n <= MAX_INT then Some(n) else None
    ensures Atoi("-" + Decimal(n)) == if n <= MAX_INT + 1 then Some(0 - n) else None
  {
    ValueOfDecimal(n);
    LeadingDigitsOf(Decimal(n), "");
    assert Decimal(n) + "" == Decimal(n);
    assert ("+" + Decimal(n))[1..] == Decimal(n) == ("-" + Decimal(n))[1..];
  }

  /** Nothing but digits may follow it. */
  lemma AtoiNeedsDigits(s: string)
    ensures Atoi(s).Some? ==>
      exists digits: string ::
        digits != "" && (forall c | c in digits :: IsDigit(c)) && s in [digits, "+" + digits, "-" + digits]
  {
    if Atoi(s).Some? {
      var signed := s != "" && (s[0] == '+' || s[0] == '-');
      var digits := if signed then s[1..] else s;
      assert digits[..|digits|] == digits;
      assert signed ==> s == [s[0]] + digits;
      assert s in [digits, "+" + digits, "-" + digits];
    }
  }
}
