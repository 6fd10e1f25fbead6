/**
  Parsing cron expressions (internal/tasks/schedule.go, ParseCron and parseField). Machine
  integers are 64 bits wide here, because one accepted form of step overflows them.
 */
module CronParse {
  import opened Text
  import opened Cron
  import opened CronHorizon

  const MAX_INT := 0x7FFF_FFFF_FFFF_FFFF

  /** What a 64-bit addition leaves of a sum that fits in 65 bits. */
  function Wrap(n: int): int {
    if n > MAX_INT then n - 0x1_0000_0000_0000_0000 else n
  }

  // Strings

  /** The pieces of `s` between separators; there is always at least one. */
  function Split(s: string, sep: char): (parts: seq<string>)
    ensures |parts| > 0
    decreases |s|
  {
    var k := Index(s, sep);
    if k == |s| then [s] else [s[..k]] + Split(s[k + 1..], sep)
  }

  /** The text before and after the first separator, and whether there was one. */
  function Cut(s: string, sep: char): (string, string, bool) {
    var k := Index(s, sep);
    if k == |s| then (s, "", false) else (s[..k], s[k + 1..], true)
  }

  predicate IsSpace(c: char) {
    c in " \t\n\U{0b}\U{0c}\r"
  }

  /** The non-empty runs of `s` between white space. */
  function Fields(s: string): seq<string>
    decreases |s|
  {
    if s == "" then []
    else if IsSpace(s[0]) then Fields(s[1..])
    else
      var k := FieldLength(s);
      [s[..k]] + Fields(s[k..])
  }

  function FieldLength(s: string): (k: nat)
    ensures k <= |s| && (s != "" && !IsSpace(s[0]) ==> k > 0)
  {
    if s == "" || IsSpace(s[0]) then 0 else 1 + FieldLength(s[1..])
  }

  function Trim(s: string): string
    decreases |s|
  {
    if s == "" then s
    else if IsSpace(s[0]) then Trim(s[1..])
    else if IsSpace(s[|s| - 1]) then Trim(s[..|s| - 1])
    else s
  }

  function ToLower(s: string): string {
    seq(|s|, i requires 0 <= i < |s| => if 'A' <= s[i] <= 'Z' then (s[i] as int + 32) as char else s[i])
  }

  /** A decimal integer with an optional sign that fits in 64 bits. */
  function Atoi(s: string): Option<int> {
    var signed := s != "" && (s[0] == '+' || s[0] == '-');
    var digits := if signed then s[1..] else s;
    if digits == "" || LeadingDigits(digits) < |digits| then None
    else
      assert digits[..|digits|] == digits;
      var n: int := DigitsValue(digits);
      if signed && s[0] == '-' then if n <= MAX_INT + 1 then Some(0 - n) else None
      else if n <= MAX_INT then Some(n) else None
  }

  // One field

  /** first, first + step, ... up to last. */
  datatype Progression = Progression(first: int, last: int, step: int)

  predicate Hits(p: Progression, i: int)
    decreases p.last - p.first
  {
    && p.step > 0 && p.first <= i <= p.last
    && (i == p.first || Hits(Progression(p.first + p.step, p.last, p.step), i))
  }

  /** A progression's values are its first plus multiples of its step, up to its last. */
  lemma HitsIff(p: Progression, i: int)
    requires p.step > 0
    ensures Hits(p, i) <==> exists n: nat :: i == p.first + Times(n, p.step) && i <= p.last
  {
    if Hits(p, i) {
      var n := HitIndex(p, i);
    }
    if exists n: nat :: i == p.first + Times(n, p.step) && i <= p.last {
      var n: nat :| i == p.first + Times(n, p.step) && i <= p.last;
      IndexHits(p, n);
    }
  }

  function Times(n: nat, step: int): int {
    n * step
  }

  lemma {:induction false} HitIndex(p: Progression, i: int) returns (n: nat)
    requires Hits(p, i)
    ensures i == p.first + Times(n, p.step)
    decreases p.last - p.first
  {
    if i == p.first {
      n := 0;
    } else {
      n := HitIndex(Progression(p.first + p.step, p.last, p.step), i);
      n := n + 1;
    }
  }

  lemma {:induction false} IndexHits(p: Progression, n: nat)
    requires p.step > 0 && p.first + Times(n, p.step) <= p.last
    ensures p.first <= p.first + Times(n, p.step) && Hits(p, p.first + Times(n, p.step))
    decreases n
  {
    if n > 0 {
      assert Times(n, p.step) == Times(n - 1, p.step) + p.step;
      IndexHits(Progression(p.first + p.step, p.last, p.step), n - 1);
    }
  }

  /** A name of the field, or a number within its bounds. */
  function ParseValue(s: string, lo: int, hi: int, names: map<string, int>): Option<int> {
    if ToLower(s) in names then Some(names[ToLower(s)])
    else
      var n :- Atoi(s);
      if n < lo || n > hi then None else Some(n)
  }

  /** One comma-separated part: *, a range or a single value, each with an optional step. */
  function ParsePart(part: string, lo: int, hi: int, names: map<string, int>): Option<Progression> {
    var (base, stepText, stepped) := Cut(part, '/');
    var step := if stepped then Atoi(stepText) else Some(1);
    if step.None? || step.value <= 0 then None
    else if base == "*" then Some(Progression(lo, hi, step.value))
    else if '-' in base then
      var (x, y, _) := Cut(base, '-');
      var a :- ParseValue(x, lo, hi, names);
      var b :- ParseValue(y, lo, hi, names);
      if a > b then None else Some(Progression(a, b, step.value))
    else
      var n :- ParseValue(base, lo, hi, names);
      Some(Progression(n, if step.value > 1 then hi else n, step.value))
  }

  /** Names stand for values of their field. */
  predicate NamesWithin(names: map<string, int>, lo: int, hi: int) {
    forall name | name in names :: lo <= names[name] <= hi
  }

  lemma AtoiFits(s: string)
    ensures Atoi(s).Some? ==> Atoi(s).value <= MAX_INT
  {
    hide DigitsValue, LeadingDigits;
  }

  lemma ValueIsWithin(s: string, lo: int, hi: int, names: map<string, int>)
    requires NamesWithin(names, lo, hi)
    ensures ParseValue(s, lo, hi, names).Some? ==> lo <= ParseValue(s, lo, hi, names).value <= hi
  {
    hide ToLower, Atoi;
  }

  /** An accepted part names at least its first value, and only values of the field. */
  lemma PartIsWithin(part: string, lo: int, hi: int, names: map<string, int>)
    requires lo <= hi && NamesWithin(names, lo, hi)
    ensures
      var p := ParsePart(part, lo, hi, names);
      p.Some? ==> lo <= p.value.first <= p.value.last <= hi && 1 <= p.value.step <= MAX_INT
                  && Hits(p.value, p.value.first)
  {
    hide ParseValue, Atoi, Cut, NamesWithin;
    var base := Cut(part, '/').0;
    AtoiFits(Cut(part, '/').1);
    ValueIsWithin(base, lo, hi, names);
    ValueIsWithin(Cut(base, '-').0, lo, hi, names);
    ValueIsWithin(Cut(base, '-').1, lo, hi, names);
  }

  /** The values a field names: the union of its parts' progressions. */
  ghost predicate Selects(field: string, lo: int, hi: int, names: map<string, int>, i: int) {
    var parts := Split(field, ',');
    exists k :: 0 <= k < |parts| && PartSelects(parts[k], lo, hi, names, i)
  }

  ghost predicate PartSelects(part: string, lo: int, hi: int, names: map<string, int>, i: int) {
    var p := ParsePart(part, lo, hi, names);
    p.Some? && Hits(p.value, i)
  }

  /** Stepping past the first value overflows 64 bits. */
  predicate StepOverflows(p: Progression) {
    p.first + p.step > MAX_INT
  }

  /** A field is accepted, rejected with an error, or stops the program with an index out of range. */
  datatype Outcome = Accepted | Rejected | Crashed

  /** The first part that is not plainly accepted decides. */
  function Judge(parts: seq<string>, lo: int, hi: int, names: map<string, int>): Outcome {
    if parts == [] then Accepted
    else
      var p := ParsePart(parts[0], lo, hi, names);
      if p.None? then Rejected
      else if StepOverflows(p.value) then Crashed
      else Judge(parts[1..], lo, hi, names)
  }

  /** Marks the values of one progression, in 64-bit arithmetic. */
  method Mark(p: Progression, table: array<bool>) returns (crashed: bool)
    requires table.Length == 64 && 0 <= p.first <= p.last < 64 && 1 <= p.step <= MAX_INT
    modifies table
    ensures crashed <==> StepOverflows(p)
    ensures !crashed ==> forall i | 0 <= i < 64 :: table[i] <==> old(table[i]) || Hits(p, i)
  {
    var i := p.first;
    while i <= p.last
      invariant p.first <= i <= MAX_INT && (i == p.first || p.step < 64 || i > p.last)
      invariant i > p.first ==> !StepOverflows(p)
      invariant forall j | 0 <= j < 64 :: table[j] ==> old(table[j]) || Hits(p, j)
      invariant forall j | 0 <= j < 64 :: old(table[j]) ==> table[j]
      invariant forall j | 0 <= j < 64 ::
        Hits(p, j) <==> (Hits(p, j) && table[j]) || Hits(Progression(i, p.last, p.step), j)
      decreases p.last - i
    {
      table[i] := true;
      var next := Wrap(i + p.step);
      if next < 0 {
        return true;
      }
      i := next;
    }
    return false;
  }

  /** Parses one field into its table. */
  method ParseField(field: string, lo: int, hi: int, names: map<string, int>, table: array<bool>)
    returns (outcome: Outcome)
    requires table.Length == 64 && 0 <= lo <= hi < 64 && NamesWithin(names, lo, hi)
    modifies table
    ensures outcome == Judge(Split(field, ','), lo, hi, names)
    ensures outcome == Accepted ==>
      forall i | 0 <= i < 64 :: table[i] <==> old(table[i]) || Selects(field, lo, hi, names, i)
  {
    hide ParsePart, Split, NamesWithin, Hits, StepOverflows;
    var parts := Split(field, ',');
    var k := 0;
    while k < |parts|
      invariant 0 <= k <= |parts|
      invariant Judge(parts, lo, hi, names) == Judge(parts[k..], lo, hi, names)
      invariant forall i | 0 <= i < 64 ::
        table[i] <==> old(table[i]) || exists n :: 0 <= n < k && PartSelects(parts[n], lo, hi, names, i)
    {
      var p := ParsePart(parts[k], lo, hi, names);
      assert parts[k..][1..] == parts[k + 1..];
      if p.None? {
        return Rejected;
      }
      PartIsWithin(parts[k], lo, hi, names);
      var crashed := Mark(p.value, table);
      if crashed {
        return Crashed;
      }
      k := k + 1;
    }
    return Accepted;
  }

  // What fields mean

  /** An accepted field names at least one value, all within its bounds. */
  lemma SelectsWithin(field: string, lo: int, hi: int, names: map<string, int>)
    requires 0 <= lo <= hi < 64 && NamesWithin(names, lo, hi)
    requires Judge(Split(field, ','), lo, hi, names) == Accepted
    ensures forall i | Selects(field, lo, hi, names, i) :: lo <= i <= hi
    ensures exists i :: 0 <= i < 64 && Selects(field, lo, hi, names, i)
  {
    hide ParsePart, Split, NamesWithin, Hits, StepOverflows;
    var parts := Split(field, ',');
    forall i | Selects(field, lo, hi, names, i)
      ensures lo <= i <= hi
    {
      var k :| 0 <= k < |parts| && PartSelects(parts[k], lo, hi, names, i);
      PartIsWithin(parts[k], lo, hi, names);
      HitsWithin(ParsePart(parts[k], lo, hi, names).value, i);
    }
    PartIsWithin(parts[0], lo, hi, names);
    var first := ParsePart(parts[0], lo, hi, names).value.first;
    assert PartSelects(parts[0], lo, hi, names, first);
    assert 0 <= first < 64 && Selects(field, lo, hi, names, first);
  }

  lemma HitsWithin(p: Progression, i: int)
    requires Hits(p, i)
    ensures p.first <= i <= p.last
  {}

  /** A bare star names every value of its field. */
  lemma StarSelectsAll(lo: int, hi: int, names: map<string, int>, i: int)
    requires lo <= i <= hi
    ensures Selects("*", lo, hi, names, i)
  {
    IndexIsEnd("*", ',');
    IndexIsEnd("*", '/');
    assert Split("*", ',')[0] == "*";
    EveryStep(Progression(lo, hi, 1), i);
    assert PartSelects("*", lo, hi, names, i);
  }

  lemma {:induction false} EveryStep(p: Progression, i: int)
    requires p.step == 1 && p.first <= i <= p.last
    ensures Hits(p, i)
    decreases p.last - p.first
  {
    if i > p.first {
      EveryStep(Progression(p.first + 1, p.last, 1), i);
    }
  }

  lemma AtoiOfDecimal(n: nat)
    ensures Atoi(Decimal(n)) == if n <= MAX_INT then Some(n) else None
  {
    ValueOfDecimal(n);
    LeadingDigitsOf(Decimal(n), "");
    assert Decimal(n) + "" == Decimal(n);
    assert IsDigit(Decimal(n)[0]);
  }

  /**
    A starred field with a step is accepted, unless stepping from its lower bound overflows: then
    the table is indexed with a negative number and the program stops.
   */
  lemma StarStepCrashesIff(lo: int, hi: int, names: map<string, int>, step: nat)
    requires 1 <= step <= MAX_INT
    ensures Judge(Split("*/" + Decimal(step), ','), lo, hi, names)
         == if lo + step > MAX_INT then Crashed else Accepted
  {
    hide Decimal, Atoi;
    var part := "*/" + Decimal(step);
    assert forall c | c in part :: c == '*' || c == '/' || IsDigit(c);
    IndexIsEnd(part, ',');
    assert part[..1] == "*";
    IndexIs(part, '/', 1);
    assert part[2..] == Decimal(step);
    AtoiOfDecimal(step);
    assert Split(part, ',') == [part];
  }

  /** The first part that fails decides: an overflowing step crashes only if no part before it is rejected. */
  lemma {:induction false} CrashesIff(parts: seq<string>, lo: int, hi: int, names: map<string, int>)
    ensures Judge(parts, lo, hi, names) == Crashed <==>
      exists k :: 0 <= k < |parts| && FirstToOverflow(parts, k, lo, hi, names)
  {
    hide ParsePart;
    if parts != [] {
      var p, tail := ParsePart(parts[0], lo, hi, names), parts[1..];
      CrashesIff(tail, lo, hi, names);
      if p.Some? && !StepOverflows(p.value) {
        if Judge(tail, lo, hi, names) == Crashed {
          var k :| 0 <= k < |tail| && FirstToOverflow(tail, k, lo, hi, names);
          assert FirstToOverflow(parts, k + 1, lo, hi, names);
        }
        if k :| 0 <= k < |parts| && FirstToOverflow(parts, k, lo, hi, names) {
          assert forall j | 0 <= j < k - 1 :: tail[j] == parts[j + 1];
          assert FirstToOverflow(tail, k - 1, lo, hi, names);
        }
      } else if p.Some? {
        assert FirstToOverflow(parts, 0, lo, hi, names);
      }
    }
  }

  ghost predicate PlainlyAccepted(part: string, lo: int, hi: int, names: map<string, int>) {
    var p := ParsePart(part, lo, hi, names);
    p.Some? && !StepOverflows(p.value)
  }

  ghost predicate FirstToOverflow(parts: seq<string>, k: int, lo: int, hi: int, names: map<string, int>)
    requires 0 <= k < |parts|
  {
    var p := ParsePart(parts[k], lo, hi, names);
    && p.Some? && StepOverflows(p.value)
    && forall j | 0 <= j < k :: PlainlyAccepted(parts[j], lo, hi, names)
  }

  // Whole expressions

  function Months(): map<string, int> {
    map["jan" := 1, "feb" := 2, "mar" := 3, "apr" := 4, "may" := 5, "jun" := 6,
        "jul" := 7, "aug" := 8, "sep" := 9, "oct" := 10, "nov" := 11, "dec" := 12]
  }

  function Days(): map<string, int> {
    map["sun" := 0, "mon" := 1, "tue" := 2, "wed" := 3, "thu" := 4, "fri" := 5, "sat" := 6]
  }

  /** The shortcuts and the expressions they stand for. */
  function Expand(expr: string): string {
    if expr == "@hourly" then "0 * * * *"
    else if expr == "@daily" || expr == "@midnight" then "0 0 * * *"
    else if expr == "@weekly" then "0 0 * * 0"
    else if expr == "@monthly" then "0 0 1 * *"
    else expr
  }

  datatype Result = Parsed(cron: Cron) | Refused | Panicked

  /** What each table of a parsed expression holds; 7 is another name for Sunday. */
  ghost predicate Means(c: Cron, f: seq<string>)
    requires |f| == 5
  {
    && (forall i | 0 <= i < 64 :: c.min[i] <==> Selects(f[0], 0, 59, map[], i))
    && (forall i | 0 <= i < 64 :: c.hour[i] <==> Selects(f[1], 0, 23, map[], i))
    && (forall i | 0 <= i < 64 :: c.dom[i] <==> Selects(f[2], 1, 31, map[], i))
    && (forall i | 0 <= i < 64 :: c.month[i] <==> Selects(f[3], 1, 12, Months(), i))
    && (forall i | 0 <= i < 64 ::
          c.dow[i] <==> Selects(f[4], 0, 7, Days(), i) || (i == 0 && Selects(f[4], 0, 7, Days(), 7)))
    && (c.domStar <==> f[2] == "*") && (c.dowStar <==> f[4] == "*")
  }

  /** The first field that is not accepted decides. */
  function JudgeFields(f: seq<string>): Outcome
    requires |f| == 5
  {
    var o0 := Judge(Split(f[0], ','), 0, 59, map[]);
    var o1 := Judge(Split(f[1], ','), 0, 23, map[]);
    var o2 := Judge(Split(f[2], ','), 1, 31, map[]);
    var o3 := Judge(Split(f[3], ','), 1, 12, Months());
    if o0 != Accepted then o0
    else if o1 != Accepted then o1
    else if o2 != Accepted then o2
    else if o3 != Accepted then o3
    else Judge(Split(f[4], ','), 0, 7, Days())
  }

  /** One field into a fresh table. */
  method ParseTable(field: string, lo: int, hi: int, names: map<string, int>)
    returns (outcome: Outcome, table: Table)
    requires 0 <= lo <= hi < 64 && NamesWithin(names, lo, hi)
    ensures outcome == Judge(Split(field, ','), lo, hi, names)
    ensures outcome == Accepted ==>
      (forall i | 0 <= i < 64 :: table[i] <==> Selects(field, lo, hi, names, i)) && OnlyWithin(table, lo, hi)
  {
    hide Selects, Split, NamesWithin;
    var marks := new bool[64](i => false);
    outcome := ParseField(field, lo, hi, names, marks);
    table := marks[..];
    if outcome == Accepted {
      SelectsWithin(field, lo, hi, names);
    }
  }

  /** What becomes of a whole expression. */
  function JudgeExpression(expr: string): Outcome {
    var f := Fields(Expand(Trim(expr)));
    if |f| != 5 then Rejected else JudgeFields(f)
  }

  /** The expression is accepted, with `c` as its meaning. */
  ghost predicate Parses(expr: string, c: Cron) {
    var f := Fields(Expand(Trim(expr)));
    |f| == 5 && JudgeExpression(expr) == Accepted && Means(c, f) && WellFormed(c)
  }

  /** An expression has one meaning. */
  lemma ParsesOnce(expr: string, c: Cron, d: Cron)
    requires Parses(expr, c) && Parses(expr, d)
    ensures c == d
  {
    hide Selects, Fields, Expand, Trim, JudgeExpression, WellFormed;
    var f := Fields(Expand(Trim(expr)));
    SameTable(c.min, d.min);
    SameTable(c.hour, d.hour);
    SameTable(c.dom, d.dom);
    SameTable(c.month, d.month);
    SameTable(c.dow, d.dow);
  }

  lemma SameTable(a: Table, b: Table)
    ensures (forall i | 0 <= i < 64 :: a[i] == b[i]) ==> a == b
  {}

  /** Parses an expression: what it accepts is well formed and means what its fields say. */
  method ParseCron(expr: string) returns (r: Result)
    ensures
      match r
      case Parsed(c) => Parses(expr, c)
      case Refused => JudgeExpression(expr) == Rejected
      case Panicked => JudgeExpression(expr) == Crashed
  {
    hide Selects, Split, Fields, Expand, Trim, Judge, OnlyWithin;
    var f := Fields(Expand(Trim(expr)));
    if |f| != 5 {
      return Refused;
    }
    var o, min := ParseTable(f[0], 0, 59, map[]);
    if o != Accepted {
      return if o == Rejected then Refused else Panicked;
    }
    var hour, dom, month, dow;
    o, hour := ParseTable(f[1], 0, 23, map[]);
    if o != Accepted {
      return if o == Rejected then Refused else Panicked;
    }
    o, dom := ParseTable(f[2], 1, 31, map[]);
    if o != Accepted {
      return if o == Rejected then Refused else Panicked;
    }
    o, month := ParseTable(f[3], 1, 12, Months());
    if o != Accepted {
      return if o == Rejected then Refused else Panicked;
    }
    o, dow := ParseTable(f[4], 0, 7, Days());
    if o != Accepted {
      return if o == Rejected then Refused else Panicked;
    }
    if dow[7] {
      SundayTwice(dow);
      dow := dow[0 := true];
    }
    forall i | 1 <= i <= 31 && f[2] == "*"
      ensures dom[i]
    {
      StarSelectsAll(1, 31, map[], i);
    }
    r := Parsed(Cron(min, hour, dom, month, dow, f[2] == "*", f[4] == "*"));
  }

  lemma SundayTwice(dow: Table)
    requires OnlyWithin(dow, 0, 7)
    ensures OnlyWithin(dow[0 := true], 0, 7)
  {
    assert dow[0 := true][0];
  }
}
