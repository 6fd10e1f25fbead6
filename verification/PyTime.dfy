/**
  The stored form of task times (internal/store/tasks.go, PyTime). The table compares these as
  text, so the form has to put earlier times first.
 */
module PyTime {
  import opened Text
  import opened Calendar

  const MICROSECOND := 1_000
  const MICROS_IN_MINUTE := 60_000_000

  /** A decimal numeral, zero-padded to at least `w` digits. */
  function Pad(n: nat, w: nat): string
    decreases n, w
  {
    if n < 10 && w <= 1 then [Digit(n)]
    else Pad(n / 10, if w > 1 then w - 1 else 1) + [Digit(n % 10)]
  }

  function Pow10(w: nat): nat {
    if w == 0 then 1 else 10 * Pow10(w - 1)
  }

  /** Numbers of fixed width, each followed by its separator. */
  function Render(ns: seq<nat>, ws: seq<nat>, seps: seq<char>): string
    requires |ns| == |ws| == |seps|
  {
    if ns == [] then "" else Pad(ns[0], ws[0]) + [seps[0]] + Render(ns[1..], ws[1..], seps[1..])
  }

  const WIDTHS: seq<nat> := [4, 2, 2, 2, 2, 2, 6]
  const SEPARATORS: seq<char> := ['-', '-', 'T', ':', ':', '.', 'Z']

  /** Whole microseconds since the beginning of year 1; the form drops what is finer. */
  function Micros(t: int): int {
    t / MICROSECOND
  }

  function YearAt(t: int): int {
    Read(Micros(t) / MICROS_IN_MINUTE).year
  }

  /** Year, month, day, hour, minute, second and microsecond of an instant, in UTC. */
  function FieldsAt(t: int): (f: seq<nat>)
    requires YearAt(t) >= 0
    ensures |f| == 7
  {
    var us := Micros(t);
    ReadIsExact(us / MICROS_IN_MINUTE);
    var d, rest := Read(us / MICROS_IN_MINUTE), us % MICROS_IN_MINUTE;
    [d.year, d.month, d.day, d.hour, d.minute, rest / 1_000_000, rest % 1_000_000]
  }

  /** For example 2026-09-18T07:00:00.000000Z. */
  function PyTime(t: int): string
    requires YearAt(t) >= 0
  {
    Render(FieldsAt(t), WIDTHS, SEPARATORS)
  }

  // Text order of fixed-width numerals

  lemma {:induction false} LessOfConcat(x: string, y: string, a: string, b: string)
    requires |x| == |y|
    ensures Less(x + a, y + b) <==> Less(x, y) || (x == y && Less(a, b))
  {
    if x == "" {
      assert x + a == a && y + b == b;
    } else {
      LessOfConcat(x[1..], y[1..], a, b);
      assert (x + a)[1..] == x[1..] + a && (y + b)[1..] == y[1..] + b;
      assert x == [x[0]] + x[1..] && y == [y[0]] + y[1..];
    }
  }

  lemma LessOfChars(c: char, d: char)
    ensures Less([c], [d]) <==> c < d
  {}

  lemma DigitOrder(m: nat, n: nat)
    requires m < 10 && n < 10
    ensures Digit(m) < Digit(n) <==> m < n
    ensures Digit(m) == Digit(n) <==> m == n
  {}

  /** Padded numerals of one width compare as numbers do. */
  lemma {:induction false} PadOrder(m: nat, n: nat, w: nat)
    requires w > 0 && m < Pow10(w) && n < Pow10(w)
    ensures |Pad(m, w)| == |Pad(n, w)| == w
    ensures Less(Pad(m, w), Pad(n, w)) <==> m < n
    ensures Pad(m, w) == Pad(n, w) <==> m == n
    decreases w
  {
    hide Less;
    DigitOrder(m % 10, n % 10);
    LessOfChars(Digit(m % 10), Digit(n % 10));
    if w > 1 {
      PadOrder(m / 10, n / 10, w - 1);
      LessOfConcat(Pad(m / 10, w - 1), Pad(n / 10, w - 1), [Digit(m % 10)], [Digit(n % 10)]);
      assert Pad(m, w)[..w - 1] == Pad(m / 10, w - 1) && Pad(n, w)[..w - 1] == Pad(n / 10, w - 1);
      assert Pad(m, w)[w - 1] == Digit(m % 10) && Pad(n, w)[w - 1] == Digit(n % 10);
    }
  }

  /** The first difference decides. */
  predicate LexLess(ms: seq<nat>, ns: seq<nat>)
    requires |ms| == |ns|
  {
    ms != [] && (ms[0] < ns[0] || (ms[0] == ns[0] && LexLess(ms[1..], ns[1..])))
  }

  ghost predicate Fits(ns: seq<nat>, ws: seq<nat>) {
    |ns| == |ws| && forall k | 0 <= k < |ns| :: ws[k] > 0 && ns[k] < Pow10(ws[k])
  }

  lemma {:induction false} RenderOrder(ms: seq<nat>, ns: seq<nat>, ws: seq<nat>, seps: seq<char>)
    requires Fits(ms, ws) && Fits(ns, ws) && |seps| == |ws|
    ensures Less(Render(ms, ws, seps), Render(ns, ws, seps)) <==> LexLess(ms, ns)
    decreases |ms|
  {
    if ms != [] {
      hide Less, Pad;
      PadOrder(ms[0], ns[0], ws[0]);
      RenderOrder(ms[1..], ns[1..], ws[1..], seps[1..]);
      var x, y := Pad(ms[0], ws[0]) + [seps[0]], Pad(ns[0], ws[0]) + [seps[0]];
      LessOfConcat(x, y, Render(ms[1..], ws[1..], seps[1..]), Render(ns[1..], ws[1..], seps[1..]));
      LessOfConcat(Pad(ms[0], ws[0]), Pad(ns[0], ws[0]), [seps[0]], [seps[0]]);
      LessIsIrreflexive([seps[0]]);
      assert x == y <==> ms[0] == ns[0] by {
        assert x[..ws[0]] == Pad(ms[0], ws[0]) && y[..ws[0]] == Pad(ns[0], ws[0]);
      }
    }
  }

  // Order of instants

  /** Dates in field order are in time order. */
  lemma DateOrder(c: Civil, d: Civil)
    requires IsDate(c) && IsDate(d)
    requires
      || c.year < d.year
      || (c.year == d.year && (c.month < d.month
           || (c.month == d.month && (c.day < d.day
                || (c.day == d.day && (c.hour < d.hour || (c.hour == d.hour && c.minute < d.minute)))))))
    ensures Minutes(c) < Minutes(d)
  {
    hide DaysBeforeYear, DaysBeforeMonth, DaysIn;
    if c.year < d.year {
      WithinYear(c);
      WithinYear(d);
      YearsGrow(c.year + 1, d.year);
    } else if c.month < d.month {
      MonthStep(c.year, c.month);
      MonthsGrow(c.year, c.month + 1, d.month);
    }
  }

  lemma {:induction false} FirstDifference(f: seq<nat>, g: seq<nat>) returns (k: nat)
    requires |f| == |g| && LexLess(f, g)
    ensures k < |f| && f[k] < g[k] && forall j | 0 <= j < k :: f[j] == g[j]
  {
    if f[0] < g[0] {
      k := 0;
    } else {
      k := FirstDifference(f[1..], g[1..]);
      assert forall j | 0 < j < k + 1 :: f[j] == f[1..][j - 1] && g[j] == g[1..][j - 1];
      k := k + 1;
    }
  }

  lemma {:induction false} LexTotal(f: seq<nat>, g: seq<nat>)
    requires |f| == |g|
    ensures LexLess(f, g) || f == g || LexLess(g, f)
  {
    if f != [] {
      LexTotal(f[1..], g[1..]);
      assert f == [f[0]] + f[1..] && g == [g[0]] + g[1..];
    }
  }

  /** Instants whose fields are in order are in time order. */
  lemma FieldOrder(t: int, u: int)
    requires YearAt(t) >= 0 && YearAt(u) >= 0 && LexLess(FieldsAt(t), FieldsAt(u))
    ensures Micros(t) < Micros(u)
  {
    hide Read, Minutes, LexLess;
    var a, b := Micros(t) / MICROS_IN_MINUTE, Micros(u) / MICROS_IN_MINUTE;
    ReadIsExact(a);
    ReadIsExact(b);
    var f, g := FieldsAt(t), FieldsAt(u);
    var k := FirstDifference(f, g);
    assert f[0] == Read(a).year && f[1] == Read(a).month && f[2] == Read(a).day && f[3] == Read(a).hour
        && f[4] == Read(a).minute;
    assert g[0] == Read(b).year && g[1] == Read(b).month && g[2] == Read(b).day && g[3] == Read(b).hour
        && g[4] == Read(b).minute;
    if k < 5 {
      DateOrder(Read(a), Read(b));
    } else {
      assert Read(a) == Read(b);
      assert f[5] == Micros(t) % MICROS_IN_MINUTE / 1_000_000 && g[5] == Micros(u) % MICROS_IN_MINUTE / 1_000_000;
    }
  }

  /** Instants with the same fields are the same to the microsecond. */
  lemma FieldsDetermineMicros(t: int, u: int)
    requires YearAt(t) >= 0 && YearAt(u) >= 0 && FieldsAt(t) == FieldsAt(u)
    ensures Micros(t) == Micros(u)
  {
    hide Read, Minutes;
    var a, b := Micros(t) / MICROS_IN_MINUTE, Micros(u) / MICROS_IN_MINUTE;
    ReadIsExact(a);
    ReadIsExact(b);
    var f, g := FieldsAt(t), FieldsAt(u);
    assert f[0] == g[0] && f[1] == g[1] && f[2] == g[2] && f[3] == g[3] && f[4] == g[4] && f[5] == g[5] && f[6] == g[6];
    assert Read(a) == Read(b);
  }

  lemma FieldsFit(t: int)
    requires 0 <= YearAt(t) <= 9999
    ensures Fits(FieldsAt(t), WIDTHS)
  {
    hide Read;
    ReadIsExact(Micros(t) / MICROS_IN_MINUTE);
    assert Pow10(2) == 100 && Pow10(4) == 10_000 && Pow10(6) == 1_000_000;
  }

  /** Up to year 9999, text order of stored times is time order, to the microsecond. */
  lemma TextOrderIsTimeOrder(t: int, u: int)
    requires 0 <= YearAt(t) <= 9999 && 0 <= YearAt(u) <= 9999
    ensures Less(PyTime(t), PyTime(u)) <==> Micros(t) < Micros(u)
  {
    hide Less, Render, YearAt, Micros, FieldsAt;
    FieldsFit(t);
    FieldsFit(u);
    RenderOrder(FieldsAt(t), FieldsAt(u), WIDTHS, SEPARATORS);
    LexTotal(FieldsAt(t), FieldsAt(u));
    if LexLess(FieldsAt(t), FieldsAt(u)) {
      FieldOrder(t, u);
    } else if FieldsAt(t) == FieldsAt(u) {
      FieldsDetermineMicros(t, u);
    } else {
      FieldOrder(u, t);
    }
  }

  lemma FirstDigit(y: nat)
    requires y == 10_000 || y == 9999
    ensures |Pad(y, 4)| > 0 && Pad(y, 4)[0] == if y == 10_000 then '1' else '9'
  {
    assert y / 10 == if y == 10_000 then 1000 else 999;
    assert y / 10 / 10 == if y == 10_000 then 100 else 99;
    assert y / 10 / 10 / 10 == if y == 10_000 then 10 else 9;
    PadPrefix(y, 4);
    PadPrefix(y / 10, 3);
    PadPrefix(y / 10 / 10, 2);
    if y == 10_000 {
      PadPrefix(10, 1);
    }
  }

  lemma PadPrefix(n: nat, w: nat)
    ensures |Pad(n, w)| > 0
    ensures n >= 10 || w > 1 ==>
      var p := Pad(n / 10, if w > 1 then w - 1 else 1);
      |p| > 0 && Pad(n, w)[0] == p[0]
    ensures n < 10 && w <= 1 ==> Pad(n, w)[0] == Digit(n)
  {}

  lemma RenderHead(ns: seq<nat>, ws: seq<nat>, seps: seq<char>)
    requires |ns| == |ws| == |seps| && ns != [] && |Pad(ns[0], ws[0])| > 0
    ensures Render(ns, ws, seps) != "" && Render(ns, ws, seps)[0] == Pad(ns[0], ws[0])[0]
  {}

  /** The fifth digit breaks the order: the year 10000 sorts before the year 9999. */
  lemma Year10000SortsFirst(t: int, u: int)
    requires YearAt(t) == 9999 && YearAt(u) == 10_000
    ensures Less(PyTime(u), PyTime(t))
  {
    hide Read, Pad, Render;
    assert FieldsAt(u)[0] == 10_000 && FieldsAt(t)[0] == 9999;
    FirstDigit(FieldsAt(u)[0]);
    FirstDigit(FieldsAt(t)[0]);
    RenderHead(FieldsAt(u), WIDTHS, SEPARATORS);
    RenderHead(FieldsAt(t), WIDTHS, SEPARATORS);
  }

  // Reading a stored time

  lemma {:induction false} PadValue(n: nat, w: nat)
    requires w > 0 && n < Pow10(w)
    ensures |Pad(n, w)| == w && AreDigits(Pad(n, w)) && DigitsValue(Pad(n, w)) == n
    decreases w
  {
    if w > 1 {
      PadValue(n / 10, w - 1);
      assert Pad(n, w)[..w - 1] == Pad(n / 10, w - 1) && Pad(n, w)[w - 1] == Digit(n % 10);
    } else {
      assert Pad(n, w)[..0] == "" && Pad(n, w)[0] == Digit(n);
    }
  }

  predicate AreDigits(s: string) {
    forall c | c in s :: IsDigit(c)
  }

  /** Where the part with number `k` begins. */
  function Offset(ws: seq<nat>, k: nat): nat
    requires k <= |ws|
  {
    if k == 0 then 0 else Offset(ws, k - 1) + ws[k - 1] + 1
  }

  lemma {:induction false} OffsetOfRest(ws: seq<nat>, k: nat)
    requires 0 < k <= |ws|
    ensures Offset(ws, k) == ws[0] + 1 + Offset(ws[1..], k - 1)
  {
    if k > 1 {
      OffsetOfRest(ws, k - 1);
    }
  }

  /** The text has this number, as wide as it should be, at this place, and then the separator. */
  predicate HasPart(text: string, from: nat, w: nat, n: nat, c: char) {
    && from + w < |text| && text[from + w] == c
    && AreDigits(text[from..from + w]) && DigitsValue(text[from..from + w]) == n
  }

  lemma PartOfRest(head: string, rest: string, from: nat, w: nat, n: nat, c: char)
    requires HasPart(rest, from, w, n, c)
    ensures HasPart(head + rest, |head| + from, w, n, c)
  {
    assert (head + rest)[|head| + from..|head| + from + w] == rest[from..from + w];
  }

  lemma {:induction false} HasEachPart(ns: seq<nat>, ws: seq<nat>, seps: seq<char>, k: nat)
    requires Fits(ns, ws) && |seps| == |ws| && k < |ws|
    ensures HasPart(Render(ns, ws, seps), Offset(ws, k), ws[k], ns[k], seps[k])
    ensures |Render(ns, ws, seps)| == Offset(ws, |ws|)
    decreases |ws|
  {
    hide Pad, DigitsValue, HasPart;
    PadValue(ns[0], ws[0]);
    var head := Pad(ns[0], ws[0]) + [seps[0]];
    var rest := Render(ns[1..], ws[1..], seps[1..]);
    assert Render(ns, ws, seps) == head + rest;
    if |ws| == 1 {
      assert Offset(ws, 1) == Offset(ws, 0) + ws[0] + 1;
    } else {
      HasEachPart(ns[1..], ws[1..], seps[1..], if k > 0 then k - 1 else 0);
      OffsetOfRest(ws, |ws|);
    }
    if k == 0 {
      FirstPart(Pad(ns[0], ws[0]), ns[0], seps[0], rest);
      assert head + rest == Pad(ns[0], ws[0]) + [seps[0]] + rest;
    } else {
      OffsetOfRest(ws, k);
      PartOfRest(head, rest, Offset(ws[1..], k - 1), ws[k], ns[k], seps[k]);
    }
  }

  lemma FirstPart(s: string, n: nat, c: char, rest: string)
    requires AreDigits(s) && DigitsValue(s) == n
    ensures HasPart(s + [c] + rest, 0, |s|, n, c)
  {
    assert (s + [c] + rest)[0..|s|] == s;
  }

  lemma Offsets()
    ensures Offset(WIDTHS, 0) == 0 && Offset(WIDTHS, 1) == 5 && Offset(WIDTHS, 2) == 8 && Offset(WIDTHS, 3) == 11
    ensures Offset(WIDTHS, 4) == 14 && Offset(WIDTHS, 5) == 17 && Offset(WIDTHS, 6) == 20 && Offset(WIDTHS, 7) == 27
  {
    assert Offset(WIDTHS, 3) == Offset(WIDTHS, 2) + 3;
    assert Offset(WIDTHS, 6) == Offset(WIDTHS, 5) + 3;
  }

  /** The text is year-month-dayThour:minute:second.microsecondZ of this date, second and microsecond. */
  predicate Shows(text: string, d: Civil, second: nat, micro: nat)
    requires IsDate(d) && d.year >= 0
  {
    && |text| == 27
    && HasPart(text, 0, 4, d.year, '-') && HasPart(text, 5, 2, d.month, '-') && HasPart(text, 8, 2, d.day, 'T')
    && HasPart(text, 11, 2, d.hour, ':') && HasPart(text, 14, 2, d.minute, ':') && HasPart(text, 17, 2, second, '.')
    && HasPart(text, 20, 6, micro, 'Z')
  }

  lemma ShowsField(t: int, k: nat)
    requires 0 <= YearAt(t) <= 9999 && k < 7
    ensures HasPart(PyTime(t), Offset(WIDTHS, k), WIDTHS[k], FieldsAt(t)[k], SEPARATORS[k])
    ensures |PyTime(t)| == Offset(WIDTHS, 7)
  {
    FieldsFit(t);
    hide HasPart, Render, FieldsAt, YearAt, Offset;
    HasEachPart(FieldsAt(t), WIDTHS, SEPARATORS, k);
  }

  lemma FieldsAre(t: int, d: Civil, second: nat, micro: nat)
    requires IsDate(d) && 0 <= d.year && second < 60 && micro < 1_000_000
    requires Micros(t) == Minutes(d) * 60_000_000 + second * 1_000_000 + micro
    ensures YearAt(t) == d.year
    ensures
      var f := FieldsAt(t);
      && f[0] == d.year && f[1] == d.month && f[2] == d.day && f[3] == d.hour && f[4] == d.minute
      && f[5] == second && f[6] == micro
  {
    ReadIsUnique(d);
    InMinute(Minutes(d), second, micro);
    hide Read, Minutes, Micros, IsDate;
    ghost var us := Micros(t);
    assert us / MICROS_IN_MINUTE == Minutes(d) && us % MICROS_IN_MINUTE == second * 1_000_000 + micro;
  }

  lemma InMinute(m: int, second: nat, micro: nat)
    requires second < 60 && micro < 1_000_000
    ensures
      var us := m * 60_000_000 + second * 1_000_000 + micro;
      && us / MICROS_IN_MINUTE == m && us % MICROS_IN_MINUTE == second * 1_000_000 + micro
      && (second * 1_000_000 + micro) / 1_000_000 == second && (second * 1_000_000 + micro) % 1_000_000 == micro
  {}

  /** Reading the text by its places gives the instant back, to the microsecond. */
  lemma TextShowsTheTime(t: int, d: Civil, second: nat, micro: nat)
    requires IsDate(d) && 0 <= d.year <= 9999 && second < 60 && micro < 1_000_000
    requires Micros(t) == Minutes(d) * 60_000_000 + second * 1_000_000 + micro
    ensures YearAt(t) == d.year && Shows(PyTime(t), d, second, micro)
  {
    FieldsAre(t, d, second, micro);
    Offsets();
    hide HasPart, PyTime, FieldsAt, YearAt, Offset, Micros, Minutes;
    ShowsField(t, 0);
    ShowsField(t, 1);
    ShowsField(t, 2);
    ShowsField(t, 3);
    ShowsField(t, 4);
    ShowsField(t, 5);
    ShowsField(t, 6);
  }
}
