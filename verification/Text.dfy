/**
  Text helpers shared by the other modules: optional results, decimal numerals and lines.
  A `char` stands for one byte of the original's strings.
 */
module Text {

  datatype Option<+T> = None | Some(value: T) {
    predicate IsFailure() {
      None?
    }

    function PropagateFailure<U>(): Option<U>
      requires None?
    {
      None
    }

    function Extract(): T
      requires Some?
    {
      value
    }
  }

  // Searching

  /** The first position of `c` in `s`, or the length of `s`. */
  function Index(s: string, c: char): (k: nat)
    ensures k <= |s| && c !in s[..k]
    ensures k < |s| ==> s[k] == c
  {
    if s == "" || s[0] == c then 0
    else
      var k := 1 + Index(s[1..], c);
      assert s[..k] == s[..1] + s[1..][..k - 1];
      k
  }

  lemma {:induction false} IndexIs(s: string, c: char, k: nat)
    requires k < |s| && s[k] == c && c !in s[..k]
    ensures Index(s, c) == k
  {
    if k > 0 {
      assert s[0] == s[..k][0] && s[1..][..k - 1] == s[..k][1..];
      IndexIs(s[1..], c, k - 1);
    }
  }

  lemma {:induction false} IndexIsEnd(s: string, c: char)
    requires c !in s
    ensures Index(s, c) == |s|
  {
    if s != "" {
      IndexIsEnd(s[1..], c);
    }
  }

  // Decimal numerals

  predicate IsDigit(c: char) {
    '0' <= c <= '9'
  }

  function Digit(d: nat): (c: char)
    requires d < 10
    ensures IsDigit(c)
  {
    ('0' as int + d) as char
  }

  function DigitValue(c: char): (d: nat)
    requires IsDigit(c)
    ensures d < 10 && Digit(d) == c
  {
    c as int - '0' as int
  }

  function Decimal(n: nat): (s: string)
    ensures |s| > 0 && forall c | c in s :: IsDigit(c)
  {
    if n < 10 then [Digit(n)] else Decimal(n / 10) + [Digit(n % 10)]
  }

  function DigitsValue(s: string): nat
    requires forall c | c in s :: IsDigit(c)
  {
    if s == "" then 0
    else 10 * DigitsValue(s[..|s| - 1]) + DigitValue(s[|s| - 1])
  }

  function LeadingDigits(s: string): (k: nat)
    ensures k <= |s| && forall c | c in s[..k] :: IsDigit(c)
  {
    if s == "" || !IsDigit(s[0]) then 0
    else
      var k := 1 + LeadingDigits(s[1..]);
      assert s[..k] == s[..1] + s[1..][..k - 1];
      k
  }

  /** Reads a decimal numeral off the front of `s`. */
  function ReadNat(s: string): Option<(nat, string)> {
    var k := LeadingDigits(s);
    if k == 0 then None else Some((DigitsValue(s[..k]), s[k..]))
  }

  lemma {:induction false} ValueOfDecimal(n: nat)
    ensures DigitsValue(Decimal(n)) == n
  {
    if n < 10 {
      assert Decimal(n)[..0] == "";
    } else {
      ValueOfDecimal(n / 10);
      assert Decimal(n)[..|Decimal(n)| - 1] == Decimal(n / 10);
    }
  }

  lemma {:induction false} LeadingDigitsOf(digits: string, rest: string)
    requires forall c | c in digits :: IsDigit(c)
    requires rest == "" || !IsDigit(rest[0])
    ensures LeadingDigits(digits + rest) == |digits|
  {
    if digits == "" {
      assert digits + rest == rest;
    } else {
      LeadingDigitsOf(digits[1..], rest);
      assert (digits + rest)[1..] == digits[1..] + rest;
    }
  }

  /** A numeral is read back exactly, whatever non-digit follows it. */
  lemma ReadsDecimal(n: nat, rest: string)
    requires rest == "" || !IsDigit(rest[0])
    ensures ReadNat(Decimal(n) + rest) == Some((n, rest))
  {
    LeadingDigitsOf(Decimal(n), rest);
    ValueOfDecimal(n);
    assert (Decimal(n) + rest)[..|Decimal(n)|] == Decimal(n);
    assert (Decimal(n) + rest)[|Decimal(n)|..] == rest;
  }

  // Lines

  /** Splits after every newline; the last line may lack one. */
  function SplitLines(s: string): seq<string> {
    if s == "" then []
    else
      var k := Index(s, '\n');
      if k == |s| then [s] else [s[..k + 1]] + SplitLines(s[k + 1..])
  }

  function Join(lines: seq<string>): string {
    if lines == [] then "" else lines[0] + Join(lines[1..])
  }

  predicate EndsWithNewline(line: string) {
    line != "" && line[|line| - 1] == '\n'
  }

  /** A non-empty line whose only newline, if any, is its last character. */
  ghost predicate IsLine(line: string) {
    line != "" && '\n' !in line[..|line| - 1]
  }

  /** Only the last line may lack a newline. */
  ghost predicate AreLines(lines: seq<string>) {
    lines != [] ==>
      && IsLine(lines[0])
      && (|lines| > 1 ==> EndsWithNewline(lines[0]))
      && AreLines(lines[1..])
  }

  /** Splitting off the first line. */
  lemma SplitFirst(first: string, rest: string)
    requires IsLine(first) && (rest != "" ==> EndsWithNewline(first))
    ensures SplitLines(first + rest) == [first] + SplitLines(rest)
  {
    var s, k := first + rest, |first| - 1;
    assert s[..k] == first[..k];
    if first[k] == '\n' {
      IndexIs(s, '\n', k);
      assert s[..k + 1] == first && s[k + 1..] == rest;
    } else {
      assert s == first && first == first[..k] + [first[k]];
      IndexIsEnd(s, '\n');
    }
  }

  /** Every non-empty text starts with a line. */
  lemma FirstLine(s: string) returns (first: string, rest: string)
    requires s != ""
    ensures s == first + rest && |rest| < |s|
    ensures IsLine(first) && (rest != "" ==> EndsWithNewline(first))
  {
    var k := Index(s, '\n');
    if k < |s| {
      first, rest := s[..k + 1], s[k + 1..];
      assert first[..k] == s[..k];
    } else {
      first, rest := s, "";
      assert s[..k] == s;
    }
  }

  /** Splitting yields lines, and joining them gives the text back. */
  lemma {:induction false} SplitThenJoin(s: string)
    ensures Join(SplitLines(s)) == s
    ensures AreLines(SplitLines(s))
    decreases |s|
  {
    if s != "" {
      hide SplitLines, EndsWithNewline, IsLine;
      var first, rest := FirstLine(s);
      SplitThenJoin(rest);
      SplitFirst(first, rest);
      EmptySplit(rest);
      assert SplitLines(s)[1..] == SplitLines(rest);
    }
  }

  lemma EmptySplit(s: string)
    ensures SplitLines(s) == [] <==> s == ""
  {}

  lemma JoinNonEmpty(lines: seq<string>)
    requires AreLines(lines)
    ensures Join(lines) == "" <==> lines == []
  {}

  /** A list of lines is the only one that joins to its text. */
  lemma {:induction false} JoinThenSplit(lines: seq<string>)
    requires AreLines(lines)
    ensures SplitLines(Join(lines)) == lines
  {
    if lines != [] {
      JoinThenSplit(lines[1..]);
      JoinNonEmpty(lines[1..]);
      SplitFirst(lines[0], Join(lines[1..]));
    }
  }

  // Text order

  /** Text order, byte by byte; a proper prefix comes first. */
  predicate Less(s: string, t: string) {
    if t == "" then false
    else if s == "" then true
    else s[0] < t[0] || (s[0] == t[0] && Less(s[1..], t[1..]))
  }

  lemma {:induction false} LessIsIrreflexive(s: string)
    ensures !Less(s, s)
  {
    if s != "" {
      LessIsIrreflexive(s[1..]);
    }
  }

  lemma {:induction false} LessIsTransitive(a: string, b: string, c: string)
    requires Less(a, b) && Less(b, c)
    ensures Less(a, c)
    decreases |a|
  {
    if a != "" && a[0] == b[0] && b[0] == c[0] {
      LessIsTransitive(a[1..], b[1..], c[1..]);
    }
  }

  /** Any two different texts are in one order or the other. */
  lemma {:induction false} LessIsTotal(a: string, b: string)
    ensures Less(a, b) || a == b || Less(b, a)
    decreases |a|
  {
    if a != "" && b != "" && a[0] == b[0] {
      LessIsTotal(a[1..], b[1..]);
      assert a == [a[0]] + a[1..] && b == [b[0]] + b[1..];
    }
  }

  /** Up to here the texts agree; then `a` ends, or goes on with something less. */
  predicate IsLessFrom(a: string, b: string, k: nat) {
    k < |b| && k <= |a| && a[..k] == b[..k] && (k == |a| || a[k] < b[k])
  }

  lemma LessFromTail(a: string, b: string, k: nat)
    requires a != "" && b != ""
    ensures IsLessFrom(a, b, 0) <==> a[0] < b[0]
    ensures IsLessFrom(a, b, k + 1) <==> a[0] == b[0] && IsLessFrom(a[1..], b[1..], k)
  {
    if k < |a| && k < |b| {
      var (x, y) := (a[1..][..k], b[1..][..k]);
      assert a[..k + 1] == [a[0]] + x && b[..k + 1] == [b[0]] + y;
      assert ([a[0]] + x)[1..] == x && ([b[0]] + y)[1..] == y;
    }
  }

  /** The first difference decides, where the end of a text is less than anything. */
  lemma {:induction false} LessIff(a: string, b: string)
    ensures Less(a, b) <==> exists k: nat :: IsLessFrom(a, b, k)
    decreases |a|
  {
    if a == "" || b == "" {
      assert b != "" ==> IsLessFrom(a, b, 0);
    } else {
      LessIff(a[1..], b[1..]);
      LessFromTail(a, b, 0);
      hide IsLessFrom;
      if k: nat :| IsLessFrom(a[1..], b[1..], k) {
        LessFromTail(a, b, k);
      }
      if k: nat :| IsLessFrom(a, b, k) {
        if k > 0 {
          LessFromTail(a, b, k - 1);
        }
      }
    }
  }
}
