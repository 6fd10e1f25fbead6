/**
  Line diffs: an edit script between two files, and the longest-common-subsequence
  table algorithm that builds one (internal/projects/diff.go).
 */
module Diff {

  datatype Kind = Keep | Add | Del

  /** One script entry. A side the entry does not touch has line number 0. */
  datatype Op<T> = Op(kind: Kind, text: T, aLine: nat, bLine: nat)

  /** The lines of the old file a script walks over. */
  function OldSide<T(==)>(ops: seq<Op<T>>): seq<T> {
    if ops == [] then []
    else
      var last := ops[|ops| - 1];
      OldSide(ops[..|ops| - 1]) + if last.kind == Add then [] else [last.text]
  }

  /** The lines of the new file a script produces. */
  function NewSide<T(==)>(ops: seq<Op<T>>): seq<T> {
    if ops == [] then []
    else
      var last := ops[|ops| - 1];
      NewSide(ops[..|ops| - 1]) + if last.kind == Del then [] else [last.text]
  }

  /** How many lines a script keeps. */
  function Keeps<T(==)>(ops: seq<Op<T>>): nat {
    if ops == [] then 0
    else Keeps(ops[..|ops| - 1]) + if ops[|ops| - 1].kind == Keep then 1 else 0
  }

  function CountKind<T(==)>(ops: seq<Op<T>>, kind: Kind): nat {
    if ops == [] then 0
    else CountKind(ops[..|ops| - 1], kind) + if ops[|ops| - 1].kind == kind then 1 else 0
  }

  /** How many lines a script adds or deletes. */
  function Changes<T(==)>(ops: seq<Op<T>>): nat {
    CountKind(ops, Add) + CountKind(ops, Del)
  }

  /** The script turns the lines `a` into the lines `b`. */
  ghost predicate Transforms<T>(ops: seq<Op<T>>, a: seq<T>, b: seq<T>) {
    OldSide(ops) == a && NewSide(ops) == b
  }

  /** Every entry carries the 1-based number of its own line in each file it comes from. */
  ghost predicate Numbered<T>(ops: seq<Op<T>>) {
    ops != [] ==>
      var init, last := ops[..|ops| - 1], ops[|ops| - 1];
      && Numbered(init)
      && last.aLine == (if last.kind == Add then 0 else |OldSide(init)| + 1)
      && last.bLine == (if last.kind == Del then 0 else |NewSide(init)| + 1)
  }

  ghost predicate EndsWithAdd<T>(ops: seq<Op<T>>) {
    ops != [] && ops[|ops| - 1].kind == Add
  }

  /** In a changed region, deletions come before additions. */
  ghost predicate DeletionsFirst<T>(ops: seq<Op<T>>) {
    forall k | 0 < k < |ops| && ops[k].kind == Del :: ops[k - 1].kind != Add
  }

  /** No script between the same files adds and deletes fewer lines. */
  ghost predicate Minimal<T(!new)>(ops: seq<Op<T>>, a: seq<T>, b: seq<T>) {
    forall other: seq<Op<T>> | Transforms(other, a, b) :: Changes(ops) <= Changes(other)
  }

  /** Length of a longest common subsequence. */
  ghost function Lcs<T>(a: seq<T>, b: seq<T>): nat
    decreases |a| + |b|
  {
    if a == [] || b == [] then 0
    else if a[0] == b[0] then 1 + Lcs(a[1..], b[1..])
    else if Lcs(a[1..], b) >= Lcs(a, b[1..]) then Lcs(a[1..], b)
    else Lcs(a, b[1..])
  }

  // Facts about longest common subsequences

  lemma LcsExhausted<T>(a: seq<T>, b: seq<T>)
    ensures a == [] || b == [] ==> Lcs(a, b) == 0
  {}

  lemma LcsUnfold<T>(a: seq<T>, b: seq<T>, i: nat, j: nat)
    requires i < |a| && j < |b|
    ensures Lcs(a[i..], b[j..]) ==
      if a[i] == b[j] then 1 + Lcs(a[i + 1..], b[j + 1..])
      else if Lcs(a[i + 1..], b[j..]) >= Lcs(a[i..], b[j + 1..]) then Lcs(a[i + 1..], b[j..])
      else Lcs(a[i..], b[j + 1..])
  {
    assert a[i..][1..] == a[i + 1..] && b[j..][1..] == b[j + 1..];
  }

  /** Dropping the first line of one side loses at most one common line. */
  lemma {:induction false} LcsDrop<T>(a: seq<T>, b: seq<T>)
    ensures a != [] ==> Lcs(a[1..], b) <= Lcs(a, b) <= Lcs(a[1..], b) + 1
    ensures b != [] ==> Lcs(a, b[1..]) <= Lcs(a, b) <= Lcs(a, b[1..]) + 1
    decreases |a| + |b|
  {
    if a != [] && b != [] {
      LcsDrop(a[1..], b);
      LcsDrop(a, b[1..]);
      LcsDrop(a[1..], b[1..]);
    }
  }

  /** A common first line can be kept without loss: this is why the prefix may be trimmed. */
  lemma {:induction false} LcsPrefix<T>(p: seq<T>, a: seq<T>, b: seq<T>)
    ensures Lcs(p + a, p + b) == |p| + Lcs(a, b)
  {
    if p == [] {
      assert p + a == a && p + b == b;
    } else {
      LcsPrefix(p[1..], a, b);
      assert (p + a)[1..] == p[1..] + a && (p + b)[1..] == p[1..] + b;
    }
  }

  /** A common last line can be kept without loss. */
  lemma {:induction false} LcsLast<T>(a: seq<T>, b: seq<T>, x: T)
    ensures Lcs(a + [x], b + [x]) == Lcs(a, b) + 1
    decreases |a| + |b|
  {
    if a != [] {
      assert (a + [x])[1..] == a[1..] + [x];
    }
    if b != [] {
      assert (b + [x])[1..] == b[1..] + [x];
    }
    if a != [] && b != [] {
      LcsLast(a[1..], b[1..], x);
      LcsLast(a[1..], b, x);
      LcsLast(a, b[1..], x);
    } else if a != [] {
      LcsLast(a[1..], b, x);
      assert (b + [x])[1..] == [];
    } else if b != [] {
      LcsLast(a, b[1..], x);
      assert (a + [x])[1..] == [];
    } else {
      assert (a + [x])[1..] == [] && (b + [x])[1..] == [];
    }
  }

  /** A common suffix may be trimmed. */
  lemma {:induction false} LcsSuffix<T>(a: seq<T>, b: seq<T>, s: seq<T>)
    ensures Lcs(a + s, b + s) == Lcs(a, b) + |s|
  {
    if s == [] {
      assert a + s == a && b + s == b;
    } else {
      var init, x := s[..|s| - 1], s[|s| - 1];
      LcsSuffix(a, b, init);
      LcsLast(a + init, b + init, x);
      assert a + s == a + init + [x] && b + s == b + init + [x];
    }
  }

  // Facts about scripts

  lemma {:induction false} OldSideOfConcat<T>(x: seq<Op<T>>, y: seq<Op<T>>)
    ensures OldSide(x + y) == OldSide(x) + OldSide(y)
  {
    if y == [] {
      assert x + y == x;
    } else {
      OldSideOfConcat(x, y[..|y| - 1]);
      assert (x + y)[..|x + y| - 1] == x + y[..|y| - 1];
    }
  }

  lemma {:induction false} NewSideOfConcat<T>(x: seq<Op<T>>, y: seq<Op<T>>)
    ensures NewSide(x + y) == NewSide(x) + NewSide(y)
  {
    if y == [] {
      assert x + y == x;
    } else {
      NewSideOfConcat(x, y[..|y| - 1]);
      assert (x + y)[..|x + y| - 1] == x + y[..|y| - 1];
    }
  }

  lemma {:induction false} KeepsOfConcat<T>(x: seq<Op<T>>, y: seq<Op<T>>)
    ensures Keeps(x + y) == Keeps(x) + Keeps(y)
  {
    if y == [] {
      assert x + y == x;
    } else {
      KeepsOfConcat(x, y[..|y| - 1]);
      assert (x + y)[..|x + y| - 1] == x + y[..|y| - 1];
    }
  }

  /** No script keeps more lines than the longest common subsequence has. */
  lemma {:induction false} KeepsAtMostLcs<T>(ops: seq<Op<T>>)
    ensures Keeps(ops) <= Lcs(OldSide(ops), NewSide(ops))
  {
    if ops != [] {
      var first, rest := ops[..1], ops[1..];
      assert ops == first + rest && first[..0] == [];
      OldSideOfConcat(first, rest);
      NewSideOfConcat(first, rest);
      KeepsOfConcat(first, rest);
      KeepsAtMostLcs(rest);
      var a, b := OldSide(ops), NewSide(ops);
      var text := ops[0].text;
      LcsDrop(a, b);
      match ops[0].kind
      case Keep =>
        assert a == [text] + OldSide(rest) && b == [text] + NewSide(rest);
      case Add =>
        assert a == OldSide(rest) && b == [text] + NewSide(rest);
      case Del =>
        assert a == [text] + OldSide(rest) && b == NewSide(rest);
    }
  }

  /** Kept, added and deleted lines account for both files. */
  lemma {:induction false} Accounting<T>(ops: seq<Op<T>>)
    ensures |OldSide(ops)| == Keeps(ops) + CountKind(ops, Del)
    ensures |NewSide(ops)| == Keeps(ops) + CountKind(ops, Add)
  {
    if ops != [] {
      Accounting(ops[..|ops| - 1]);
    }
  }

  /** A script that keeps a longest common subsequence changes as few lines as any script can. */
  lemma LcsKeepsAreMinimal<T>(ops: seq<Op<T>>, other: seq<Op<T>>)
    requires OldSide(other) == OldSide(ops) && NewSide(other) == NewSide(ops)
    requires Keeps(ops) == Lcs(OldSide(ops), NewSide(ops))
    ensures Changes(ops) <= Changes(other)
  {
    KeepsAtMostLcs(other);
    Accounting(ops);
    Accounting(other);
  }

  /** A well-formed script that has consumed `i` old lines and `j` new lines. */
  ghost predicate Covers<T>(ops: seq<Op<T>>, a: seq<T>, b: seq<T>, i: nat, j: nat)
    requires i <= |a| && j <= |b|
  {
    Transforms(ops, a[..i], b[..j]) && Numbered(ops) && DeletionsFirst(ops)
  }

  /** What appending one entry does to both sides. */
  lemma AppendSides<T>(ops: seq<Op<T>>, op: Op<T>)
    ensures OldSide(ops + [op]) == OldSide(ops) + if op.kind == Add then [] else [op.text]
    ensures NewSide(ops + [op]) == NewSide(ops) + if op.kind == Del then [] else [op.text]
    ensures Keeps(ops + [op]) == Keeps(ops) + if op.kind == Keep then 1 else 0
  {
    var all := ops + [op];
    assert all[..|all| - 1] == ops;
  }

  /** Appending one correctly numbered entry. */
  lemma Append<T>(ops: seq<Op<T>>, op: Op<T>)
    requires Numbered(ops) && DeletionsFirst(ops)
    requires op.aLine == (if op.kind == Add then 0 else |OldSide(ops)| + 1)
    requires op.bLine == (if op.kind == Del then 0 else |NewSide(ops)| + 1)
    requires op.kind == Del ==> !EndsWithAdd(ops)
    ensures OldSide(ops + [op]) == OldSide(ops) + if op.kind == Add then [] else [op.text]
    ensures NewSide(ops + [op]) == NewSide(ops) + if op.kind == Del then [] else [op.text]
    ensures Keeps(ops + [op]) == Keeps(ops) + if op.kind == Keep then 1 else 0
    ensures Numbered(ops + [op]) && DeletionsFirst(ops + [op])
  {
    hide OldSide, NewSide, Keeps;
    AppendSides(ops, op);
    var all := ops + [op];
    assert all[..|all| - 1] == ops;
  }

  /** The numbers read entry by entry. */
  lemma {:induction false} NumberedAt<T>(ops: seq<Op<T>>, k: nat)
    requires Numbered(ops) && k < |ops|
    ensures ops[k].aLine == if ops[k].kind == Add then 0 else |OldSide(ops[..k])| + 1
    ensures ops[k].bLine == if ops[k].kind == Del then 0 else |NewSide(ops[..k])| + 1
  {
    if k < |ops| - 1 {
      NumberedAt(ops[..|ops| - 1], k);
      assert ops[..|ops| - 1][..k] == ops[..k];
    }
  }

  lemma AppendKeep<T>(ops: seq<Op<T>>, a: seq<T>, b: seq<T>, i: nat, j: nat)
    requires i < |a| && j < |b| && a[i] == b[j] && Covers(ops, a, b, i, j)
    ensures Covers(ops + [Op(Keep, a[i], i + 1, j + 1)], a, b, i + 1, j + 1)
    ensures Keeps(ops + [Op(Keep, a[i], i + 1, j + 1)]) == Keeps(ops) + 1
  {
    hide OldSide, NewSide, Keeps, Numbered, DeletionsFirst;
    Append(ops, Op(Keep, a[i], i + 1, j + 1));
    assert a[..i + 1] == a[..i] + [a[i]] && b[..j + 1] == b[..j] + [b[j]];
  }

  lemma AppendDel<T>(ops: seq<Op<T>>, a: seq<T>, b: seq<T>, i: nat, j: nat)
    requires i < |a| && j <= |b| && Covers(ops, a, b, i, j) && !EndsWithAdd(ops)
    ensures Covers(ops + [Op(Del, a[i], i + 1, 0)], a, b, i + 1, j)
    ensures Keeps(ops + [Op(Del, a[i], i + 1, 0)]) == Keeps(ops)
  {
    hide OldSide, NewSide, Keeps, Numbered, DeletionsFirst;
    Append(ops, Op(Del, a[i], i + 1, 0));
    assert a[..i + 1] == a[..i] + [a[i]];
  }

  lemma AppendAdd<T>(ops: seq<Op<T>>, a: seq<T>, b: seq<T>, i: nat, j: nat)
    requires i <= |a| && j < |b| && Covers(ops, a, b, i, j)
    ensures Covers(ops + [Op(Add, b[j], 0, j + 1)], a, b, i, j + 1)
    ensures Keeps(ops + [Op(Add, b[j], 0, j + 1)]) == Keeps(ops)
  {
    hide OldSide, NewSide, Keeps, Numbered, DeletionsFirst;
    Append(ops, Op(Add, b[j], 0, j + 1));
    assert b[..j + 1] == b[..j] + [b[j]];
  }

  // The algorithm

  /** Entry (i, j) of the table is the best that is left from line i of `a` and line j of `b`. */
  ghost predicate IsTable<T>(lcs: array2<nat>, a: seq<T>, b: seq<T>)
    reads lcs
  {
    && lcs.Length0 == |a| + 1 && lcs.Length1 == |b| + 1
    && forall i, j | 0 <= i <= |a| && 0 <= j <= |b| :: lcs[i, j] == Lcs(a[i..], b[j..])
  }

  /** Fills the table from the last lines back to the first. */
  method FillTable<T(==)>(a: seq<T>, b: seq<T>) returns (lcs: array2<nat>)
    ensures fresh(lcs) && IsTable(lcs, a, b)
  {
    hide Lcs;
    lcs := new nat[|a| + 1, |b| + 1]((i, j) => 0);
    var i := |a|;
    LastRowIsZero(a, b);
    while i > 0
      invariant 0 <= i <= |a|
      invariant forall x | 0 <= x < i :: lcs[x, |b|] == 0
      invariant forall x, y | i <= x <= |a| && 0 <= y <= |b| :: lcs[x, y] == Lcs(a[x..], b[y..])
    {
      i := i - 1;
      var j := |b|;
      LcsExhausted(a[i..], b[j..]);
      while j > 0
        invariant 0 <= j <= |b|
        invariant forall x | 0 <= x < i :: lcs[x, |b|] == 0
        invariant forall x, y | i < x <= |a| && 0 <= y <= |b| :: lcs[x, y] == Lcs(a[x..], b[y..])
        invariant forall y | j <= y <= |b| :: lcs[i, y] == Lcs(a[i..], b[y..])
      {
        j := j - 1;
        LcsUnfold(a, b, i, j);
        if a[i] == b[j] {
          lcs[i, j] := lcs[i + 1, j + 1] + 1;
        } else if lcs[i + 1, j] >= lcs[i, j + 1] {
          lcs[i, j] := lcs[i + 1, j];
        } else {
          lcs[i, j] := lcs[i, j + 1];
        }
      }
    }
  }

  lemma LastRowIsZero<T>(a: seq<T>, b: seq<T>)
    ensures forall y | 0 <= y <= |b| :: Lcs(a[|a|..], b[y..]) == 0
  {}

  /** How many leading lines the two files share. */
  method CommonPrefix<T(==)>(a: seq<T>, b: seq<T>) returns (start: nat)
    ensures start <= |a| && start <= |b| && a[..start] == b[..start]
    ensures start < |a| && start < |b| ==> a[start] != b[start]
  {
    start := 0;
    while start < |a| && start < |b| && a[start] == b[start]
      invariant start <= |a| && start <= |b| && a[..start] == b[..start]
    {
      start := start + 1;
    }
  }

  /** Where the shared trailing lines begin, not reaching back into the first `start` lines. */
  method CommonSuffix<T(==)>(a: seq<T>, b: seq<T>, start: nat) returns (endA: nat, endB: nat)
    requires start <= |a| && start <= |b|
    ensures start <= endA <= |a| && start <= endB <= |b| && a[endA..] == b[endB..]
    ensures endA > start && endB > start ==> a[endA - 1] != b[endB - 1]
  {
    endA, endB := |a|, |b|;
    while endA > start && endB > start && a[endA - 1] == b[endB - 1]
      invariant start <= endA <= |a| && start <= endB <= |b| && a[endA..] == b[endB..]
    {
      endA, endB := endA - 1, endB - 1;
      assert a[endA..] == [a[endA]] + a[endA + 1..] && b[endB..] == [b[endB]] + b[endB + 1..];
    }
  }

  /** The changed middle: follows the table from its first entry, preferring deletions on ties. */
  method WalkTable<T(==)>(a: seq<T>, b: seq<T>, start: nat, midA: seq<T>, midB: seq<T>,
                   lcs: array2<nat>, prefix: seq<Op<T>>)
    returns (ops: seq<Op<T>>)
    requires start + |midA| <= |a| && start + |midB| <= |b|
    requires midA == a[start..start + |midA|] && midB == b[start..start + |midB|]
    requires IsTable(lcs, midA, midB)
    requires Covers(prefix, a, b, start, start) && !EndsWithAdd(prefix)
    ensures Covers(ops, a, b, start + |midA|, start + |midB|)
    ensures Keeps(ops) == Keeps(prefix) + Lcs(midA, midB)
  {
    hide Covers, Lcs, Keeps, Transforms;
    ops := prefix;
    var i, j := 0, 0;
    while i < |midA| && j < |midB|
      invariant 0 <= i <= |midA| && 0 <= j <= |midB|
      invariant Covers(ops, a, b, start + i, start + j)
      invariant Keeps(ops) + Lcs(midA[i..], midB[j..]) == Keeps(prefix) + Lcs(midA, midB)
      invariant EndsWithAdd(ops) && i < |midA| ==>
        j > 0 && Lcs(midA[i + 1..], midB[j - 1..]) < Lcs(midA[i..], midB[j..])
      decreases |midA| + |midB| - i - j
    {
      LcsUnfold(midA, midB, i, j);
      var op;
      if midA[i] == midB[j] {
        op := Op(Keep, midA[i], start + i + 1, start + j + 1);
        AppendKeep(ops, a, b, start + i, start + j);
        i, j := i + 1, j + 1;
      } else if lcs[i + 1, j] >= lcs[i, j + 1] {
        op := Op(Del, midA[i], start + i + 1, 0);
        NoDeletionAfterAddition(midA, midB, i, j, EndsWithAdd(ops));
        AppendDel(ops, a, b, start + i, start + j);
        i := i + 1;
      } else {
        op := Op(Add, midB[j], 0, start + j + 1);
        AppendAdd(ops, a, b, start + i, start + j);
        j := j + 1;
      }
      ops := ops + [op];
    }
    LcsExhausted(midA[i..], midB[j..]);
    while i < |midA|
      invariant i <= |midA| && j <= |midB| && (i == |midA| || j == |midB|)
      invariant Covers(ops, a, b, start + i, start + j)
      invariant Keeps(ops) == Keeps(prefix) + Lcs(midA, midB)
      invariant i < |midA| ==> !EndsWithAdd(ops)
    {
      AppendDel(ops, a, b, start + i, start + j);
      ops := ops + [Op(Del, midA[i], start + i + 1, 0)];
      i := i + 1;
    }
    while j < |midB|
      invariant j <= |midB|
      invariant Covers(ops, a, b, start + |midA|, start + j)
      invariant Keeps(ops) == Keeps(prefix) + Lcs(midA, midB)
    {
      AppendAdd(ops, a, b, start + |midA|, start + j);
      ops := ops + [Op(Add, midB[j], 0, start + j + 1)];
      j := j + 1;
    }
  }

  /**
    The line diff: an exact, correctly numbered script that changes as few lines as any script
    can, with each region's deletions ahead of its additions.
   */
  method DiffLines<T(==,!new)>(a: seq<T>, b: seq<T>) returns (ops: seq<Op<T>>)
    ensures Transforms(ops, a, b)
    ensures Numbered(ops)
    ensures Keeps(ops) == Lcs(a, b)
    ensures Minimal(ops, a, b)
    ensures DeletionsFirst(ops)
  {
    hide Covers, Lcs, Keeps, Minimal;
    var start := CommonPrefix(a, b);
    var endA, endB := CommonSuffix(a, b, start);
    var midA, midB := a[start..endA], b[start..endB];
    var lcs := FillTable(midA, midB);
    TrimmingIsExact(a, b, start, endA, endB);

    ops := [];
    CoversNothing(a, b);
    var i := 0;
    while i < start
      invariant 0 <= i <= start
      invariant Covers(ops, a, b, i, i) && Keeps(ops) == i && !EndsWithAdd(ops)
      invariant IsTable(lcs, midA, midB)
    {
      assert a[i] == a[..start][i] == b[i];
      AppendKeep(ops, a, b, i, i);
      ops := ops + [Op(Keep, a[i], i + 1, i + 1)];
      i := i + 1;
    }

    ops := WalkTable(a, b, start, midA, midB, lcs, ops);
    var k := 0;
    while k < |a| - endA
      invariant 0 <= k <= |a| - endA
      invariant Covers(ops, a, b, endA + k, endB + k)
      invariant Keeps(ops) == start + Lcs(midA, midB) + k
    {
      assert a[endA + k] == a[endA..][k] == b[endB..][k];
      AppendKeep(ops, a, b, endA + k, endB + k);
      ops := ops + [Op(Keep, a[endA + k], endA + k + 1, endB + k + 1)];
      k := k + 1;
    }
    CoversAll(ops, a, b);
  }

  lemma CoversNothing<T>(a: seq<T>, b: seq<T>)
    ensures Covers([], a, b, 0, 0) && Keeps<T>([]) == 0
  {}

  /** A script that has consumed both files and kept a longest common subsequence is the answer. */
  lemma CoversAll<T(!new)>(ops: seq<Op<T>>, a: seq<T>, b: seq<T>)
    requires Covers(ops, a, b, |a|, |b|) && Keeps(ops) == Lcs(a, b)
    ensures Transforms(ops, a, b) && Numbered(ops) && DeletionsFirst(ops)
    ensures Minimal(ops, a, b)
  {
    assert a[..|a|] == a && b[..|b|] == b;
    forall other: seq<Op<T>> | Transforms(other, a, b)
      ensures Changes(ops) <= Changes(other)
    {
      LcsKeepsAreMinimal(ops, other);
    }
  }

  /** Trimming a common prefix and suffix loses no common line. */
  lemma TrimmingIsExact<T>(a: seq<T>, b: seq<T>, start: nat, endA: nat, endB: nat)
    requires start <= endA <= |a| && start <= endB <= |b|
    requires a[..start] == b[..start] && a[endA..] == b[endB..]
    ensures Lcs(a, b) == start + Lcs(a[start..endA], b[start..endB]) + (|a| - endA)
    ensures |a| - endA == |b| - endB
  {
    hide Lcs;
    var p, s := a[..start], a[endA..];
    LcsPrefix(p, a[start..endA], b[start..endB]);
    LcsSuffix(p + a[start..endA], p + b[start..endB], s);
    assert a == p + a[start..endA] + s && b == p + b[start..endB] + s;
    assert |s| == |b[endB..]|;
  }

  /** After an addition was preferred at (i, j - 1), a deletion is never preferred at (i, j). */
  lemma NoDeletionAfterAddition<T>(a: seq<T>, b: seq<T>, i: nat, j: nat, added: bool)
    requires i < |a| && j < |b| && a[i] != b[j]
    requires Lcs(a[i + 1..], b[j..]) >= Lcs(a[i..], b[j + 1..])
    requires added ==> j > 0 && Lcs(a[i + 1..], b[j - 1..]) < Lcs(a[i..], b[j..])
    ensures !added
  {
    LcsUnfold(a, b, i, j);
    if j > 0 {
      assert b[j - 1..][1..] == b[j..];
      LcsDrop(a[i + 1..], b[j - 1..]);
    }
  }
}
