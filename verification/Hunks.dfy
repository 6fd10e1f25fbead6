/**
  Grouping a script's changes into hunks, and printing them as the body of a unified diff
  (internal/projects/diff.go, writeHunks).
 */
module Hunks {
  import opened Text
  import opened Diff

  const CONTEXT := 3

  /** The note printed under a line that lacks its newline. */
  function NoNewline(): string {
    "\\ No newline at end of file\n"
  }

  /** The script entries from `start` up to `stop`. */
  datatype Range = Range(start: nat, stop: nat)

  predicate Changed<T>(ops: seq<Op<T>>, q: int) {
    0 <= q < |ops| && ops[q].kind != Keep
  }

  /** Some changed entry lies within the context distance of entry `p`. */
  ghost predicate Near<T>(ops: seq<Op<T>>, p: int) {
    exists q :: Changed(ops, q) && q - CONTEXT <= p <= q + CONTEXT
  }

  ghost predicate Inside(hs: seq<Range>, p: int) {
    exists k :: 0 <= k < |hs| && hs[k].start <= p < hs[k].stop
  }

  /** Hunks are non-empty, in order, and at least one entry apart. */
  ghost predicate Apart(hs: seq<Range>, limit: nat) {
    && (forall k | 0 <= k < |hs| :: hs[k].start < hs[k].stop <= limit)
    && (forall j, k | 0 <= j < k < |hs| :: hs[j].stop < hs[k].start)
  }

  /**
    The hunks are exactly the maximal stretches of entries near a change: so every change is in
    one hunk, a hunk has at most three context lines on each side, a gap of up to six kept lines
    is bridged and a longer one is not.
   */
  ghost predicate AreHunks<T>(ops: seq<Op<T>>, hs: seq<Range>) {
    && Apart(hs, |ops|)
    && forall p | 0 <= p < |ops| :: Inside(hs, p) <==> Near(ops, p)
  }

  /** A script has only one grouping into hunks. */
  lemma HunksAreUnique<T>(ops: seq<Op<T>>, hs: seq<Range>, gs: seq<Range>)
    requires AreHunks(ops, hs) && AreHunks(ops, gs)
    ensures hs == gs
  {
    hide Near;
    SameUpTo(ops, hs, gs, |hs|);
    SameUpTo(ops, gs, hs, |gs|);
  }

  lemma {:induction false} SameUpTo<T>(ops: seq<Op<T>>, hs: seq<Range>, gs: seq<Range>, n: nat)
    requires AreHunks(ops, hs) && AreHunks(ops, gs) && n <= |hs|
    ensures n <= |gs| && forall k | 0 <= k < n :: hs[k] == gs[k]
  {
    hide AreHunks;
    if n > 0 {
      SameUpTo(ops, hs, gs, n - 1);
      StartsNoEarlier(ops, hs, gs, n - 1);
      StartsNoEarlier(ops, gs, hs, n - 1);
      StopsNoLater(ops, hs, gs, n - 1);
      StopsNoLater(ops, gs, hs, n - 1);
    }
  }

  /** After the same first `k` hunks, the next one of one grouping starts no earlier than some next one of the other. */
  lemma StartsNoEarlier<T>(ops: seq<Op<T>>, hs: seq<Range>, gs: seq<Range>, k: nat)
    requires AreHunks(ops, hs) && AreHunks(ops, gs) && k < |hs| && k <= |gs|
    requires forall m | 0 <= m < k :: hs[m] == gs[m]
    ensures k < |gs| && gs[k].start <= hs[k].start
  {
    hide Near;
    var j := HunkOf(ops, gs, hs, hs[k].start);
    assert forall m | 0 <= m < k :: hs[m].stop < hs[k].start;
  }

  /** An entry in a hunk of one grouping is in a hunk of the other. */
  lemma HunkOf<T>(ops: seq<Op<T>>, gs: seq<Range>, hs: seq<Range>, p: nat) returns (j: nat)
    requires AreHunks(ops, hs) && AreHunks(ops, gs) && p < |ops| && Inside(hs, p)
    ensures j < |gs| && gs[j].start <= p < gs[j].stop
  {
    hide Near;
    j :| 0 <= j < |gs| && gs[j].start <= p < gs[j].stop;
  }

  lemma StopsNoLater<T>(ops: seq<Op<T>>, hs: seq<Range>, gs: seq<Range>, k: nat)
    requires AreHunks(ops, hs) && AreHunks(ops, gs)
    requires k < |hs| && k < |gs| && hs[k].start == gs[k].start
    ensures gs[k].stop <= hs[k].stop
  {
    hide Near;
    if gs[k].stop > hs[k].stop {
      var p := hs[k].stop;
      assert Inside(gs, p);
      var j := HunkOf(ops, hs, gs, p);
      assert false;
    }
  }

  lemma GapsAreOutside(hs: seq<Range>, limit: nat, k: nat, p: nat)
    requires Apart(hs, limit) && k <= |hs|
    requires k > 0 ==> hs[k - 1].stop <= p
    requires k < |hs| ==> p < hs[k].start
    ensures !Inside(hs, p)
  {}

  /** Two neighbouring changes share a hunk exactly when at most six kept lines lie between them. */
  lemma GapsOfSixAreBridged<T>(ops: seq<Op<T>>, hs: seq<Range>, p: nat, q: nat)
    requires AreHunks(ops, hs)
    requires p < q && Changed(ops, p) && Changed(ops, q) && forall m | p < m < q :: !Changed(ops, m)
    ensures (exists k :: 0 <= k < |hs| && hs[k].start <= p && q < hs[k].stop) <==> q - p - 1 <= 6
  {
    assert Near(ops, p);
    var k :| 0 <= k < |hs| && hs[k].start <= p < hs[k].stop;
    if q - p - 1 <= 2 * CONTEXT {
      var stop := hs[k].stop;
      if stop <= q {
        GapsAreOutside(hs, |ops|, k + 1, stop);
      }
    } else {
      assert !Near(ops, p + CONTEXT + 1);
    }
  }

  /** Every entry of a hunk is near a change of that hunk. */
  lemma ChangeNear<T>(ops: seq<Op<T>>, hs: seq<Range>, k: nat, p: nat) returns (r: nat)
    requires AreHunks(ops, hs) && k < |hs| && hs[k].start <= p < hs[k].stop
    ensures hs[k].start <= r < hs[k].stop && Changed(ops, r) && p - CONTEXT <= r <= p + CONTEXT
  {
    assert Inside(hs, p);
    var q :| Changed(ops, q) && q - CONTEXT <= p <= q + CONTEXT;
    if q < hs[k].start {
      GapsAreOutside(hs, |ops|, k, hs[k].start - 1);
    } else if q >= hs[k].stop {
      GapsAreOutside(hs, |ops|, k + 1, hs[k].stop);
    }
    r := q;
  }

  /** A hunk shows three entries before its first change and three after its last, or all that there are. */
  lemma ContextIsThree<T>(ops: seq<Op<T>>, hs: seq<Range>, k: nat) returns (first: nat, last: nat)
    requires AreHunks(ops, hs) && k < |hs|
    ensures hs[k].start <= first <= last < hs[k].stop && Changed(ops, first) && Changed(ops, last)
    ensures forall p | hs[k].start <= p < hs[k].stop && Changed(ops, p) :: first <= p <= last
    ensures hs[k].start == (if first < 3 then 0 else first - 3)
    ensures hs[k].stop == (if last + 4 > |ops| then |ops| else last + 4)
  {
    var h := hs[k];
    var early := ChangeNear(ops, hs, k, h.start);
    var late := ChangeNear(ops, hs, k, h.stop - 1);
    first := FirstChange(ops, h.start, early);
    last := LastChange(ops, late, h.stop);
    if h.start > 0 {
      GapsAreOutside(hs, |ops|, k, h.start - 1);
      assert !Near(ops, h.start - 1);
    }
    if h.stop < |ops| {
      GapsAreOutside(hs, |ops|, k + 1, h.stop);
      assert !Near(ops, h.stop);
    }
  }

  lemma FirstChange<T>(ops: seq<Op<T>>, start: nat, p: nat) returns (first: nat)
    requires start <= p && Changed(ops, p)
    ensures start <= first <= p && Changed(ops, first) && forall q | start <= q < first :: !Changed(ops, q)
  {
    first := start;
    while !Changed(ops, first)
      invariant start <= first <= p && forall q | start <= q < first :: !Changed(ops, q)
      decreases p - first
    {
      first := first + 1;
    }
  }

  lemma LastChange<T>(ops: seq<Op<T>>, p: nat, stop: nat) returns (last: nat)
    requires p < stop && Changed(ops, p)
    ensures p <= last < stop && Changed(ops, last) && forall q | last < q < stop :: !Changed(ops, q)
  {
    last := stop - 1;
    while !Changed(ops, last)
      invariant p <= last < stop && forall q | last < q < stop :: !Changed(ops, q)
      decreases last - p
    {
      last := last - 1;
    }
  }

  // Finding hunks

  /** Nothing changes in the next `n` entries. */
  ghost predicate Quiet<T>(ops: seq<Op<T>>, from: nat, n: nat) {
    forall q | from <= q < from + n :: !Changed(ops, q)
  }

  /**
    Where the run of changes that starts at `i` ends, stepping over gaps of up to six kept
    lines: just after its last change.
   */
  method RunEnd<T>(ops: seq<Op<T>>, i: nat) returns (end: nat)
    requires Changed(ops, i)
    ensures i < end <= |ops| && Changed(ops, end - 1)
    ensures forall p | i <= p < end :: Near(ops, p)
    ensures Quiet(ops, end, 2 * CONTEXT + 1)
  {
    end := i;
    while end < |ops|
      invariant i <= end <= |ops|
      invariant end == i || Changed(ops, end - 1) || Changed(ops, end)
      invariant forall p | i <= p < end :: Near(ops, p)
      decreases |ops| - end, end < |ops| && ops[end].kind == Keep
    {
      if ops[end].kind != Keep {
        assert Changed(ops, end);
        end := end + 1;
        continue;
      }
      var next := end;
      while next < |ops| && next < end + 2 * CONTEXT && ops[next].kind == Keep
        invariant end <= next <= |ops| && next <= end + 2 * CONTEXT
        invariant forall q | end <= q < next :: !Changed(ops, q)
      {
        next := next + 1;
      }
      if next < |ops| && ops[next].kind != Keep {
        assert Changed(ops, end - 1) && Changed(ops, next);
        end := next;
        continue;
      }
      break;
    }
  }

  // Printing

  /** The line number printed for a side: the first line shown, or 0 when none is. */
  function OldStart<T(==)>(ops: seq<Op<T>>, h: Range): nat
    requires h.start <= h.stop <= |ops|
  {
    if OldSide(ops[h.start..h.stop]) == [] then 0 else |OldSide(ops[..h.start])| + 1
  }

  function NewStart<T(==)>(ops: seq<Op<T>>, h: Range): nat
    requires h.start <= h.stop <= |ops|
  {
    if NewSide(ops[h.start..h.stop]) == [] then 0 else |NewSide(ops[..h.start])| + 1
  }

  function Header(oldStart: nat, oldCount: nat, newStart: nat, newCount: nat): string {
    "@@ -" + (Decimal(oldStart) + ("," + (Decimal(oldCount) + (" +" + (Decimal(newStart) + ("," +
    (Decimal(newCount) + " @@\n")))))))
  }

  function Prefix(kind: Kind): char {
    match kind
    case Keep => ' '
    case Add => '+'
    case Del => '-'
  }

  function PrintLine(op: Op<string>): string {
    [Prefix(op.kind)] + if EndsWithNewline(op.text) then op.text else op.text + "\n" + NoNewline()
  }

  function PrintLines(ops: seq<Op<string>>): string {
    if ops == [] then "" else PrintLine(ops[0]) + PrintLines(ops[1..])
  }

  function PrintHunk(ops: seq<Op<string>>, h: Range): string
    requires h.start <= h.stop <= |ops|
  {
    var shown := ops[h.start..h.stop];
    Header(OldStart(ops, h), |OldSide(shown)|, NewStart(ops, h), |NewSide(shown)|) + PrintLines(shown)
  }

  function PrintHunks(ops: seq<Op<string>>, hs: seq<Range>): string
    requires Apart(hs, |ops|)
  {
    if hs == [] then "" else PrintHunks(ops, hs[..|hs| - 1]) + PrintHunk(ops, hs[|hs| - 1])
  }

  lemma {:induction false} PrintLinesAppend(ops: seq<Op<string>>, op: Op<string>)
    ensures PrintLines(ops + [op]) == PrintLines(ops) + PrintLine(op)
  {
    hide PrintLine;
    if ops != [] {
      PrintLinesAppend(ops[1..], op);
      assert (ops + [op])[1..] == ops[1..] + [op];
    }
  }

  /** The two line numbers and counts of a hunk's header. */
  method Count<T(==)>(ops: seq<Op<T>>, h: Range)
    returns (aStart: nat, aCount: nat, bStart: nat, bCount: nat)
    requires Numbered(ops) && h.start <= h.stop <= |ops|
    ensures aStart == OldStart(ops, h) && aCount == |OldSide(ops[h.start..h.stop])|
    ensures bStart == NewStart(ops, h) && bCount == |NewSide(ops[h.start..h.stop])|
  {
    hide Numbered, OldSide, NewSide;
    aStart, bStart, aCount, bCount := 0, 0, 0, 0;
    var k := h.start;
    SidesOfNothing(ops[h.start..k]);
    while k < h.stop
      invariant h.start <= k <= h.stop
      invariant aStart == OldStart(ops, Range(h.start, k)) && aCount == |OldSide(ops[h.start..k])|
      invariant bStart == NewStart(ops, Range(h.start, k)) && bCount == |NewSide(ops[h.start..k])|
    {
      NumberedAt(ops, k);
      PrefixSides(ops, h.start, k);
      if ops[k].kind != Add {
        if aStart == 0 {
          aStart := ops[k].aLine;
        }
        aCount := aCount + 1;
      }
      if ops[k].kind != Del {
        if bStart == 0 {
          bStart := ops[k].bLine;
        }
        bCount := bCount + 1;
      }
      k := k + 1;
    }
  }

  lemma SidesOfNothing<T>(ops: seq<Op<T>>)
    requires ops == []
    ensures OldSide(ops) == [] && NewSide(ops) == []
  {}

  /** How both sides of a stretch grow with entry `k`. */
  lemma PrefixSides<T>(ops: seq<Op<T>>, start: nat, k: nat)
    requires start <= k < |ops|
    ensures |OldSide(ops[..k])| == |OldSide(ops[..start])| + |OldSide(ops[start..k])|
    ensures |NewSide(ops[..k])| == |NewSide(ops[..start])| + |NewSide(ops[start..k])|
    ensures |OldSide(ops[start..k + 1])| == |OldSide(ops[start..k])| + if ops[k].kind == Add then 0 else 1
    ensures |NewSide(ops[start..k + 1])| == |NewSide(ops[start..k])| + if ops[k].kind == Del then 0 else 1
  {
    hide OldSide, NewSide;
    assert ops[..k] == ops[..start] + ops[start..k];
    OldSideOfConcat(ops[..start], ops[start..k]);
    NewSideOfConcat(ops[..start], ops[start..k]);
    assert ops[start..k + 1] == ops[start..k] + [ops[k]];
    AppendSides(ops[start..k], ops[k]);
  }

  // The hunk writer

  /** The hunks found so far, after looking at the first `i` entries. */
  ghost predicate Found<T>(ops: seq<Op<T>>, hs: seq<Range>, i: nat) {
    && i <= |ops| && Apart(hs, i)
    && (forall p | 0 <= p < i :: Inside(hs, p) ==> Near(ops, p))
    && (forall q, p | 0 <= q < i && Changed(ops, q) && q - CONTEXT <= p <= q + CONTEXT && 0 <= p < |ops| ::
          Inside(hs, p))
    && (hs != [] ==> Quiet(ops, hs[|hs| - 1].stop, CONTEXT + 1))
  }

  lemma FoundSkip<T>(ops: seq<Op<T>>, hs: seq<Range>, i: nat)
    requires Found(ops, hs, i) && i < |ops| && !Changed(ops, i)
    ensures Found(ops, hs, i + 1)
  {}

  lemma InsideAppend(hs: seq<Range>, h: Range, p: int)
    ensures Inside(hs + [h], p) <==> Inside(hs, p) || h.start <= p < h.stop
  {
    var all := hs + [h];
    if Inside(hs, p) {
      var k :| 0 <= k < |hs| && hs[k].start <= p < hs[k].stop;
      assert all[k] == hs[k];
    }
    if h.start <= p < h.stop {
      assert all[|hs|] == h;
    }
  }

  /** A new hunk starts clear of the one before it. */
  lemma StartsClear<T>(ops: seq<Op<T>>, hs: seq<Range>, i: nat)
    requires Found(ops, hs, i) && Changed(ops, i)
    ensures hs != [] ==> hs[|hs| - 1].stop < i - CONTEXT
  {}

  lemma FoundHunk<T>(ops: seq<Op<T>>, hs: seq<Range>, i: nat, end: nat, h: Range)
    requires Found(ops, hs, i) && Changed(ops, i)
    requires i < end <= |ops| && Changed(ops, end - 1) && Quiet(ops, end, 2 * CONTEXT + 1)
    requires forall p | i <= p < end :: Near(ops, p)
    requires h.start == (if i < CONTEXT then 0 else i - CONTEXT)
    requires h.stop == (if end + CONTEXT > |ops| then |ops| else end + CONTEXT)
    ensures Found(ops, hs + [h], h.stop)
  {
    var gs := hs + [h];
    StartsClear(ops, hs, i);
    forall p | 0 <= p < |ops|
      ensures Inside(gs, p) <==> Inside(hs, p) || h.start <= p < h.stop
    {
      InsideAppend(hs, h, p);
    }
    forall p | h.start <= p < h.stop
      ensures Near(ops, p)
    {
      assert Changed(ops, i) && Changed(ops, end - 1);
    }
    assert forall q | i <= q < h.stop && Changed(ops, q) :: q < end;
  }

  lemma FoundAll<T>(ops: seq<Op<T>>, hs: seq<Range>)
    requires Found(ops, hs, |ops|)
    ensures AreHunks(ops, hs)
  {}

  /** Prints the hunks of a script, each under a header naming the lines it covers. */
  method WriteHunks(ops: seq<Op<string>>) returns (text: string)
    requires Numbered(ops)
    ensures exists hs :: AreHunks(ops, hs) && Apart(hs, |ops|) && text == PrintHunks(ops, hs)
  {
    hide Numbered, Found, Quiet, PrintHunk, OldStart, NewStart, OldSide, NewSide, PrintLines, PrintLine;
    text := "";
    ghost var hs: seq<Range> := [];
    NothingFound(ops);
    var i := 0;
    while i < |ops|
      invariant Found(ops, hs, i) && i <= |ops| && Apart(hs, |ops|)
      invariant text == PrintHunks(ops, hs)
    {
      if ops[i].kind == Keep {
        FoundSkip(ops, hs, i);
        i := i + 1;
        continue;
      }
      var start := if i < CONTEXT then 0 else i - CONTEXT;
      var end := RunEnd(ops, i);
      var stop := if end + CONTEXT > |ops| then |ops| else end + CONTEXT;
      var h := Range(start, stop);
      FoundHunk(ops, hs, i, end, h);
      var printed := WriteHunk(ops, h);
      text := text + printed;
      ghost var gs := hs + [h];
      assert gs[..|gs| - 1] == hs;
      FoundApart(ops, gs, stop);
      hs := gs;
      i := stop;
    }
    FoundAll(ops, hs);
  }

  method WriteHunk(ops: seq<Op<string>>, h: Range) returns (text: string)
    requires Numbered(ops) && h.start <= h.stop <= |ops|
    ensures text == PrintHunk(ops, h)
  {
    hide Numbered, OldSide, NewSide, OldStart, NewStart, Header, PrintLine, PrintLines;
    var aStart, aCount, bStart, bCount := Count(ops, h);
    text := Header(aStart, aCount, bStart, bCount);
    var k := h.start;
    assert ops[h.start..k] == [];
    PrintNothing();
    while k < h.stop
      invariant h.start <= k <= h.stop
      invariant text == Header(aStart, aCount, bStart, bCount) + PrintLines(ops[h.start..k])
    {
      var line := WriteLine(ops[k]);
      text := text + line;
      PrintLinesAppend(ops[h.start..k], ops[k]);
      assert ops[h.start..k + 1] == ops[h.start..k] + [ops[k]];
      k := k + 1;
    }
  }

  method WriteLine(op: Op<string>) returns (line: string)
    ensures line == PrintLine(op)
  {
    line := op.text;
    if !EndsWithNewline(line) {
      line := line + "\n" + NoNewline();
    }
    line := [Prefix(op.kind)] + line;
  }

  lemma PrintNothing()
    ensures PrintLines([]) == ""
  {}

  lemma NothingFound<T>(ops: seq<Op<T>>)
    ensures Found(ops, [], 0)
  {}

  lemma FoundApart<T>(ops: seq<Op<T>>, hs: seq<Range>, i: nat)
    requires Found(ops, hs, i)
    ensures i <= |ops| && Apart(hs, |ops|)
  {}
}
