/**
  A reader for unified diffs, written from the format's description ("Diff -u or -U Output
  Format" in POSIX.1-2017, diff, STDOUT), and the whole of `Unified`: what it prints, applied to
  the old file, gives the new file.
 */
module Patch {
  import opened Text
  import opened Diff
  import opened Hunks

  datatype Edit<T> = Edit(kind: Kind, text: T)

  datatype Hunk<T> = Hunk(oldStart: nat, oldCount: nat, newStart: nat, newCount: nat, edits: seq<Edit<T>>)

  // Reading

  function Expect(s: string, literal: string): Option<string> {
    if literal <= s then Some(s[|literal|..]) else None
  }

  function KindOf(prefix: char): Option<Kind> {
    if prefix == ' ' then Some(Keep)
    else if prefix == '+' then Some(Add)
    else if prefix == '-' then Some(Del)
    else None
  }

  /** What a reader takes for the note about a missing newline. */
  const NOTE := "\\ No newline at end of file\n"

  /** One hunk line, with the note for a missing final newline folded in. */
  function ReadEdit(s: string): (r: Option<(Edit<string>, string)>)
    ensures r.Some? ==> |r.value.1| < |s|
  {
    if s == "" then None
    else
      var kind :- KindOf(s[0]);
      var k := Index(s, '\n');
      if k == |s| then None
      else if NOTE <= s[k + 1..] then Some((Edit(kind, s[1..k]), s[k + 1..][|NOTE|..]))
      else Some((Edit(kind, s[1..k + 1]), s[k + 1..]))
  }

  /** The lines of a hunk: as many as its header announced for each side. */
  function ReadEdits(s: string, oldLeft: nat, newLeft: nat): Option<(seq<Edit<string>>, string)>
    decreases oldLeft + newLeft
  {
    if oldLeft == 0 && newLeft == 0 then Some(([], s))
    else
      var (edit, rest) :- ReadEdit(s);
      if (edit.kind != Add && oldLeft == 0) || (edit.kind != Del && newLeft == 0) then None
      else
        var (edits, rest') :- ReadEdits(rest, if edit.kind == Add then oldLeft else oldLeft - 1,
                                        if edit.kind == Del then newLeft else newLeft - 1);
        Some(([edit] + edits, rest'))
  }

  function ReadHeader(s: string): Option<((nat, nat), (nat, nat), string)> {
    var s :- Expect(s, "@@ -");
    var (oldStart, s) :- ReadNat(s);
    var s :- Expect(s, ",");
    var (oldCount, s) :- ReadNat(s);
    var s :- Expect(s, " +");
    var (newStart, s) :- ReadNat(s);
    var s :- Expect(s, ",");
    var (newCount, s) :- ReadNat(s);
    var s :- Expect(s, " @@\n");
    Some(((oldStart, oldCount), (newStart, newCount), s))
  }

  function ReadHunk(s: string): Option<(Hunk<string>, string)> {
    var ((oldStart, oldCount), (newStart, newCount), s) :- ReadHeader(s);
    var (edits, s) :- ReadEdits(s, oldCount, newCount);
    Some((Hunk(oldStart, oldCount, newStart, newCount, edits), s))
  }

  function ReadHunks(s: string): Option<seq<Hunk<string>>>
    decreases |s|
  {
    if s == "" then Some([])
    else
      var (hunk, rest) :- ReadHunk(s);
      if |rest| >= |s| then None
      else
        var hunks :- ReadHunks(rest);
        Some([hunk] + hunks)
  }

  /** The text up to the end of the line, and what follows. */
  function ReadName(s: string): Option<(string, string)> {
    var k := Index(s, '\n');
    if k == |s| then None else Some((s[..k], s[k + 1..]))
  }

  /** A line "---" that names the old file, then a line "+++" that names the new one. */
  function ReadFileHeader(s: string): Option<((string, string), string)> {
    var s :- Expect(s, "--- ");
    var (oldName, s) :- ReadName(s);
    var s :- Expect(s, "+++ ");
    var (newName, s) :- ReadName(s);
    Some(((oldName, newName), s))
  }

  /** The names of the two files a diff is about. */
  predicate Names(diff: string, oldName: string, newName: string) {
    var header := ReadFileHeader(diff);
    header.Some? && header.value.0 == (oldName, newName)
  }

  // Applying

  /** Replays edits at line `at`: kept and deleted lines must match the old file. */
  function ApplyEdits<T(==)>(base: seq<T>, at: nat, edits: seq<Edit<T>>): Option<(nat, seq<T>)>
    decreases |edits|
  {
    if edits == [] then Some((at, []))
    else if edits[0].kind == Add then
      var (end, made) :- ApplyEdits(base, at, edits[1..]);
      Some((end, [edits[0].text] + made))
    else if at >= |base| || base[at] != edits[0].text then None
    else
      var (end, made) :- ApplyEdits(base, at + 1, edits[1..]);
      Some((end, if edits[0].kind == Keep then [edits[0].text] + made else made))
  }

  /** How many lines precede a hunk: an empty side is numbered by the line before it. */
  function Before(start: nat, count: nat): int {
    if count == 0 then start else start - 1
  }

  /** Applies hunks from old line `at`, where `made` new lines have been produced already. */
  function ApplyHunks<T(==)>(base: seq<T>, at: nat, made: nat, hunks: seq<Hunk<T>>): Option<seq<T>>
    requires at <= |base|
    decreases |hunks|
  {
    if hunks == [] then Some(base[at..])
    else
      var h := hunks[0];
      var from := Before(h.oldStart, h.oldCount);
      if !(at <= from <= |base|) || Before(h.newStart, h.newCount) != made + (from - at) then None
      else
        var (end, lines) :- ApplyEdits(base, from, h.edits);
        if end > |base| then None
        else
          var rest :- ApplyHunks(base, end, made + (from - at) + |lines|, hunks[1..]);
          Some(base[at..from] + lines + rest)
  }

  // What the hunk writer printed is read back

  function EditOf<T>(op: Op<T>): Edit<T> {
    Edit(op.kind, op.text)
  }

  function EditsOf<T>(ops: seq<Op<T>>): seq<Edit<T>> {
    if |ops| == 0 then [] else [EditOf(ops[0])] + EditsOf(ops[1..])
  }

  function HunkOfRange<T(==)>(ops: seq<Op<T>>, h: Range): Hunk<T>
    requires h.start <= h.stop <= |ops|
  {
    var shown := ops[h.start..h.stop];
    Hunk(OldStart(ops, h), |OldSide(shown)|, NewStart(ops, h), |NewSide(shown)|, EditsOf(shown))
  }

  /** Every entry's text is a line of some file. */
  ghost predicate HoldLines(ops: seq<Op<string>>) {
    forall k | 0 <= k < |ops| :: IsLine(ops[k].text)
  }

  lemma ReadsHeader(oldStart: nat, oldCount: nat, newStart: nat, newCount: nat, rest: string)
    ensures ReadHeader(Header(oldStart, oldCount, newStart, newCount) + rest)
         == Some(((oldStart, oldCount), (newStart, newCount), rest))
  {
    hide Decimal, ReadNat;
    var s9 := " @@\n" + rest;
    var s8 := Decimal(newCount) + s9;
    var s7 := "," + s8;
    var s6 := Decimal(newStart) + s7;
    var s5 := " +" + s6;
    var s4 := Decimal(oldCount) + s5;
    var s3 := "," + s4;
    var s2 := Decimal(oldStart) + s3;
    var s1 := "@@ -" + s2;
    assert Header(oldStart, oldCount, newStart, newCount) + rest == s1;
    ReadsDecimal(oldStart, s3);
    ReadsDecimal(oldCount, s5);
    ReadsDecimal(newStart, s7);
    ReadsDecimal(newCount, s9);
    Expects("@@ -", s2);
    Expects(",", s4);
    Expects(" +", s6);
    Expects(",", s8);
    Expects(" @@\n", rest);
  }

  lemma Expects(literal: string, rest: string)
    ensures Expect(literal + rest, literal) == Some(rest)
  {}

  lemma CutsAtNewline(prefix: char, body: string, tail: string, s: string)
    requires prefix != '\n' && '\n' !in body
    requires s == [prefix] + body + "\n" + tail
    ensures Index(s, '\n') == |body| + 1 < |s|
    ensures s[0] == prefix && s[1..|body| + 1] == body && s[1..|body| + 2] == body + "\n"
    ensures s[|body| + 2..] == tail
  {
    assert s[..|body| + 1] == [prefix] + body;
    IndexIs(s, '\n', |body| + 1);
  }

  lemma NotesOnly(rest: string)
    ensures NOTE <= NoNewline() + rest && (NoNewline() + rest)[|NOTE|..] == rest
    ensures rest == "" || rest[0] != '\\' ==> !(NOTE <= rest)
  {}

  /** How a printed line followed by `rest` falls apart at its newline. */
  lemma PrintedLine(op: Op<string>, rest: string) returns (body: string, tail: string)
    requires IsLine(op.text)
    ensures '\n' !in body && PrintLine(op) + rest == [Prefix(op.kind)] + body + "\n" + tail
    ensures if EndsWithNewline(op.text) then op.text == body + "\n" && tail == rest
            else op.text == body && tail == NoNewline() + rest
  {
    hide NoNewline;
    var text := op.text;
    var init, last := text[..|text| - 1], text[|text| - 1];
    assert text == init + [last];
    if last == '\n' {
      body, tail := init, rest;
      Regroup([Prefix(op.kind)], init, "\n", [], rest);
      assert init + "\n" + [] == text;
    } else {
      body, tail := text, NoNewline() + rest;
      Regroup([Prefix(op.kind)], text, "\n", NoNewline(), rest);
    }
  }

  lemma Regroup<T>(a: seq<T>, b: seq<T>, c: seq<T>, d: seq<T>, e: seq<T>)
    ensures a + (b + c + d) + e == a + b + c + (d + e)
  {}

  /** A printed line is read back, provided no stray newline note follows it. */
  lemma ReadsLine(op: Op<string>, rest: string)
    requires IsLine(op.text)
    requires rest == "" || rest[0] != '\\'
    ensures ReadEdit(PrintLine(op) + rest) == Some((EditOf(op), rest))
  {
    NotesOnly(rest);
    hide Index, NoNewline, PrintLine, EndsWithNewline, IsLine;
    var body, tail := PrintedLine(op, rest);
    CutsAtNewline(Prefix(op.kind), body, tail, PrintLine(op) + rest);
  }

  lemma PrintLineShape(op: Op<string>)
    ensures PrintLine(op) != "" && PrintLine(op)[0] != '\\'
  {}

  /** Reading one edit more at the front. */
  lemma ReadsFirst(s: string, edit: Edit<string>, after: string, edits: seq<Edit<string>>, rest: string,
                   oldCount: nat, newCount: nat)
    requires ReadEdit(s) == Some((edit, after))
    requires edit.kind != Add ==> oldCount > 0
    requires edit.kind != Del ==> newCount > 0
    requires ReadEdits(after, if edit.kind == Add then oldCount else oldCount - 1,
                       if edit.kind == Del then newCount else newCount - 1) == Some((edits, rest))
    ensures ReadEdits(s, oldCount, newCount) == Some(([edit] + edits, rest))
  {
    hide ReadEdit;
  }

  lemma PrintsFirst(ops: seq<Op<string>>, rest: string)
    requires ops != []
    ensures PrintLines(ops) + rest == PrintLine(ops[0]) + (PrintLines(ops[1..]) + rest)
    ensures ops[1..] != [] ==> (PrintLines(ops[1..]) + rest)[0] == PrintLine(ops[1])[0] || PrintLine(ops[1]) == ""
    ensures ops[1..] == [] ==> PrintLines(ops[1..]) + rest == rest
  {
    Assoc(PrintLine(ops[0]), PrintLines(ops[1..]), rest);
    hide PrintLine;
  }

  /** What follows a printed line is no note about a missing newline. */
  lemma NoNoteFollows(ops: seq<Op<string>>, rest: string)
    requires rest == "" || rest[0] != '\\'
    ensures var after := PrintLines(ops) + rest; after == "" || after[0] != '\\'
  {
    if ops == [] {
      assert PrintLines(ops) + rest == rest;
    } else {
      PrintsFirst(ops, rest);
      PrintLineShape(ops[0]);
      hide PrintLine, PrintLines;
    }
  }

  /** A stretch's first entry and the rest. */
  lemma HeadAndTail(ops: seq<Op<string>>)
    requires ops != [] && HoldLines(ops)
    ensures IsLine(ops[0].text) && HoldLines(ops[1..])
    ensures EditsOf(ops) == [EditOf(ops[0])] + EditsOf(ops[1..]) && EditOf(ops[0]).kind == ops[0].kind
    ensures |OldSide(ops)| == |OldSide(ops[1..])| + if ops[0].kind == Add then 0 else 1
    ensures |NewSide(ops)| == |NewSide(ops[1..])| + if ops[0].kind == Del then 0 else 1
  {
    FirstSides(ops);
    hide OldSide, NewSide, IsLine;
  }

  /** The printed lines of a stretch are read back, and reading stops exactly at its end. */
  lemma {:induction false} ReadsLines(ops: seq<Op<string>>, rest: string, oldCount: nat, newCount: nat)
    requires HoldLines(ops) && (rest == "" || rest[0] != '\\')
    requires oldCount == |OldSide(ops)| && newCount == |NewSide(ops)|
    ensures ReadEdits(PrintLines(ops) + rest, oldCount, newCount) == Some((EditsOf(ops), rest))
    decreases |ops|
  {
    if ops == [] {
      SidesOfNothing(ops);
      assert PrintLines(ops) + rest == rest;
    } else {
      hide PrintLine, PrintLines, ReadEdit, ReadEdits, OldSide, NewSide, EditsOf, HoldLines, IsLine, EditOf;
      var first, tail := ops[0], ops[1..];
      HeadAndTail(ops);
      ReadsLines(tail, rest, |OldSide(tail)|, |NewSide(tail)|);
      NoNoteFollows(tail, rest);
      ReadsLine(first, PrintLines(tail) + rest);
      PrintsFirst(ops, rest);
      ReadsFirst(PrintLines(ops) + rest, EditOf(first), PrintLines(tail) + rest, EditsOf(tail), rest,
                 oldCount, newCount);
    }
  }

  /** How the first entry contributes to both sides. */
  lemma FirstSides<T>(ops: seq<Op<T>>)
    requires ops != []
    ensures OldSide(ops) == if ops[0].kind == Add then OldSide(ops[1..]) else [ops[0].text] + OldSide(ops[1..])
    ensures NewSide(ops) == if ops[0].kind == Del then NewSide(ops[1..]) else [ops[0].text] + NewSide(ops[1..])
  {
    hide OldSide, NewSide;
    assert ops == ops[..1] + ops[1..];
    OldSideOfConcat(ops[..1], ops[1..]);
    NewSideOfConcat(ops[..1], ops[1..]);
    assert ops[..1] == [] + [ops[0]];
    AppendSides<T>([], ops[0]);
    SidesOfNothing<T>([]);
  }

  lemma Assoc<T>(a: seq<T>, b: seq<T>, c: seq<T>)
    ensures a + b + c == a + (b + c)
  {}

  lemma ApartInit(hs: seq<Range>, limit: nat)
    requires hs != [] && Apart(hs, limit)
    ensures Apart(hs[..|hs| - 1], limit)
  {}

  lemma ApartTail(hs: seq<Range>, limit: nat)
    requires hs != [] && Apart(hs, limit)
    ensures Apart(hs[1..], limit)
  {}

  lemma {:induction false} PrintHunksFirst(ops: seq<Op<string>>, hs: seq<Range>)
    requires hs != [] && Apart(hs, |ops|) && Apart(hs[1..], |ops|)
    ensures PrintHunks(ops, hs) == PrintHunk(ops, hs[0]) + PrintHunks(ops, hs[1..])
  {
    hide PrintHunk;
    if |hs| == 1 {
      assert hs[..0] == [] && hs[1..] == [];
    } else {
      var init, last := hs[..|hs| - 1], hs[|hs| - 1];
      ApartInit(hs, |ops|);
      ApartInit(hs[1..], |ops|);
      ApartTail(init, |ops|);
      hide Apart;
      PrintHunksFirst(ops, init);
      assert hs[1..][..|hs| - 2] == init[1..];
      Assoc(PrintHunk(ops, hs[0]), PrintHunks(ops, init[1..]), PrintHunk(ops, last));
    }
  }

  function HunksOf<T(==)>(ops: seq<Op<T>>, hs: seq<Range>): seq<Hunk<T>>
    requires forall k | 0 <= k < |hs| :: hs[k].start <= hs[k].stop <= |ops|
  {
    if hs == [] then [] else [HunkOfRange(ops, hs[0])] + HunksOf(ops, hs[1..])
  }

  lemma ReadsHunk(ops: seq<Op<string>>, h: Range, rest: string)
    requires h.start <= h.stop <= |ops| && HoldLines(ops)
    requires rest == "" || rest[0] != '\\'
    ensures ReadHunk(PrintHunk(ops, h) + rest) == Some((HunkOfRange(ops, h), rest))
    ensures |PrintHunk(ops, h)| > 0 && PrintHunk(ops, h)[0] == '@'
  {
    hide ReadHeader, ReadEdits, PrintLines, OldSide, NewSide, OldStart, NewStart, EditsOf, Decimal;
    var shown := ops[h.start..h.stop];
    var header := Header(OldStart(ops, h), |OldSide(shown)|, NewStart(ops, h), |NewSide(shown)|);
    assert PrintHunk(ops, h) + rest == header + (PrintLines(shown) + rest);
    ReadsHeader(OldStart(ops, h), |OldSide(shown)|, NewStart(ops, h), |NewSide(shown)|,
                PrintLines(shown) + rest);
    ReadsLines(shown, rest, |OldSide(shown)|, |NewSide(shown)|);
  }

  /** Printed hunks are read back hunk by hunk. */
  lemma {:induction false} ReadsHunks(ops: seq<Op<string>>, hs: seq<Range>)
    requires Apart(hs, |ops|) && HoldLines(ops)
    ensures ReadHunks(PrintHunks(ops, hs)) == Some(HunksOf(ops, hs))
    ensures PrintHunks(ops, hs) == "" || PrintHunks(ops, hs)[0] == '@'
    decreases |hs|
  {
    if hs != [] {
      hide ReadHunk, PrintHunk, HunkOfRange;
      PrintHunksFirst(ops, hs);
      ReadsHunks(ops, hs[1..]);
      ReadsHunk(ops, hs[0], PrintHunks(ops, hs[1..]));
    }
  }

  // What was read back applies

  lemma ShownChanges<T>(ops: seq<Op<T>>, h: Range, p: nat)
    requires h.start <= p < h.stop <= |ops|
    requires OldSide(ops[h.start..h.stop]) == [] || NewSide(ops[h.start..h.stop]) == []
    ensures Changed(ops, p)
  {
    hide OldSide, NewSide;
    assert ops[p] == ops[h.start..h.stop][p - h.start];
    EmptySide(ops[h.start..h.stop], p - h.start);
  }

  /** A hunk that shows no line of one side shows the whole script, and that side is empty. */
  lemma EmptySideMeansEmptyFile<T>(ops: seq<Op<T>>, hs: seq<Range>, k: nat)
    requires AreHunks(ops, hs) && k < |hs|
    ensures OldSide(ops[hs[k].start..hs[k].stop]) == [] ==>
      hs[k].start == 0 && hs[k].stop == |ops| && OldSide(ops) == []
    ensures NewSide(ops[hs[k].start..hs[k].stop]) == [] ==>
      hs[k].start == 0 && hs[k].stop == |ops| && NewSide(ops) == []
  {
    AreHunksInBounds(ops, hs);
    hide OldSide, NewSide, AreHunks, Changed;
    var h := hs[k];
    if OldSide(ops[h.start..h.stop]) == [] || NewSide(ops[h.start..h.stop]) == [] {
      forall p | h.start <= p < h.stop ensures Changed(ops, p) {
        ShownChanges(ops, h, p);
      }
      AllChanged(ops, hs, k);
      assert ops[0..|ops|] == ops;
    }
  }

  lemma {:induction false} EmptySide<T>(ops: seq<Op<T>>, k: nat)
    requires k < |ops|
    ensures OldSide(ops) == [] ==> ops[k].kind == Add
    ensures NewSide(ops) == [] ==> ops[k].kind == Del
  {
    if k < |ops| - 1 {
      EmptySide(ops[..|ops| - 1], k);
    }
  }

  /** A hunk without a kept line is the whole script. */
  lemma AllChanged<T>(ops: seq<Op<T>>, hs: seq<Range>, k: nat)
    requires AreHunks(ops, hs) && k < |hs|
    requires forall p | hs[k].start <= p < hs[k].stop :: Changed(ops, p)
    ensures hs[k].start == 0 && hs[k].stop == |ops|
  {
    if hs[k].start > 0 {
      StartsWithContext(ops, hs, k);
    }
    if hs[k].stop < |ops| {
      EndsWithContext(ops, hs, k);
    }
  }

  /** Unless it starts the script, a hunk starts with a kept line. */
  lemma StartsWithContext<T>(ops: seq<Op<T>>, hs: seq<Range>, k: nat)
    requires AreHunks(ops, hs) && k < |hs| && hs[k].start > 0
    ensures !Changed(ops, hs[k].start)
  {
    var p: int := hs[k].start;
    GapsAreOutside(hs, |ops|, k, p - 1);
    assert Changed(ops, p) ==> Near(ops, p - 1);
  }

  /** Unless it ends the script, a hunk ends with a kept line. */
  lemma EndsWithContext<T>(ops: seq<Op<T>>, hs: seq<Range>, k: nat)
    requires AreHunks(ops, hs) && k < |hs| && hs[k].stop < |ops|
    ensures !Changed(ops, hs[k].stop - 1)
  {
    var p := hs[k].stop - 1;
    GapsAreOutside(hs, |ops|, k + 1, p + 1);
    assert Changed(ops, p) ==> Near(ops, p + 1);
  }

  /** Between hunks nothing changes. */
  lemma QuietBetween<T>(ops: seq<Op<T>>, hs: seq<Range>, k: nat, q: nat)
    requires AreHunks(ops, hs) && k <= |hs| && q < |ops|
    requires k > 0 ==> hs[k - 1].stop <= q
    requires k < |hs| ==> q < hs[k].start
    ensures ops[q].kind == Keep
  {
    GapsAreOutside(hs, |ops|, k, q);
    assert Changed(ops, q) ==> Near(ops, q);
  }

  lemma {:induction false} KeptSidesAgree<T>(ops: seq<Op<T>>)
    requires forall k | 0 <= k < |ops| :: ops[k].kind == Keep
    ensures OldSide(ops) == NewSide(ops)
  {
    if ops != [] {
      KeptSidesAgree(ops[..|ops| - 1]);
    }
  }

  lemma FirstEdit<T>(ops: seq<Op<T>>)
    requires |ops| > 0
    ensures |EditsOf(ops)| > 0 && EditsOf(ops)[0] == EditOf(ops[0]) && EditsOf(ops)[1..] == EditsOf(ops[1..])
  {}

  lemma SliceStep<T>(base: seq<T>, at: nat, x: T, xs: seq<T>)
    requires at + 1 + |xs| <= |base| && base[at..at + 1 + |xs|] == [x] + xs
    ensures base[at] == x && base[at + 1..at + 1 + |xs|] == xs
  {
    var shown := base[at..at + 1 + |xs|];
    assert base[at] == shown[0];
    assert base[at + 1..at + 1 + |xs|] == shown[1..];
  }

  /** Applying one edit more at the front. */
  lemma AppliesFirst<T>(base: seq<T>, at: nat, edits: seq<Edit<T>>, end: nat, made: seq<T>)
    requires edits != []
    requires edits[0].kind != Add ==> at < |base| && base[at] == edits[0].text
    requires ApplyEdits(base, if edits[0].kind == Add then at else at + 1, edits[1..]) == Some((end, made))
    ensures ApplyEdits(base, at, edits) == Some((end, if edits[0].kind == Del then made else [edits[0].text] + made))
  {}

  /** Replaying a stretch over its own old lines makes its new lines. */
  lemma {:induction false} ReplaysEdits<T>(base: seq<T>, at: nat, ops: seq<Op<T>>)
    requires at + |OldSide(ops)| <= |base| && base[at..at + |OldSide(ops)|] == OldSide(ops)
    ensures ApplyEdits(base, at, EditsOf(ops)) == Some((at + |OldSide(ops)|, NewSide(ops)))
    decreases |ops|
  {
    if |ops| == 0 {
      SidesOfNothing(ops);
    } else {
      var tail := ops[1..];
      FirstEdit(ops);
      hide OldSide, NewSide, EditsOf, ApplyEdits;
      FirstSides(ops);
      if ops[0].kind == Add {
        ReplaysEdits(base, at, tail);
      } else {
        SliceStep(base, at, ops[0].text, OldSide(tail));
        ReplaysEdits(base, at + 1, tail);
      }
      AppliesFirst(base, at, EditsOf(ops), at + |OldSide(ops)|, NewSide(tail));
    }
  }

  /** The lines of a side before, in and after a stretch. */
  lemma OldSplit<T>(ops: seq<Op<T>>, p: nat, q: nat)
    requires p <= q <= |ops|
    ensures OldSide(ops[p..]) == OldSide(ops[p..q]) + OldSide(ops[q..])
    ensures |OldSide(ops[..q])| == |OldSide(ops[..p])| + |OldSide(ops[p..q])|
    ensures OldSide(ops) == OldSide(ops[..p]) + OldSide(ops[p..])
  {
    hide OldSide;
    assert ops[p..] == ops[p..q] + ops[q..] && ops[..q] == ops[..p] + ops[p..q] && ops == ops[..p] + ops[p..];
    OldSideOfConcat(ops[p..q], ops[q..]);
    OldSideOfConcat(ops[..p], ops[p..q]);
    OldSideOfConcat(ops[..p], ops[p..]);
  }

  lemma NewSplit<T>(ops: seq<Op<T>>, p: nat, q: nat)
    requires p <= q <= |ops|
    ensures NewSide(ops[p..]) == NewSide(ops[p..q]) + NewSide(ops[q..])
    ensures |NewSide(ops[..q])| == |NewSide(ops[..p])| + |NewSide(ops[p..q])|
  {
    hide NewSide;
    assert ops[p..] == ops[p..q] + ops[q..] && ops[..q] == ops[..p] + ops[p..q];
    NewSideOfConcat(ops[p..q], ops[q..]);
    NewSideOfConcat(ops[..p], ops[p..q]);
  }

  /** Where the part of the script not covered by the first `k` hunks begins. */
  function Resume(hs: seq<Range>, k: nat): nat
    requires k <= |hs|
  {
    if k == 0 then 0 else hs[k - 1].stop
  }

  /** The number printed for a hunk's side says how many lines of that side precede the hunk. */
  lemma BeforeHunk<T>(ops: seq<Op<T>>, hs: seq<Range>, k: nat)
    requires AreHunks(ops, hs) && k < |hs|
    ensures Before(OldStart(ops, hs[k]), |OldSide(ops[hs[k].start..hs[k].stop])|) == |OldSide(ops[..hs[k].start])|
    ensures Before(NewStart(ops, hs[k]), |NewSide(ops[hs[k].start..hs[k].stop])|) == |NewSide(ops[..hs[k].start])|
  {
    hide AreHunks;
    EmptySideMeansEmptyFile(ops, hs, k);
  }

  /** The lines kept between two hunks are the same on both sides. */
  lemma GapSides<T>(ops: seq<Op<T>>, hs: seq<Range>, k: nat)
    requires AreHunks(ops, hs) && k <= |hs|
    ensures Resume(hs, k) <= |ops|
    ensures
      var stop := if k < |hs| then hs[k].start else |ops|;
      Resume(hs, k) <= stop <= |ops| &&
      OldSide(ops[Resume(hs, k)..stop]) == NewSide(ops[Resume(hs, k)..stop])
  {
    hide OldSide, NewSide;
    var p, stop := Resume(hs, k), if k < |hs| then hs[k].start else |ops|;
    forall q | p <= q < stop
      ensures ops[q].kind == Keep
    {
      QuietBetween(ops, hs, k, q);
    }
    KeptSidesAgree(ops[p..stop]);
  }

  /** One hunk: where its lines sit in the old file, and what replaying it makes. */
  lemma ReplaysHunk<T>(ops: seq<Op<T>>, hs: seq<Range>, k: nat)
    requires AreHunks(ops, hs) && k < |hs|
    ensures Resume(hs, k) <= hs[k].start <= hs[k].stop <= |ops|
    ensures
      var base, p, h := OldSide(ops), Resume(hs, k), hs[k];
      var at, from, end := |OldSide(ops[..p])|, |OldSide(ops[..h.start])|, |OldSide(ops[..h.stop])|;
      && at <= from <= end <= |base|
      && |NewSide(ops[..h.start])| == |NewSide(ops[..p])| + (from - at)
      && |NewSide(ops[..h.stop])| == |NewSide(ops[..h.start])| + |NewSide(ops[h.start..h.stop])|
      && ApplyEdits(base, from, EditsOf(ops[h.start..h.stop])) == Some((end, NewSide(ops[h.start..h.stop])))
      && base[at..from] + NewSide(ops[h.start..h.stop]) + NewSide(ops[h.stop..]) == NewSide(ops[p..])
  {
    GapSides(ops, hs, k);
    ReplaysStretch(ops, Resume(hs, k), hs[k].start, hs[k].stop);
  }

  lemma ReplaysStretch<T>(ops: seq<Op<T>>, p: nat, start: nat, stop: nat)
    requires p <= start <= stop <= |ops|
    requires OldSide(ops[p..start]) == NewSide(ops[p..start])
    ensures
      var base := OldSide(ops);
      var at, from, end := |OldSide(ops[..p])|, |OldSide(ops[..start])|, |OldSide(ops[..stop])|;
      && at <= from <= end <= |base|
      && |NewSide(ops[..start])| == |NewSide(ops[..p])| + (from - at)
      && |NewSide(ops[..stop])| == |NewSide(ops[..start])| + |NewSide(ops[start..stop])|
      && ApplyEdits(base, from, EditsOf(ops[start..stop])) == Some((end, NewSide(ops[start..stop])))
      && base[at..from] + NewSide(ops[start..stop]) + NewSide(ops[stop..]) == NewSide(ops[p..])
  {
    hide OldSide, NewSide, ApplyEdits, EditsOf;
    var base, from := OldSide(ops), |OldSide(ops[..start])|;
    OldSplit(ops, p, start);
    NewSplit(ops, p, start);
    OldSplit(ops, start, stop);
    NewSplit(ops, start, stop);
    assert base[|OldSide(ops[..p])|..from] == OldSide(ops[p..start]);
    assert base[from..from + |OldSide(ops[start..stop])|] == OldSide(ops[start..stop]);
    ReplaysEdits(base, from, ops[start..stop]);
    assert NewSide(ops[p..start]) + NewSide(ops[start..stop]) + NewSide(ops[stop..])
        == NewSide(ops[p..start]) + (NewSide(ops[start..stop]) + NewSide(ops[stop..]));
  }

  /** Applying the remaining hunks where the first `k` left off makes the rest of the new file. */
  lemma {:induction false} ReplaysHunks<T>(ops: seq<Op<T>>, hs: seq<Range>, k: nat)
    requires AreHunks(ops, hs) && k <= |hs|
    ensures Resume(hs, k) <= |ops| && |OldSide(ops[..Resume(hs, k)])| <= |OldSide(ops)|
    ensures
      ApplyHunks(OldSide(ops), |OldSide(ops[..Resume(hs, k)])|, |NewSide(ops[..Resume(hs, k)])|, HunksOf(ops, hs[k..]))
      == Some(NewSide(ops[Resume(hs, k)..]))
    decreases |hs| - k
  {
    hide OldSide, NewSide, AreHunks, OldStart, NewStart, ApplyEdits, EditsOf;
    var p := Resume(hs, k);
    GapSides(ops, hs, k);
    var base, at := OldSide(ops), |OldSide(ops[..p])|;
    if k == |hs| {
      OldSplit(ops, p, |ops|);
      assert base[at..] == OldSide(ops[p..]);
      assert ops[p..|ops|] == ops[p..];
    } else {
      ReplaysHunk(ops, hs, k);
      BeforeHunk(ops, hs, k);
      AreHunksInBounds(ops, hs);
      HunksOfFirst(ops, hs, k);
      ReplaysHunks(ops, hs, k + 1);
    }
  }

  lemma HunksOfFirst<T>(ops: seq<Op<T>>, hs: seq<Range>, k: nat)
    requires k < |hs| && forall j | 0 <= j < |hs| :: hs[j].start <= hs[j].stop <= |ops|
    ensures HunksOf(ops, hs[k..])[0] == HunkOfRange(ops, hs[k])
    ensures HunksOf(ops, hs[k..])[1..] == HunksOf(ops, hs[k + 1..])
  {
    assert hs[k..][1..] == hs[k + 1..];
  }

  lemma AreHunksInBounds<T>(ops: seq<Op<T>>, hs: seq<Range>)
    requires AreHunks(ops, hs)
    ensures forall j | 0 <= j < |hs| :: hs[j].start <= hs[j].stop <= |ops|
  {}

  // The whole diff of a file

  const MAX_DIFF_INPUT := 524288
  const MAX_DIFF_BYTES := 131072

  function FileHeader(path: string): string {
    "--- a/" + path + "\n+++ b/" + path + "\n"
  }

  function TruncationNote(): string {
    "\n\U{e2}\U{80}\U{a6} diff truncated\n"
  }

  /** Applies the diff of one file to its old text; an empty diff changes nothing. */
  function ApplyDiff(diff: string, before: string): Option<string> {
    if diff == "" then Some(before)
    else
      var (_, body) :- ReadFileHeader(diff);
      var hunks :- ReadHunks(body);
      var lines :- ApplyHunks(SplitLines(before), 0, 0, hunks);
      Some(Join(lines))
  }

  function CountNewlines(s: string): nat {
    if s == "" then 0 else (if s[0] == '\n' then 1 else 0) + CountNewlines(s[1..])
  }

  function CountLines(s: string): nat {
    if s == "" then 0 else CountNewlines(s) + if EndsWithNewline(s) then 0 else 1
  }

  lemma {:induction false} CountNewlinesOfConcat(x: string, y: string)
    ensures CountNewlines(x + y) == CountNewlines(x) + CountNewlines(y)
  {
    if x == "" {
      assert x + y == y;
    } else {
      CountNewlinesOfConcat(x[1..], y);
      assert (x + y)[1..] == x[1..] + y;
    }
  }

  lemma {:induction false} NoNewlines(s: string)
    requires '\n' !in s
    ensures CountNewlines(s) == 0
  {
    if s != "" {
      NoNewlines(s[1..]);
    }
  }

  /** A line has a newline only if it ends with one. */
  lemma NewlinesOfLine(line: string)
    requires IsLine(line)
    ensures CountNewlines(line) == if EndsWithNewline(line) then 1 else 0
  {
    var init, last := line[..|line| - 1], line[|line| - 1];
    assert line == init + [last];
    CountNewlinesOfConcat(init, [last]);
    NoNewlines(init);
    assert [last][1..] == "";
  }

  /** What follows a line decides how the text ends. */
  lemma CountLinesOfConcat(first: string, rest: string)
    requires IsLine(first) && (rest != "" ==> EndsWithNewline(first))
    ensures CountLines(first + rest) == 1 + CountLines(rest)
  {
    CountNewlinesOfConcat(first, rest);
    NewlinesOfLine(first);
    hide CountNewlines, IsLine;
    assert EndsWithNewline(first + rest) == if rest == "" then EndsWithNewline(first) else EndsWithNewline(rest);
    NoNewlines("");
  }

  /** Counting newlines counts the lines that splitting would give. */
  lemma {:induction false} CountLinesIsExact(s: string)
    ensures CountLines(s) == |SplitLines(s)|
    decreases |s|
  {
    if s == "" {
      EmptySplit(s);
    } else {
      hide SplitLines, CountLines, IsLine, EndsWithNewline;
      var first, rest := FirstLine(s);
      SplitFirst(first, rest);
      CountLinesIsExact(rest);
      CountLinesOfConcat(first, rest);
    }
  }

  /** Every entry's text appears on one of the script's sides. */
  lemma {:induction false} TextOnASide<T>(ops: seq<Op<T>>, k: nat)
    requires k < |ops|
    ensures ops[k].text in OldSide(ops) || ops[k].text in NewSide(ops)
  {
    if k < |ops| - 1 {
      TextOnASide(ops[..|ops| - 1], k);
    }
  }

  /** A script between two texts holds their lines. */
  lemma ScriptsHoldLines(ops: seq<Op<string>>)
    requires forall line | line in OldSide(ops) || line in NewSide(ops) :: IsLine(line)
    ensures HoldLines(ops)
  {
    hide OldSide, NewSide, IsLine;
    forall k | 0 <= k < |ops|
      ensures IsLine(ops[k].text)
    {
      TextOnASide(ops, k);
    }
  }

  lemma {:induction false} LinesAreLines(lines: seq<string>)
    requires AreLines(lines)
    ensures forall line | line in lines :: IsLine(line)
  {
    if lines != [] {
      LinesAreLines(lines[1..]);
      assert forall line | line in lines :: line == lines[0] || line in lines[1..];
    }
  }

  lemma ReadsName(name: string, rest: string)
    requires '\n' !in name
    ensures ReadName(name + "\n" + rest) == Some((name, rest))
  {
    var s := name + "\n" + rest;
    assert s[..|name|] == name && s[|name| + 1..] == rest;
    IndexIs(s, '\n', |name|);
  }

  /** A printed header is read back, unless the path has a newline in it: then no reader finds its name. */
  lemma ReadsFileHeader(path: string, rest: string)
    ensures Names(FileHeader(path) + rest, "a/" + path, "b/" + path) <==> '\n' !in path
    ensures '\n' !in path ==> ReadFileHeader(FileHeader(path) + rest) == Some((("a/" + path, "b/" + path), rest))
  {
    hide ReadFileHeader, FileHeader;
    if '\n' in path {
      NamesAreLines(FileHeader(path) + rest, "a/" + path, "b/" + path);
      assert ("a/" + path)[2..] == path;
    } else {
      ReadsNames("a/" + path, "b/" + path, rest);
      HeaderIs(path, rest);
    }
  }

  lemma HeaderIs(path: string, rest: string)
    ensures FileHeader(path) + rest == "--- " + (("a/" + path) + "\n" + ("+++ " + (("b/" + path) + "\n" + rest)))
  {
    assert "--- a/" == "--- " + "a/" && "\n+++ b/" == "\n" + ("+++ " + "b/");
    assert FileHeader(path) == "--- " + "a/" + path + ("\n" + ("+++ " + "b/")) + path + "\n";
    hide *;
    Regrouped("--- ", "a/", path, "\n", "+++ ", "b/", rest);
  }

  lemma Regrouped<T>(a: seq<T>, b: seq<T>, p: seq<T>, n: seq<T>, c: seq<T>, d: seq<T>, r: seq<T>)
    ensures a + b + p + (n + (c + d)) + p + n + r == a + ((b + p) + n + (c + ((d + p) + n + r)))
  {
    Assoc(a, b, p);
    Assoc(n, c + d, p + n + r);
    Assoc(c, d, p + n + r);
    Assoc(d, p, n + r);
    Assoc(p, n, r);
    Assoc(d + p, n, r);
    Assoc(a + (b + p), n + (c + d), p + n + r);
    Assoc(a + b + p + (n + (c + d)), p, n);
    Assoc(a + b + p + (n + (c + d)), p + n, r);
    Assoc(b + p, n, c + ((d + p) + n + r));
    Assoc(a, b + p, n + (c + ((d + p) + n + r)));
  }

  lemma NamesAreLines(diff: string, oldName: string, newName: string)
    ensures Names(diff, oldName, newName) ==> '\n' !in oldName && '\n' !in newName
  {}

  lemma ReadsNames(oldName: string, newName: string, rest: string)
    requires '\n' !in oldName && '\n' !in newName
    ensures ReadFileHeader("--- " + (oldName + "\n" + ("+++ " + (newName + "\n" + rest))))
         == Some(((oldName, newName), rest))
  {
    hide ReadName;
    var s3 := newName + "\n" + rest;
    var s1 := oldName + "\n" + ("+++ " + s3);
    Expects("--- ", s1);
    ReadsName(oldName, "+++ " + s3);
    Expects("+++ ", s3);
    ReadsName(newName, rest);
  }

  /**
    The printed hunks of a script between two texts, under a header: the file's names are read back,
    and the hunks, applied to the first text, give the second.
   */
  lemma PrintedDiffApplies(path: string, before: string, after: string, ops: seq<Op<string>>, hs: seq<Range>)
    requires Transforms(ops, SplitLines(before), SplitLines(after)) && AreHunks(ops, hs) && Apart(hs, |ops|)
    ensures IsDiff(path, before, after, FileHeader(path) + PrintHunks(ops, hs))
  {
    hide SplitLines, AreHunks, PrintHunks, Join, ReadHunks, ApplyHunks, IsLine, ReadFileHeader;
    SplitThenJoin(before);
    SplitThenJoin(after);
    LinesAreLines(SplitLines(before));
    LinesAreLines(SplitLines(after));
    ScriptsHoldLines(ops);
    ReadsHunks(ops, hs);
    ReplaysHunks(ops, hs, 0);
    assert ops[..0] == [] && ops[0..] == ops && hs[0..] == hs;
    ReadsFileHeader(path, PrintHunks(ops, hs));
  }

  /** A diff that names the file on both sides and turns one text into the other, if the path is on one line. */
  predicate IsDiff(path: string, before: string, after: string, diff: string) {
    && diff != "" && (Names(diff, "a/" + path, "b/" + path) <==> '\n' !in path)
    && ('\n' !in path ==> ApplyDiff(diff, before) == Some(after))
  }

  /** A script that adds and deletes this many lines, and no script changes fewer. */
  ghost predicate FewestChanges(before: string, after: string, additions: nat, deletions: nat) {
    && (exists ops :: Transforms(ops, SplitLines(before), SplitLines(after))
          && CountKind(ops, Add) == additions && CountKind(ops, Del) == deletions)
    && (forall ops :: Transforms(ops, SplitLines(before), SplitLines(after))
          ==> additions + deletions <= Changes(ops))
  }

  lemma FewestFrom(before: string, after: string, ops: seq<Op<string>>)
    requires Transforms(ops, SplitLines(before), SplitLines(after))
    requires Minimal(ops, SplitLines(before), SplitLines(after))
    ensures FewestChanges(before, after, CountKind(ops, Add), CountKind(ops, Del))
  {
    hide SplitLines, Transforms, CountKind;
    assert Changes(ops) == CountKind(ops, Add) + CountKind(ops, Del);
  }

  method CountChanges<T>(ops: seq<Op<T>>) returns (additions: nat, deletions: nat)
    ensures additions == CountKind(ops, Add) && deletions == CountKind(ops, Del)
  {
    additions, deletions := 0, 0;
    for k := 0 to |ops|
      invariant additions == CountKind(ops[..k], Add) && deletions == CountKind(ops[..k], Del)
    {
      assert ops[..k + 1][..k] == ops[..k];
      match ops[k].kind
      case Add => additions := additions + 1;
      case Del => deletions := deletions + 1;
      case Keep =>
    }
    assert ops[..|ops|] == ops;
  }

  /**
    What a unified diff of two texts is: one that names the file on both sides and turns the first
    text into the second unless it was cut short, with the counts of a smallest change; nothing for
    equal texts, and only exact line counts for texts that are too large.
   */
  ghost predicate IsUnified(path: string, before: string, after: string, diff: string, additions: nat, deletions: nat,
                            truncated: bool)
  {
    && (before != after && !truncated ==> IsDiff(path, before, after, diff))
    && (before == after ==> diff == "" && additions == deletions == 0 && !truncated)
    && (before != after && (|before| > 0x8_0000 || |after| > 0x8_0000) ==>
          diff == "" && truncated && additions == |SplitLines(after)| && deletions == |SplitLines(before)|)
    && (before != after && |before| <= 0x8_0000 && |after| <= 0x8_0000 ==>
          && FewestChanges(before, after, additions, deletions)
          && exists full :: IsDiff(path, before, after, full) && IsCut(full, diff, truncated))
  }

  /** A text over 128 KiB is cut off there, and says so. */
  predicate IsCut(full: string, diff: string, truncated: bool) {
    if |full| <= 0x2_0000 then diff == full && !truncated
    else diff == full[..0x2_0000] + "\n\U{e2}\U{80}\U{a6} diff truncated\n" && truncated
  }

  lemma Cuts(full: string)
    ensures
      var long := |full| > MAX_DIFF_BYTES;
      IsCut(full, if long then full[..MAX_DIFF_BYTES] + TruncationNote() else full, long)
  {}

  /**
    The unified diff of a file and its counts. Unless it is marked truncated, the diff turns the
    old text into the new one; the counts are the fewest changes possible, or, when the files are
    too large to compare, all their lines.
   */
  method Unified(path: string, before: string, after: string)
    returns (diff: string, additions: nat, deletions: nat, truncated: bool)
    ensures IsUnified(path, before, after, diff, additions, deletions, truncated)
  {
    hide SplitLines, IsDiff, CountLines, Numbered, AreHunks, PrintHunks, Transforms, TruncationNote,
         IsCut, DeletionsFirst, CountKind, Minimal, FewestChanges;
    if before == after {
      return "", 0, 0, false;
    }
    if |before| > MAX_DIFF_INPUT || |after| > MAX_DIFF_INPUT {
      CountLinesIsExact(after);
      CountLinesIsExact(before);
      return "", CountLines(after), CountLines(before), true;
    }
    var a, b := SplitLines(before), SplitLines(after);
    var ops := DiffLines(a, b);
    additions, deletions := CountChanges(ops);
    FewestFrom(before, after, ops);
    var hunks := WriteHunks(ops);
    ghost var hs :| AreHunks(ops, hs) && Apart(hs, |ops|) && hunks == PrintHunks(ops, hs);
    PrintedDiffApplies(path, before, after, ops, hs);
    ghost var full := FileHeader(path) + hunks;
    diff, truncated := FileHeader(path) + hunks, false;
    if |diff| > MAX_DIFF_BYTES {
      diff, truncated := diff[..MAX_DIFF_BYTES] + TruncationNote(), true;
    }
    Cuts(full);
    assert IsDiff(path, before, after, full) && IsCut(full, diff, truncated);
  }
}
