/**
  What cleaning paths before following links changes (internal/compute/rootfs.go): the exact paths and
  link targets for which resolution finds what a system does whose own root this is, or refuses.
 */
module GuestClean {
  import opened GuestPath

  // Parts that matter

  predicate DoesNothing(part: string) {
    part == "" || part == "."
  }

  /** The parts that do something. */
  function Strip(parts: seq<string>): seq<string> {
    if parts == [] then []
    else (if parts[0] == "" || parts[0] == "." then [] else [parts[0]]) + Strip(parts[1..])
  }

  /** No ".." after a name. */
  ghost predicate IsStraight(parts: seq<string>) {
    forall i, j | 0 <= i < j < |parts| && IsName(parts[i]) :: parts[j] != ".."
  }

  lemma StraightWithout(out: seq<string>, p: string, rest: seq<string>)
    requires IsStraight(out + [p] + rest)
    ensures IsStraight(out + rest)
  {
    var s, t := out + [p] + rest, out + rest;
    assert forall i | 0 <= i < |t| :: t[i] == s[if i < |out| then i else i + 1];
  }

  /** A part of a straight path that does something is kept. */
  lemma StraightPush(out: seq<string>, p: string, rest: seq<string>)
    requires IsStraight(out + [p] + rest) && Strip(out) == out && p != "" && p != "."
    ensures Push(out, p) == out + [p] && Strip(out + [p]) == out + [p]
  {
    var s := out + [p] + rest;
    assert s[|out|] == p;
    if out != [] {
      LastIsKept(out);
      assert s[|out| - 1] == out[|out| - 1];
    }
    StripJoins(out, [p]);
    assert Strip([p]) == [p];
  }

  lemma PushAllHead(out: seq<string>, p: string, rest: seq<string>)
    ensures PushAll(out, [p] + rest) == PushAll(Push(out, p), rest)
  {
    assert ([p] + rest)[1..] == rest;
  }

  lemma StripHead(p: string, rest: seq<string>)
    ensures Strip([p] + rest) == (if DoesNothing(p) then [] else [p]) + Strip(rest)
  {
    assert ([p] + rest)[1..] == rest;
  }

  lemma Regroup<T>(out: seq<T>, p: T, rest: seq<T>)
    ensures out + [p] + rest == out + ([p] + rest)
    ensures [] + rest == rest
  {}

  lemma Skipped(out: seq<string>, p: string)
    requires DoesNothing(p)
    ensures Push(out, p) == out
  {}

  /** After a straight beginning that is kept, cleaning a straight rest only leaves out empty parts. */
  lemma {:induction false} StraightIsOnlyStripped(out: seq<string>, parts: seq<string>)
    requires IsStraight(out + parts) && Strip(out) == out
    ensures PushAll(out, parts) == out + Strip(parts)
    decreases |parts|
  {
    if parts == [] {
      assert out + [] == out;
    } else {
      var p, rest := parts[0], parts[1..];
      hide IsStraight, PushAll, Push, Strip;
      assert parts == [p] + rest;
      Regroup(out, p, rest);
      Regroup(out, p, Strip(rest));
      PushAllHead(out, p, rest);
      StripHead(p, rest);
      if DoesNothing(p) {
        Skipped(out, p);
        StraightWithout(out, p, rest);
        StraightIsOnlyStripped(out, rest);
      } else {
        StraightPush(out, p, rest);
        StraightIsOnlyStripped(out + [p], rest);
      }
    }
  }

  lemma {:induction false} LastIsKept(out: seq<string>)
    requires Strip(out) == out && out != []
    ensures out[|out| - 1] != "" && out[|out| - 1] != "."
  {
    if |out| > 1 {
      StripShortens(out[1..]);
      LastIsKept(out[1..]);
    }
  }

  lemma {:induction false} StripShortens(parts: seq<string>)
    ensures |Strip(parts)| <= |parts|
  {
    if parts != [] {
      StripShortens(parts[1..]);
    }
  }

  lemma {:induction false} StripJoins(a: seq<string>, b: seq<string>)
    ensures Strip(a + b) == Strip(a) + Strip(b)
  {
    if a == [] {
      assert a + b == b;
    } else {
      var p, rest := a[0], a[1..];
      assert a == [p] + rest && a + b == [p] + (rest + b);
      StripHead(p, rest);
      StripHead(p, rest + b);
      hide Strip;
      StripJoins(rest, b);
      assert [p] + Strip(rest) + Strip(b) == [p] + (Strip(rest) + Strip(b));
    }
  }

  lemma {:induction false} StripTwice(parts: seq<string>)
    ensures Strip(Strip(parts)) == Strip(parts)
  {
    if parts != [] {
      var p, rest := parts[0], parts[1..];
      assert parts == [p] + rest;
      StripTwice(rest);
      StripHead(p, rest);
      StripHead(p, Strip(rest));
      hide Strip;
      assert [] + Strip(rest) == Strip(rest);
    }
  }

  lemma CleanIsStrip(parts: seq<string>)
    requires IsStraight(parts)
    ensures Strip(Clean(parts)) == Strip(parts)
  {
    assert [] + parts == parts;
    StraightIsOnlyStripped([], parts);
    StripTwice(parts);
    assert [] + Strip(parts) == Strip(parts);
  }

  // Cleaned parts

  function Ups(n: nat): (r: seq<string>)
    ensures |r| == n && forall i | 0 <= i < n :: r[i] == ".."
  {
    if n == 0 then [] else [".."] + Ups(n - 1)
  }

  /** First `u` times "..", then only names. */
  ghost predicate IsClimb(out: seq<string>, u: nat) {
    && u <= |out| && (forall i | 0 <= i < u :: out[i] == "..")
    && forall i | u <= i < |out| :: IsName(out[i])
  }

  lemma {:induction false} ClimbIsUps(out: seq<string>, u: nat)
    requires IsClimb(out, u)
    ensures out == Ups(u) + out[u..]
  {
    UpsAreUps(out[..u]);
  }

  lemma {:induction false} UpsAreUps(out: seq<string>)
    requires forall i | 0 <= i < |out| :: out[i] == ".."
    ensures out == Ups(|out|)
  {
    if out != [] {
      UpsAreUps(out[1..]);
    }
  }

  lemma PushKeepsClimb(out: seq<string>, u: nat, part: string) returns (v: nat)
    requires IsClimb(out, u)
    ensures v >= u && IsClimb(Push(out, part), v)
  {
    v := if part == ".." && u == |out| then u + 1 else u;
  }

  /** Pushing more never takes a leading ".." back. */
  lemma {:induction false} PushAllKeepsClimb(out: seq<string>, u: nat, parts: seq<string>) returns (v: nat)
    requires IsClimb(out, u)
    ensures v >= u && IsClimb(PushAll(out, parts), v)
    decreases |parts|
  {
    if parts == [] {
      v := u;
    } else {
      hide Push;
      var w := PushKeepsClimb(out, u, parts[0]);
      v := PushAllKeepsClimb(Push(out, parts[0]), w, parts[1..]);
    }
  }

  lemma {:induction false} PushAllJoins(out: seq<string>, a: seq<string>, b: seq<string>)
    ensures PushAll(out, a + b) == PushAll(PushAll(out, a), b)
    decreases |a|
  {
    if a == [] {
      assert a + b == b;
    } else {
      var p, rest := a[0], a[1..];
      assert a == [p] + rest && a + b == [p] + (rest + b);
      PushAllHead(out, p, rest);
      PushAllHead(out, p, rest + b);
      hide Push, PushAll;
      PushAllJoins(Push(out, p), rest, b);
    }
  }

  lemma {:induction false} PushAllStrips(out: seq<string>, parts: seq<string>)
    ensures PushAll(out, parts) == PushAll(out, Strip(parts))
    decreases |parts|
  {
    if parts != [] {
      var p, rest := parts[0], parts[1..];
      assert parts == [p] + rest;
      PushAllHead(out, p, rest);
      PushAllHead(out, p, Strip(rest));
      StripHead(p, rest);
      Regroup<string>([], p, Strip(rest));
      hide PushAll, Strip;
      if DoesNothing(p) {
        Skipped(out, p);
        PushAllStrips(out, rest);
      } else {
        PushAllStrips(Push(out, p), rest);
      }
    }
  }

  lemma PushUp(n: nat)
    ensures Push(Ups(n), "..") == Ups(n + 1)
  {
    hide Ups;
    UpsAreUps(Ups(n) + [".."]);
  }

  lemma {:induction false} PushUps(n: nat, done: nat)
    ensures PushAll(Ups(done), Ups(n)) == Ups(done + n)
    decreases n
  {
    if n > 0 {
      UpsHead(n);
      hide PushAll, Push, Ups;
      PushAllHead(Ups(done), "..", Ups(n - 1));
      PushUp(done);
      PushUps(n - 1, done + 1);
    }
  }

  lemma UpsHead(n: nat)
    requires n > 0
    ensures Ups(n) == [".."] + Ups(n - 1)
  {}

  /** Cleaning keeps at least the leading "..", in front of names only. */
  lemma CleanIsClimb(parts: seq<string>, k: nat, more: seq<string>) returns (u: nat)
    requires Strip(parts) == Ups(k) + more
    ensures u >= k
    ensures var c := PushAll([], parts); IsClimb(c, u) && Clean(parts) == if c == [] then ["."] else c
  {
    PushAllStrips([], parts);
    PushAllJoins([], Ups(k), more);
    PushUps(k, 0);
    u := PushAllKeepsClimb(Ups(k), k, more);
    hide PushAll;
  }

  /** A target that cleaning leaves as it is, or one that is refused. */
  ghost predicate IsHarmlessTarget(absolute: bool, target: seq<string>) {
    IsStraight(target) || (absolute && Clean(target)[0] == "..")
  }

  ghost predicate HasHarmlessLinks(fs: FileTree) {
    forall p | p in fs && fs[p].Link? :: IsHarmlessTarget(fs[p].absolute, fs[p].target)
  }

  /** A path that cleaning leaves as it is, or one that is refused. */
  ghost predicate IsHarmlessPath(parts: seq<string>) {
    IsStraight(parts) || Clean(parts)[0] == ".."
  }

  // The harmless half

  /** From the root, a guest's path that goes up is refused. */
  lemma UpIsRefused(fs: FileTree, root: Path, at: Place)
    requires root != [] && at.current == root && at.pending != [] && at.pending[0] == ".."
    ensures Walk(fs, root, true, at).0 == Escapes
  {
    WalkUnfolds(fs, root, true, at);
    hide Walk;
  }

  /**
    Only what stands between the slashes matters. And a guest's path is walked as a system does whose
    root this is, as long as links are harmless and the walk is not refused.
   */
  lemma {:induction false} WalksAgree(fs: FileTree, root: Path, guestA: bool, a: Place, guestB: bool, b: Place)
    requires root != [] && (guestA == guestB || (guestA && HasHarmlessLinks(fs)))
    requires a.current == b.current && a.links == b.links && Strip(a.pending) == Strip(b.pending)
    ensures
      || Walk(fs, root, guestA, a) == Walk(fs, root, guestB, b)
      || (guestA != guestB && Walk(fs, root, guestA, a).0 == Escapes)
    decreases if a.links <= MAX_LINKS then MAX_LINKS + 1 - a.links else 0, |a.pending| + |b.pending|
  {
    hide Walk, Clean, HasHarmlessLinks;
    if a.pending != [] && DoesNothing(a.pending[0]) {
      WalkUnfolds(fs, root, guestA, a);
      WalksAgree(fs, root, guestA, a.(pending := a.pending[1..]), guestB, b);
    } else if b.pending != [] && DoesNothing(b.pending[0]) {
      WalkUnfolds(fs, root, guestB, b);
      WalksAgree(fs, root, guestA, a, guestB, b.(pending := b.pending[1..]));
    } else if a.pending == [] || b.pending == [] {
      assert a.pending == [] == b.pending;
      WalkEnds(fs, root, guestA, a);
      WalkEnds(fs, root, guestB, b);
    } else {
      WalkUnfolds(fs, root, guestA, a);
      WalkUnfolds(fs, root, guestB, b);
      SameHead(a.pending, b.pending);
      var x, y := Step(fs, root, guestA, a), Step(fs, root, guestB, b);
      if x.Go? {
        SameStep(fs, root, guestA, a, guestB, b);
        if Strip(x.place.pending) == Strip(y.place.pending) {
          WalksAgree(fs, root, guestA, x.place, guestB, y.place);
        } else {
          UpIsRefused(fs, root, x.place);
        }
      }
    }
  }

  lemma SameHead(a: seq<string>, b: seq<string>)
    requires a != [] && b != [] && !DoesNothing(a[0]) && !DoesNothing(b[0]) && Strip(a) == Strip(b)
    ensures a[0] == b[0] && Strip(a[1..]) == Strip(b[1..])
  {
    assert Strip(a) == [a[0]] + Strip(a[1..]) && Strip(b) == [b[0]] + Strip(b[1..]);
    assert Strip(a)[1..] == Strip(a[1..]) && Strip(b)[1..] == Strip(b[1..]);
  }

  /** Two walks at the same place take the same step, and have the same before them or one is refused next. */
  lemma SameStep(fs: FileTree, root: Path, guestA: bool, a: Place, guestB: bool, b: Place)
    requires guestA == guestB || (guestA && HasHarmlessLinks(fs))
    requires a.current == b.current && a.links == b.links
    requires a.pending != [] && b.pending != [] && a.pending[0] == b.pending[0]
    requires Strip(a.pending[1..]) == Strip(b.pending[1..]) && Step(fs, root, guestA, a).Go?
    ensures Step(fs, root, guestB, b).Go?
    ensures
      var (x, y) := (Step(fs, root, guestA, a).place, Step(fs, root, guestB, b).place);
      && x.current == y.current && x.links == y.links
      && (Strip(x.pending) == Strip(y.pending)
          || (guestA && guestA != guestB && x.current == root && x.pending != [] && x.pending[0] == ".."))
      && (x.links == a.links ==> x.pending == a.pending[1..] && y.pending == b.pending[1..])
      && (x.links != a.links ==> x.links == a.links + 1 <= MAX_LINKS)
  {
    hide Clean, Strip, IsStraight;
    var next := a.current + [a.pending[0]];
    if next in fs && fs[next].Link? {
      var target := fs[next].target;
      var mine := if guestA then Clean(target) else target;
      var yours := if guestB then Clean(target) else target;
      StripJoins(mine, a.pending[1..]);
      StripJoins(yours, b.pending[1..]);
      if guestA != guestB && IsStraight(target) {
        CleanIsStrip(target);
      }
    }
  }

  /** A system whose own root this is never refuses to go up. */
  lemma {:induction false} NeverRefused(fs: FileTree, root: Path, at: Place)
    requires Inside(root, at.current)
    ensures Walk(fs, root, false, at).0 != Escapes
    decreases if at.links <= MAX_LINKS then MAX_LINKS + 1 - at.links else 0, |at.pending|
  {
    hide Walk;
    if at.pending == [] {
      WalkEnds(fs, root, false, at);
    } else {
      WalkUnfolds(fs, root, false, at);
      var step := Step(fs, root, false, at);
      if step.Go? {
        NeverRefused(fs, root, step.place);
      }
    }
  }

  /** Resolving name by name, as a system does whose own root this is. */
  function ResolveAsWritten(fs: FileTree, root: Path, parts: seq<string>): Result {
    Walk(fs, root, false, Place(root, parts, 0)).0
  }

  /** The program refuses the path, or finds what such a system finds. */
  ghost predicate RefusesOrAgrees(fs: FileTree, root: Path, parts: seq<string>) {
    var r := Resolve(fs, root, false, parts);
    r == Escapes || r == ResolveAsWritten(fs, root, parts)
  }

  /** A harmless path in a tree with harmless links is resolved as it is written, unless it is refused. */
  lemma ResolvesAsWritten(fs: FileTree, root: Path, parts: seq<string>)
    requires root != [] && HasHarmlessLinks(fs) && IsHarmlessPath(parts)
    ensures RefusesOrAgrees(fs, root, parts)
    ensures Resolve(fs, root, false, parts) == ResolveAsWritten(fs, root, parts)
      <==> Resolve(fs, root, false, parts) != Escapes
  {
    NeverRefused(fs, root, Place(root, parts, 0));
    if Clean(parts)[0] != ".." {
      CleanIsStrip(parts);
      WalksAgree(fs, root, true, Place(root, Clean(parts), 0), false, Place(root, parts, 0));
    }
    hide Walk, Clean, Strip;
  }

  // The other half: trees that tell them apart

  lemma {:induction false} StripKinds(parts: seq<string>)
    ensures forall i | 0 <= i < |Strip(parts)| :: Strip(parts)[i] == ".." || IsName(Strip(parts)[i])
  {
    if parts != [] {
      StripKinds(parts[1..]);
    }
  }

  /** The leading part of a list of ".." and names: the "..", then the names up to the next "..". */
  lemma {:induction false} LeadingClimb(s: seq<string>) returns (k: nat, m: nat)
    requires forall i | 0 <= i < |s| :: s[i] == ".." || IsName(s[i])
    ensures k <= m <= |s| && IsClimb(s[..m], k)
    ensures m < |s| ==> k < m && s[m] == ".."
  {
    k := 0;
    while k < |s| && s[k] == ".."
      invariant k <= |s| && forall i | 0 <= i < k :: s[i] == ".."
    {
      k := k + 1;
    }
    m := k;
    while m < |s| && s[m] != ".."
      invariant k <= m <= |s| && forall i | k <= i < m :: IsName(s[i])
      invariant k == |s| || s[k] != ".."
    {
      m := m + 1;
    }
  }

  lemma {:induction false} UpInStrip(parts: seq<string>)
    ensures ".." in Strip(parts) <==> ".." in parts
  {
    if parts != [] {
      UpInStrip(parts[1..]);
      assert parts == [parts[0]] + parts[1..];
    }
  }

  lemma StraightHead(p: string, rest: seq<string>)
    ensures IsStraight([p] + rest) <==> IsStraight(rest) && (IsName(p) ==> ".." !in rest)
  {
    var s := [p] + rest;
    assert forall i | 0 <= i < |rest| :: rest[i] == s[i + 1];
    if IsStraight(s) {
      assert IsName(s[0]) ==> forall j | 0 < j < |s| :: s[j] != "..";
    }
    if IsStraight(rest) && (IsName(p) ==> ".." !in rest) {
      forall i, j | 0 <= i < j < |s| && IsName(s[i]) ensures s[j] != ".." {
        assert s[j] == rest[j - 1] && (i > 0 ==> s[i] == rest[i - 1]);
      }
    }
  }

  lemma {:induction false} StraightIffStripped(parts: seq<string>)
    ensures IsStraight(parts) <==> IsStraight(Strip(parts))
  {
    if parts != [] {
      hide Strip, IsStraight;
      var p, rest := parts[0], parts[1..];
      assert parts == [p] + rest;
      StraightIffStripped(rest);
      StripHead(p, rest);
      UpInStrip(rest);
      StraightHead(p, rest);
      if DoesNothing(p) {
        assert [] + Strip(rest) == Strip(rest);
      } else {
        StraightHead(p, Strip(rest));
      }
    }
  }

  lemma ClimbIsStraight(s: seq<string>, k: nat)
    requires IsClimb(s, k)
    ensures IsStraight(s)
  {}

  /** A path that is not straight begins with some "..", then has names, then "..". */
  lemma NotStraight(parts: seq<string>) returns (k: nat, names: seq<string>, rest: seq<string>)
    requires !IsStraight(parts)
    ensures names != [] && AreNames(names) && Strip(parts) == Ups(k) + (names + ([".."] + rest))
  {
    var s := Strip(parts);
    StripKinds(parts);
    StraightIffStripped(parts);
    hide Strip;
    var m;
    k, m := LeadingClimb(s);
    assert m == |s| ==> s[..m] == s;
    ClimbIsStraight(s[..m], k);
    names, rest := s[k..m], s[m + 1..];
    UpsAreUps(s[..k]);
    assert s[m..] == [".."] + rest && s[k..] == names + s[m..] && s == s[..k] + s[k..];
  }

  /** The directories on the way to `p`, and a node there. */
  function Chain(p: Path, leaf: Node): FileTree {
    map q | q in Prefixes(p) :: if q == p then leaf else Dir
  }

  function Prefixes(p: Path): set<Path> {
    set i | 0 <= i <= |p| :: p[..i]
  }

  lemma PrefixesAre(p: Path, q: Path)
    ensures q in Prefixes(p) <==> q <= p
  {
    if q <= p {
      assert q == p[..|q|];
    }
  }

  lemma ChainIsTree(p: Path, leaf: Node)
    ensures IsTree(Chain(p, leaf))
    ensures forall q :: q in Chain(p, leaf) <==> q <= p
    ensures forall q | q <= p :: Chain(p, leaf)[q] == if q == p then leaf else Dir
  {
    var fs := Chain(p, leaf);
    forall q ensures q in fs <==> q <= p { PrefixesAre(p, q); }
    forall q | q in fs && q != [] ensures Parent(q) in fs && fs[Parent(q)] == Dir {
      assert Parent(q) <= p && Parent(q) != p;
    }
  }

  /** The path added to a tree: what is missing on the way becomes a directory, and its end `leaf`. */
  function Grow(fs: FileTree, p: Path, leaf: Node): FileTree {
    Chain(p, leaf) + fs
  }

  ghost predicate IsGrown(fs: FileTree, p: Path, leaf: Node, grown: FileTree) {
    && IsTree(grown)
    && (forall q :: q in grown <==> q in fs || q <= p)
    && forall q | q in grown :: grown[q] == if q in fs then fs[q] else if q == p then leaf else Dir
  }

  lemma GrowHas(fs: FileTree, p: Path, leaf: Node)
    ensures forall q :: q in Grow(fs, p, leaf) <==> q in fs || q <= p
    ensures forall q | q in Grow(fs, p, leaf) ::
      Grow(fs, p, leaf)[q] == if q in fs then fs[q] else if q == p then leaf else Dir
  {
    ChainIsTree(p, leaf);
    hide Chain, IsTree;
  }

  lemma GrowIsTree(fs: FileTree, p: Path, leaf: Node)
    requires IsTree(fs) && forall q | q in fs && q <= p && q != p :: fs[q] == Dir
    ensures IsGrown(fs, p, leaf, Grow(fs, p, leaf))
  {
    GrowHas(fs, p, leaf);
    var grown := Grow(fs, p, leaf);
    hide Grow, Parent;
    forall q | q in grown && q != [] ensures Parent(q) in grown && grown[Parent(q)] == Dir {
      if q in fs {
        assert Parent(q) in fs;
      } else {
        ParentIsPrefix(p, q);
      }
    }
  }

  lemma ParentIsPrefix(p: Path, q: Path)
    requires q <= p && q != []
    ensures Parent(q) <= p && Parent(q) != p
  {}

  // Walks through such trees

  /** Going up inside the root. */
  lemma {:induction false} WalkUp(fs: FileTree, root: Path, guest: bool, dir: Path, u: nat, rest: seq<string>,
                                  links: nat)
    requires Inside(root, dir) && |root| + u <= |dir|
    ensures Walk(fs, root, guest, Place(dir, Ups(u) + rest, links))
         == Walk(fs, root, guest, Place(dir[..|dir| - u], rest, links))
    decreases u
  {
    if u == 0 {
      assert Ups(0) + rest == rest && dir[..|dir|] == dir;
    } else {
      assert (Ups(u) + rest)[1..] == Ups(u - 1) + rest;
      WalkUnfolds(fs, root, guest, Place(dir, Ups(u) + rest, links));
      hide Walk;
      WalkUp(fs, root, guest, Parent(dir), u - 1, rest, links);
      assert Parent(dir)[..|dir| - u] == dir[..|dir| - u];
    }
  }

  lemma {:induction false} WalkDown(fs: FileTree, root: Path, guest: bool, dir: Path, names: seq<string>,
                                    rest: seq<string>, links: nat)
    requires AreNames(names)
    requires forall i | 0 < i <= |names| :: dir + names[..i] in fs && !fs[dir + names[..i]].Link?
    ensures Walk(fs, root, guest, Place(dir, names + rest, links))
         == Walk(fs, root, guest, Place(dir + names, rest, links))
    decreases |names|
  {
    if names == [] {
      assert names + rest == rest && dir + names == dir;
    } else {
      var name, more := names[0], names[1..];
      assert names[..1] == [name] && name in names;
      assert names + rest == [name] + (more + rest) && dir + names == dir + [name] + more;
      GoesDown(fs, root, guest, dir, name, more + rest, links);
      forall i | 0 < i <= |more| ensures dir + [name] + more[..i] in fs && !fs[dir + [name] + more[..i]].Link? {
        assert dir + [name] + more[..i] == dir + names[..i + 1];
      }
      WalkDown(fs, root, guest, dir + [name], more, rest, links);
    }
  }

  /** Going down into something that is not a link. */
  lemma GoesDown(fs: FileTree, root: Path, guest: bool, dir: Path, name: string, rest: seq<string>, links: nat)
    requires IsName(name) && dir + [name] in fs && !fs[dir + [name]].Link?
    ensures Walk(fs, root, guest, Place(dir, [name] + rest, links))
         == Walk(fs, root, guest, Place(dir + [name], rest, links))
  {
    assert ([name] + rest)[1..] == rest;
    WalkUnfolds(fs, root, guest, Place(dir, [name] + rest, links));
    hide Walk;
  }

  function Followed(guest: bool, target: seq<string>): seq<string> {
    if guest then Clean(target) else target
  }

  lemma FollowsLink(fs: FileTree, root: Path, guest: bool, dir: Path, name: string, rest: seq<string>, links: nat)
    requires IsName(name) && dir + [name] in fs && fs[dir + [name]].Link? && links < MAX_LINKS
    ensures
      var link := fs[dir + [name]];
      Walk(fs, root, guest, Place(dir, [name] + rest, links))
      == Walk(fs, root, guest,
              Place(if link.absolute then root else dir, Followed(guest, link.target) + rest, links + 1))
  {
    assert ([name] + rest)[1..] == rest;
    WalkUnfolds(fs, root, guest, Place(dir, [name] + rest, links));
    hide Walk, Clean;
  }

  lemma FindsNothing(fs: FileTree, root: Path, guest: bool, dir: Path, name: string, rest: seq<string>, links: nat)
    requires IsName(name) && dir + [name] !in fs
    ensures Walk(fs, root, guest, Place(dir, [name] + rest, links)) == (Missing, links)
  {
    WalkUnfolds(fs, root, guest, Place(dir, [name] + rest, links));
    hide Walk;
  }

  /** On the way down some name is missing. */
  lemma {:induction false} MissesName(fs: FileTree, root: Path, dir: Path, names: seq<string>, rest: seq<string>,
                                      links: nat)
    requires AreNames(names) && dir in fs && dir + names !in fs
    requires forall i | 0 < i <= |names| && dir + names[..i] in fs :: !fs[dir + names[..i]].Link?
    ensures Walk(fs, root, false, Place(dir, names + rest, links)) == (Missing, links)
    decreases |names|
  {
    assert names == [] ==> dir + names == dir;
    var name, more := names[0], names[1..];
    assert name in names && names[..1] == [name] && names + rest == [name] + (more + rest);
    if dir + [name] in fs {
      GoesDown(fs, root, false, dir, name, more + rest, links);
      assert dir + names == dir + [name] + more;
      forall i | 0 < i <= |more| && dir + [name] + more[..i] in fs ensures !fs[dir + [name] + more[..i]].Link? {
        assert dir + [name] + more[..i] == dir + names[..i + 1];
      }
      MissesName(fs, root, dir + [name], more, rest, links);
    } else {
      FindsNothing(fs, root, false, dir, name, more + rest, links);
    }
  }

  /** Down to a link to some names below the root, and through it. */
  lemma ThroughLink(fs: FileTree, root: Path, guest: bool, dir: Path, names: seq<string>, below: seq<string>,
                    rest: seq<string>, links: nat)
    requires names != [] && AreNames(names) && below != [] && AreNames(below) && links < MAX_LINKS
    requires dir + names in fs && fs[dir + names] == Link(true, below)
    requires forall i | 0 < i < |names| :: dir + names[..i] in fs && !fs[dir + names[..i]].Link?
    ensures Walk(fs, root, guest, Place(dir, names + rest, links))
         == Walk(fs, root, guest, Place(root, below + rest, links + 1))
  {
    hide Walk;
    var init, last := names[..|names| - 1], names[|names| - 1];
    assert last in names && names == init + [last];
    forall x | x in init ensures IsName(x) { assert x in names; }
    forall i | 0 < i <= |init| ensures dir + init[..i] in fs && !fs[dir + init[..i]].Link? {
      assert init[..i] == names[..i];
    }
    WalkDown(fs, root, guest, dir, init, [last] + rest, links);
    assert names + rest == init + ([last] + rest) && dir + names == dir + init + [last];
    FollowsLink(fs, root, guest, dir + init, last, rest, links);
    NamesAreClean([], below);
    assert [] + below == below;
  }

  // A name that is not among the parts

  function Length(parts: seq<string>): nat {
    if parts == [] then 0 else |parts[0]| + Length(parts[1..])
  }

  function Zs(n: nat): (s: string)
    ensures |s| == n && forall i | 0 <= i < n :: s[i] == 'z'
  {
    if n == 0 then "" else "z" + Zs(n - 1)
  }

  /** Longer than all the parts together. */
  function NewName(parts: seq<string>): string {
    Zs(Length(parts) + 1)
  }

  lemma {:induction false} PartsAreShort(parts: seq<string>, p: string)
    requires p in parts
    ensures |p| <= Length(parts)
  {
    if p != parts[0] {
      PartsAreShort(parts[1..], p);
    }
  }

  lemma NewNameIsNew(parts: seq<string>)
    ensures IsName(NewName(parts)) && NewName(parts) !in parts
  {
    var z := NewName(parts);
    assert z[0] == 'z';
    if z in parts {
      PartsAreShort(parts, z);
    }
  }

  lemma {:induction false} StripMembers(parts: seq<string>, p: string)
    requires p in Strip(parts)
    ensures p in parts
  {
    if p !in [parts[0]] {
      StripMembers(parts[1..], p);
    }
  }

  lemma {:induction false} PushAllMembers(out: seq<string>, parts: seq<string>, p: string)
    requires p in PushAll(out, parts)
    ensures p in out || p in parts
    decreases |parts|
  {
    if parts != [] {
      PushAllMembers(Push(out, parts[0]), parts[1..], p);
    }
  }

  function Copies(z: string, n: nat): (r: seq<string>)
    ensures |r| == n && forall i | 0 <= i < n :: r[i] == z
  {
    if n == 0 then [] else [z] + Copies(z, n - 1)
  }

  lemma CopiesAreNames(z: string, n: nat)
    requires IsName(z)
    ensures AreNames(Copies(z, n))
  {}

  // Two trees

  /**
    A tree with nothing but `dir`, directories called `z` on the way to it from the root, and perhaps
    something called `z` in it.
   */
  ghost predicate IsBase(fs: FileTree, root: Path, z: string, dir: Path) {
    && IsRoot(fs, root) && Inside(root, dir)
    && (forall q | q in fs :: q <= dir + [z])
    && (forall q | q <= dir :: q in fs && fs[q] == Dir)
    && forall i | |root| <= i < |dir| :: dir[i] == z
  }

  /** Anything with another name is new. */
  lemma NotInBase(fs: FileTree, root: Path, z: string, dir: Path, m: nat, q: Path)
    requires IsBase(fs, root, z, dir) && |root| <= m <= |dir| && m < |q| && q[m] != z
    ensures q !in fs
  {
    assert (dir + [z])[m] == z;
  }

  /** The tree has been extended, with no new links but to plain names. */
  ghost predicate Extends(a: FileTree, b: FileTree) {
    && IsTree(b) && (forall q | q in a :: q in b && b[q] == a[q])
    && forall q | q in b && q !in a && b[q].Link? :: AreNames(b[q].target)
  }

  /** Adding a path that leaves the base at some directory. */
  lemma GrowsFromBase(fs: FileTree, root: Path, z: string, dir: Path, m: nat, more: seq<string>, leaf: Node)
    requires IsBase(fs, root, z, dir) && |root| <= m <= |dir| && (more != [] ==> more[0] != z)
    ensures IsGrown(fs, dir[..m] + more, leaf, Grow(fs, dir[..m] + more, leaf))
    ensures forall q | q in fs && q <= dir[..m] + more :: fs[q] == Dir
  {
    var p := dir[..m] + more;
    forall q | q in fs && q <= p ensures fs[q] == Dir {
      if |q| > m {
        assert q[m] == p[m] == more[0];
        NotInBase(fs, root, z, dir, m, q);
      } else {
        assert q <= dir;
      }
    }
    hide IsBase, Grow;
    GrowIsTree(fs, p, leaf);
  }

  /** The first: only where cleaned parts lead. Walking them as they are written misses a name. */
  lemma MissingAsWritten(fs: FileTree, root: Path, z: string, dir: Path, k: nat, u: nat, names: seq<string>,
                         more: seq<string>, rest: seq<string>, links: nat)
    requires IsBase(fs, root, z, dir) && IsName(z) && k <= u && |root| + u <= |dir|
    requires names != [] && AreNames(names) && z !in names && AreNames(more) && z !in more
    requires u == k ==> !(names <= more)
    ensures
      var end := dir[..|dir| - u] + more;
      var grown := Grow(fs, end, Dir);
      && Extends(fs, grown)
      && Walk(grown, root, true, Place(dir, Ups(u) + more, links)) == (Found(end), links)
      && Walk(grown, root, false, Place(dir, Ups(k) + (names + rest), links)) == (Missing, links)
  {
    hide Walk, Grow, IsBase, IsGrown, Ups;
    var at, end := dir[..|dir| - k], dir[..|dir| - u] + more;
    var grown := Grow(fs, end, Dir);
    assert more != [] ==> more[0] in more;
    GrowsFromBase(fs, root, z, dir, |dir| - u, more, Dir);
    BaseIsInside(fs, root, z, dir);
    MissesNames(fs, root, z, dir, k, u, names, more, grown);
    OnlyDirs(fs, end, grown);
    GoesTo(grown, root, true, dir[..|dir| - u], more, links);
    WalkUp(grown, root, true, dir, u, more, links);
    WalkUp(grown, root, false, dir, k, names + rest, links);
    MissesName(grown, root, at, names, rest, links);
  }

  lemma BaseIsInside(fs: FileTree, root: Path, z: string, dir: Path)
    requires IsBase(fs, root, z, dir)
    ensures Inside(root, dir) && IsRoot(fs, root)
  {}

  /** The new path and everything on its way are directories. */
  lemma OnlyDirs(fs: FileTree, end: Path, grown: FileTree)
    requires IsGrown(fs, end, Dir, grown) && forall q | q in fs && q <= end :: fs[q] == Dir
    ensures forall q | q <= end :: q in grown && grown[q] == Dir
    ensures Extends(fs, grown)
  {}

  /** All the way down. */
  lemma GoesTo(fs: FileTree, root: Path, guest: bool, dir: Path, names: seq<string>, links: nat)
    requires AreNames(names) && Inside(root, dir) && forall q | q <= dir + names :: q in fs && fs[q] == Dir
    ensures Walk(fs, root, guest, Place(dir, names, links)) == (Found(dir + names), links)
  {
    hide Walk;
    forall i | 0 < i <= |names| ensures dir + names[..i] <= dir + names {}
    WalkDown(fs, root, guest, dir, names, [], links);
    assert names + [] == names;
    WalkEnds(fs, root, guest, Place(dir + names, [], links));
  }

  lemma PrefixCancels<T>(a: seq<T>, b: seq<T>, c: seq<T>)
    ensures a + b <= a + c <==> b <= c
  {
    assert (a + b)[|a|..] == b && (a + c)[|a|..] == c;
    assert b <= c ==> a + b == (a + c)[..|a + b|];
  }

  /** The names do not lie on the way to where the cleaned parts lead. */
  lemma NotOnTheWay(root: Path, z: string, dir: Path, k: nat, u: nat, names: seq<string>, more: seq<string>)
    requires k <= u && |root| + u <= |dir| && forall i | |root| <= i < |dir| :: dir[i] == z
    requires names != [] && (more != [] ==> more[0] != z) && (u == k ==> !(names <= more))
    ensures !(dir[..|dir| - k] + names <= dir[..|dir| - u] + more)
  {
    var at, end, m := dir[..|dir| - k], dir[..|dir| - u] + more, |dir| - u;
    if u > k {
      assert (at + names)[m] == z;
      assert |end| > m ==> end[m] == more[0];
    } else {
      PrefixCancels(at, names, more);
    }
  }

  /** Nor are they in the base. */
  lemma NamesAreNew(fs: FileTree, root: Path, z: string, dir: Path, k: nat, names: seq<string>)
    requires IsBase(fs, root, z, dir) && |root| + k <= |dir| && names != [] && names[0] != z
    ensures forall i | 0 < i <= |names| :: dir[..|dir| - k] + names[..i] !in fs
    ensures dir[..|dir| - k] + names !in fs
  {
    var at := dir[..|dir| - k];
    forall i | 0 < i <= |names| ensures at + names[..i] !in fs {
      assert (at + names[..i])[|at|] == names[0];
      NotInBase(fs, root, z, dir, |at|, at + names[..i]);
    }
    assert names[..|names|] == names;
  }

  lemma MissesNames(fs: FileTree, root: Path, z: string, dir: Path, k: nat, u: nat, names: seq<string>,
                    more: seq<string>, grown: FileTree)
    requires IsBase(fs, root, z, dir) && k <= u && |root| + u <= |dir|
    requires names != [] && z !in names && z !in more && (u == k ==> !(names <= more))
    requires IsGrown(fs, dir[..|dir| - u] + more, Dir, grown)
    ensures
      var at := dir[..|dir| - k];
      && at in grown && at + names !in grown
      && forall i | 0 < i <= |names| && at + names[..i] in grown :: !grown[at + names[..i]].Link?
  {
    assert names[0] in names && (more != [] ==> more[0] in more);
    assert dir[..|dir| - k] <= dir;
    NotOnTheWay(root, z, dir, k, u, names, more);
    NamesAreNew(fs, root, z, dir, k, names);
    hide IsTree;
  }

  /**
    The second: the last name before the ".." is a link to a deep directory with a new name, in which
    there is what comes next.
   */
  function Deep(fs: FileTree, root: Path, at: Path, names: seq<string>, below: seq<string>,
                more: seq<string>): FileTree
  {
    Grow(Grow(fs, root + (below + more), Dir), at + names, Link(true, below))
  }

  lemma DeepIs(fs: FileTree, root: Path, z: string, dir: Path, k: nat, names: seq<string>, below: seq<string>,
               more: seq<string>)
    requires IsBase(fs, root, z, dir) && |root| + k <= |dir|
    requires names != [] && AreNames(names) && z !in names && below != [] && AreNames(below)
    requires below[0] != z && below[0] != names[0]
    ensures
      var at, deep := dir[..|dir| - k], Deep(fs, root, dir[..|dir| - k], names, below, more);
      && Extends(fs, deep)
      && (forall q :: q in deep <==> q in fs || q <= root + (below + more) || q <= at + names)
      && at + names in deep && deep[at + names] == Link(true, below)
      && (forall i | 0 < i < |names| :: at + names[..i] in deep && !deep[at + names[..i]].Link?)
      && forall q | q <= root + (below + more) :: q in deep && deep[q] == Dir
  {
    hide Grow, IsGrown, IsBase, IsTree, Extends, IsName;
    var at, end := dir[..|dir| - k], root + (below + more);
    assert names[0] in names;
    RootOfBase(fs, root, z, dir);
    GrowsFromBase(fs, root, z, dir, |root|, below + more, Dir);
    GrowsFromBase(fs, root, z, dir, |at|, names, Link(true, below));
    NamesAreNew(fs, root, z, dir, k, names);
    NamesAreElsewhere(root, z, dir, k, names, below + more);
    GrowsTwice(fs, end, at, names, below, Grow(fs, end, Dir));
  }

  /** The link after the directories: neither is in the other's way. */
  lemma GrowsTwice(fs: FileTree, end: Path, at: Path, names: seq<string>, below: seq<string>, half: FileTree)
    requires IsGrown(fs, end, Dir, half) && names != [] && AreNames(below)
    requires forall q | q in fs && (q <= end || q <= at + names) :: fs[q] == Dir
    requires forall i | 0 < i <= |names| :: at + names[..i] !in fs && !(at + names[..i] <= end)
    ensures
      var deep := Grow(half, at + names, Link(true, below));
      && Extends(fs, deep)
      && (forall q :: q in deep <==> q in fs || q <= end || q <= at + names)
      && at + names in deep && deep[at + names] == Link(true, below)
      && (forall i | 0 < i < |names| :: at + names[..i] in deep && !deep[at + names[..i]].Link?)
      && forall q | q <= end :: q in deep && deep[q] == Dir
  {
    hide Grow, IsTree;
    assert names[..|names|] == names;
    GrowIsTree(half, at + names, Link(true, below));
    LinkIsAdded(half, at, names, below, Grow(half, at + names, Link(true, below)));
  }

  lemma LinkIsAdded(half: FileTree, at: Path, names: seq<string>, below: seq<string>, deep: FileTree)
    requires IsGrown(half, at + names, Link(true, below), deep) && names != []
    requires forall i | 0 < i <= |names| :: at + names[..i] !in half
    ensures at + names in deep && deep[at + names] == Link(true, below)
    ensures forall i | 0 < i < |names| :: at + names[..i] in deep && !deep[at + names[..i]].Link?
  {
    assert names[..|names|] == names;
    forall i | 0 < i < |names| ensures at + names[..i] <= at + names && at + names[..i] != at + names {}
    hide IsTree;
  }

  lemma RootOfBase(fs: FileTree, root: Path, z: string, dir: Path)
    requires IsBase(fs, root, z, dir)
    ensures dir[..|root|] == root && forall i | |root| <= i < |dir| :: dir[i] == z
  {}

  lemma NamesAreElsewhere(root: Path, z: string, dir: Path, k: nat, names: seq<string>, below: seq<string>)
    requires |root| + k <= |dir| && forall i | |root| <= i < |dir| :: dir[i] == z
    requires names != [] && below != [] && below[0] != z && below[0] != names[0]
    ensures forall i | 0 < i <= |names| :: !(dir[..|dir| - k] + names[..i] <= root + below)
    ensures !(dir[..|dir| - k] + names <= root + below)
  {
    var at := dir[..|dir| - k];
    forall i | 0 < i <= |names| ensures !(at + names[..i] <= root + below) {
      assert (root + below)[|root|] == below[0];
      assert (at + names[..i])[|root|] == if |at| == |root| then names[0] else z;
    }
    assert names[..|names|] == names;
  }

  /** Names that are not there, in directories that all have one name. */
  lemma {:induction false} Wanders(fs: FileTree, root: Path, w: string, i: nat, rest: seq<string>, links: nat)
    requires |rest| < i && forall x | x in rest :: x == ".." || IsName(x)
    requires forall j, x | 0 < j <= i && x in rest && IsName(x) :: root + Copies(w, j) + [x] !in fs
    ensures
      var r := Walk(fs, root, false, Place(root + Copies(w, i), rest, links)).0;
      r == Missing || (r.Found? && |r.path| <= |root| + i)
    decreases |rest|
  {
    var at := Place(root + Copies(w, i), rest, links);
    hide Walk;
    if rest == [] {
      WalkEnds(fs, root, false, at);
    } else if rest[0] == ".." {
      WalkUnfolds(fs, root, false, at);
      assert Parent(at.current) == root + Copies(w, i - 1);
      Wanders(fs, root, w, i - 1, rest[1..], links);
    } else {
      assert rest[0] in rest && rest == [rest[0]] + rest[1..];
      FindsNothing(fs, root, false, root + Copies(w, i), rest[0], rest[1..], links);
    }
  }

  /** The guest goes through the link, and on to where the rest of the cleaned parts is. */
  lemma DeepIsFound(fs: FileTree, root: Path, z: string, dir: Path, k: nat, names: seq<string>, below: seq<string>,
                    more: seq<string>, links: nat)
    requires IsBase(fs, root, z, dir) && |root| + k <= |dir| && links < MAX_LINKS
    requires names != [] && AreNames(names) && z !in names && below != [] && AreNames(below) && AreNames(more)
    requires below[0] != z && below[0] != names[0]
    ensures
      var deep := Deep(fs, root, dir[..|dir| - k], names, below, more);
      Walk(deep, root, true, Place(dir, Ups(k) + (names + more), links)) == (Found(root + (below + more)), links + 1)
  {
    var at, deep := dir[..|dir| - k], Deep(fs, root, dir[..|dir| - k], names, below, more);
    hide Walk, Deep, IsBase, Ups, IsName, Extends, IsTree, AreNames;
    DeepIs(fs, root, z, dir, k, names, below, more);
    BaseIsInside(fs, root, z, dir);
    WalkUp(deep, root, true, dir, k, names + more, links);
    ThroughLink(deep, root, true, at, names, below, more, links);
    NamesOfBoth(below, more);
    GoesTo(deep, root, true, root, below + more, links + 1);
  }

  /** As they are written, the parts lead to that directory, up again, and nowhere from there. */
  lemma DeepIsLeft(fs: FileTree, root: Path, z: string, w: string, dir: Path, k: nat, names: seq<string>,
                   more: seq<string>, rest: seq<string>, links: nat)
    requires IsBase(fs, root, z, dir) && IsName(w) && w != z && |root| + k <= |dir| && links < MAX_LINKS
    requires names != [] && AreNames(names) && z !in names && names[0] != w
    requires w !in rest && forall x | x in rest :: x == ".." || IsName(x)
    ensures
      var n := |rest| + 2;
      var deep := Deep(fs, root, dir[..|dir| - k], names, Copies(w, n), more);
      var r := Walk(deep, root, false, Place(dir, Ups(k) + (names + ([".."] + rest)), links)).0;
      r == Missing || (r.Found? && |r.path| < |root| + n)
  {
    var at, n, up := dir[..|dir| - k], |rest| + 2, [".."] + rest;
    var below := Copies(w, n);
    var deep := Deep(fs, root, at, names, below, more);
    CopiesAreNames(w, n);
    hide Walk, Deep, IsBase, Ups, Copies, IsName, Extends, IsTree, AreNames;
    DeepIs(fs, root, z, dir, k, names, below, more);
    BaseIsInside(fs, root, z, dir);
    WalkUp(deep, root, false, dir, k, names + up, links);
    ThroughLink(deep, root, false, at, names, below, up, links);
    GoesBelow(deep, root, below, more, up, links + 1);
    UpFromCopies(deep, root, w, n, rest, links + 1);
    WanderingMisses(fs, root, z, w, dir, k, names, more, rest);
    Wanders(deep, root, w, n - 1, rest, links + 1);
  }

  lemma GoesBelow(fs: FileTree, root: Path, below: seq<string>, more: seq<string>, rest: seq<string>, links: nat)
    requires AreNames(below) && forall q | q <= root + (below + more) :: q in fs && fs[q] == Dir
    ensures Walk(fs, root, false, Place(root, below + rest, links))
         == Walk(fs, root, false, Place(root + below, rest, links))
  {
    forall i | 0 < i <= |below| ensures root + below[..i] <= root + (below + more) {}
    hide Walk;
    WalkDown(fs, root, false, root, below, rest, links);
  }

  lemma NamesOfBoth(a: seq<string>, b: seq<string>)
    requires AreNames(a) && AreNames(b)
    ensures AreNames(a + b)
  {}

  lemma UpFromCopies(fs: FileTree, root: Path, w: string, n: nat, rest: seq<string>, links: nat)
    requires n > 0
    ensures Walk(fs, root, false, Place(root + Copies(w, n), [".."] + rest, links))
         == Walk(fs, root, false, Place(root + Copies(w, n - 1), rest, links))
  {
    assert ([".."] + rest)[1..] == rest && Parent(root + Copies(w, n)) == root + Copies(w, n - 1);
    WalkUnfolds(fs, root, false, Place(root + Copies(w, n), [".."] + rest, links));
    hide Walk;
  }

  lemma WanderingMisses(fs: FileTree, root: Path, z: string, w: string, dir: Path, k: nat, names: seq<string>,
                        more: seq<string>, rest: seq<string>)
    requires IsBase(fs, root, z, dir) && w != z && |root| + k <= |dir| && names != [] && names[0] != w && w !in rest
    requires
      var below := Copies(w, |rest| + 2);
      var deep := Deep(fs, root, dir[..|dir| - k], names, below, more);
      forall q :: q in deep <==> q in fs || q <= root + (below + more) || q <= dir[..|dir| - k] + names
    ensures
      var deep := Deep(fs, root, dir[..|dir| - k], names, Copies(w, |rest| + 2), more);
      forall j, x | 0 < j <= |rest| + 1 && x in rest && IsName(x) :: root + Copies(w, j) + [x] !in deep
  {
    var at, below := dir[..|dir| - k], Copies(w, |rest| + 2);
    hide Deep;
    forall j, x | 0 < j <= |rest| + 1 && x in rest && IsName(x)
      ensures var q := root + Copies(w, j) + [x]; q !in fs && !(q <= root + (below + more)) && !(q <= at + names)
    {
      var q := root + Copies(w, j) + [x];
      assert q[|root|] == w && q[|root| + j] == x;
      NotInBase(fs, root, z, dir, |root|, q);
      assert (root + (below + more))[|root| + j] == w;
      assert (at + names)[|root|] == if |at| == |root| then names[0] else z;
    }
  }

  // The two equivalences

  lemma AsWrittenIsStripped(fs: FileTree, root: Path, dir: Path, parts: seq<string>, links: nat)
    requires root != []
    ensures Walk(fs, root, false, Place(dir, parts, links)) == Walk(fs, root, false, Place(dir, Strip(parts), links))
  {
    StripTwice(parts);
    WalksAgree(fs, root, false, Place(dir, parts, links), false, Place(dir, Strip(parts), links));
  }

  /** Cleaned parts are walked as their "..", and then their names. */
  lemma WalksCleaned(fs: FileTree, root: Path, dir: Path, parts: seq<string>, u: nat, links: nat)
    requires IsClimb(PushAll([], parts), u)
    ensures Walk(fs, root, true, Place(dir, Clean(parts), links))
         == Walk(fs, root, true, Place(dir, Ups(u) + PushAll([], parts)[u..], links))
  {
    var c := PushAll([], parts);
    ClimbIsUps(c, u);
    hide PushAll, Walk;
    if c == [] {
      assert Ups(0) + c[0..] == [] && ["."][1..] == [];
      WalkUnfolds(fs, root, true, Place(dir, ["."], links));
    }
  }

  /** The walks from `dir` end in different places, and the guest's in one that exists. */
  ghost predicate Differ(fs: FileTree, root: Path, dir: Path, parts: seq<string>, links: nat) {
    var r := Walk(fs, root, true, Place(dir, Clean(parts), links)).0;
    r.Found? && r != Walk(fs, root, false, Place(dir, parts, links)).0
  }

  /** What makes the stripped walks differ makes the walks differ. */
  lemma DifferWhenCleaned(fs: FileTree, root: Path, dir: Path, parts: seq<string>, u: nat, links: nat)
    requires root != [] && IsClimb(PushAll([], parts), u)
    requires
      var r := Walk(fs, root, true, Place(dir, Ups(u) + PushAll([], parts)[u..], links)).0;
      r.Found? && r != Walk(fs, root, false, Place(dir, Strip(parts), links)).0
    ensures Differ(fs, root, dir, parts, links)
  {
    WalksCleaned(fs, root, dir, parts, u, links);
    AsWrittenIsStripped(fs, root, dir, parts, links);
    hide Walk, PushAll, Strip, Clean;
  }

  lemma MissingDiffers(fs: FileTree, root: Path, z: string, dir: Path, parts: seq<string>, k: nat,
                       names: seq<string>, rest: seq<string>, u: nat, links: nat)
    requires root != [] && IsBase(fs, root, z, dir) && IsName(z) && z !in parts
    requires names != [] && AreNames(names) && Strip(parts) == Ups(k) + (names + ([".."] + rest))
    requires k <= u && |root| + u <= |dir| && IsClimb(PushAll([], parts), u)
    requires u == k ==> !(names <= PushAll([], parts)[u..])
    ensures
      var grown := Grow(fs, dir[..|dir| - u] + PushAll([], parts)[u..], Dir);
      Extends(fs, grown) && Differ(grown, root, dir, parts, links)
  {
    var more := PushAll([], parts)[u..];
    hide Walk, PushAll, Strip, IsBase, Ups, Grow, Extends, Differ, IsClimb, IsName, AreNames;
    PartsAreFresh(parts, k, names, rest, u, z);
    MissingAsWritten(fs, root, z, dir, k, u, names, more, [".."] + rest, links);
    DifferWhenCleaned(Grow(fs, dir[..|dir| - u] + more, Dir), root, dir, parts, u, links);
  }

  lemma DeepDiffers(fs: FileTree, root: Path, z: string, dir: Path, parts: seq<string>, k: nat, names: seq<string>,
                    rest: seq<string>, last: seq<string>, links: nat) returns (grown: FileTree)
    requires root != [] && IsBase(fs, root, z, dir) && IsName(z) && z !in parts && links < MAX_LINKS
    requires names != [] && AreNames(names) && Strip(parts) == Ups(k) + (names + ([".."] + rest))
    requires |root| + k <= |dir| && IsClimb(PushAll([], parts), k) && PushAll([], parts)[k..] == names + last
    ensures Extends(fs, grown) && Differ(grown, root, dir, parts, links)
  {
    hide Walk, PushAll, Strip, IsBase, Ups, Deep, Extends, Differ, IsClimb, IsName, AreNames, NewName;
    var w := NewName(parts + [z]);
    NewNameIsNew(parts + [z]);
    assert w !in parts && w != z by { assert z in parts + [z]; }
    PartsAreFresh(parts, k, names, rest, k, z);
    PartsAreFresh(parts, k, names, rest, k, w);
    assert names[0] in names;
    SuffixAreNames(names, last);
    var below := Copies(w, |rest| + 2);
    CopiesAreNames(w, |rest| + 2);
    DeepIs(fs, root, z, dir, k, names, below, last);
    DeepIsFound(fs, root, z, dir, k, names, below, last, links);
    DeepIsLeft(fs, root, z, w, dir, k, names, last, rest, links);
    grown := Deep(fs, root, dir[..|dir| - k], names, below, last);
    DifferWhenCleaned(grown, root, dir, parts, k, links);
  }

  /** One of the two trees tells the walks apart, unless cleaning leads out of the root. */
  lemma TreeThatDiffers(fs: FileTree, root: Path, z: string, dir: Path, parts: seq<string>, k: nat,
                        names: seq<string>, rest: seq<string>, u: nat, links: nat) returns (grown: FileTree)
    requires root != [] && IsBase(fs, root, z, dir) && IsName(z) && z !in parts && links < MAX_LINKS
    requires names != [] && AreNames(names) && Strip(parts) == Ups(k) + (names + ([".."] + rest))
    requires k <= u && |root| + u <= |dir| && IsClimb(PushAll([], parts), u)
    ensures Extends(fs, grown) && Differ(grown, root, dir, parts, links)
  {
    var more := PushAll([], parts)[u..];
    hide PushAll, Strip, IsBase, Ups, Grow, Extends, Differ, IsClimb, IsName, AreNames;
    if u == k && names <= more {
      assert more == names + more[|names|..];
      grown := DeepDiffers(fs, root, z, dir, parts, k, names, rest, more[|names|..], links);
    } else {
      MissingDiffers(fs, root, z, dir, parts, k, names, rest, u, links);
      grown := Grow(fs, dir[..|dir| - u] + more, Dir);
    }
  }

  lemma SuffixAreNames(a: seq<string>, b: seq<string>)
    requires AreNames(a + b)
    ensures AreNames(b)
  {
    forall x | x in b ensures IsName(x) { assert x in a + b; }
  }

  /** A name that is not among the parts is not among their pieces either; and these are names and "..". */
  lemma PartsAreFresh(parts: seq<string>, k: nat, names: seq<string>, rest: seq<string>, u: nat, z: string)
    requires Strip(parts) == Ups(k) + (names + ([".."] + rest)) && IsClimb(PushAll([], parts), u) && z !in parts
    ensures z !in names && z !in rest && z !in PushAll([], parts)[u..] && AreNames(PushAll([], parts)[u..])
    ensures forall x | x in rest :: x == ".." || IsName(x)
  {
    var s, c := Strip(parts), PushAll([], parts);
    StripKinds(parts);
    hide Strip, PushAll, Ups;
    forall x | x in names || x in rest ensures x != z && (x == ".." || IsName(x)) {
      assert x in s;
      var i :| 0 <= i < |s| && s[i] == x;
      StripMembers(parts, x);
    }
    forall x | x in c[u..] ensures x != z && IsName(x) {
      var i :| u <= i < |c| && c[i] == x;
      PushAllMembers([], parts, x);
    }
  }

  ghost predicate SameForEveryTree(root: Path, parts: seq<string>) {
    forall fs | IsRoot(fs, root) && HasHarmlessLinks(fs) :: RefusesOrAgrees(fs, root, parts)
  }

  lemma RootIsBase(root: Path, z: string)
    ensures IsBase(Chain(root, Dir), root, z, root) && forall q | q in Chain(root, Dir) :: Chain(root, Dir)[q] == Dir
  {
    ChainIsTree(root, Dir);
    hide Chain;
  }

  lemma NamesAreStraight(parts: seq<string>)
    requires AreNames(parts)
    ensures IsStraight(parts)
  {
    forall i | 0 <= i < |parts| ensures parts[i] != ".." { assert parts[i] in parts; }
  }

  lemma ExtensionIsHarmless(a: FileTree, b: FileTree, root: Path)
    requires IsRoot(a, root) && Extends(a, b) && forall q | q in a :: a[q] == Dir
    ensures IsRoot(b, root) && HasHarmlessLinks(b)
  {
    forall p | p in b && b[p].Link? ensures IsHarmlessTarget(b[p].absolute, b[p].target) {
      NamesAreStraight(b[p].target);
    }
    hide Clean, IsStraight;
  }

  lemma OneTreeIsEnough(fs: FileTree, root: Path, parts: seq<string>)
    requires IsRoot(fs, root) && HasHarmlessLinks(fs) && Clean(parts)[0] != ".." && Differ(fs, root, root, parts, 0)
    ensures !SameForEveryTree(root, parts)
  {
    hide Walk, Clean, IsRoot, HasHarmlessLinks;
    assert !RefusesOrAgrees(fs, root, parts);
  }

  /**
    In every tree with harmless links a path is refused or resolved as it is written, exactly if it has
    no ".." after a name, or begins with ".." when it is cleaned.
   */
  lemma PathIsHarmlessIff(root: Path, parts: seq<string>)
    requires root != []
    ensures SameForEveryTree(root, parts) <==> IsHarmlessPath(parts)
  {
    if IsHarmlessPath(parts) {
      forall fs | IsRoot(fs, root) && HasHarmlessLinks(fs) ensures RefusesOrAgrees(fs, root, parts) {
        ResolvesAsWritten(fs, root, parts);
      }
    } else {
      var z := NewName(parts);
      NewNameIsNew(parts);
      RootIsBase(root, z);
      var k, names, rest := NotStraight(parts);
      var u := CleanIsClimb(parts, k, names + ([".."] + rest));
      hide Chain, PushAll, Strip, IsStraight, SameForEveryTree, IsBase, Differ, Extends, NewName;
      assert u == 0;
      var fs := TreeThatDiffers(Chain(root, Dir), root, z, root, parts, k, names, rest, u, 0);
      BaseIsInside(Chain(root, Dir), root, z, root);
      ExtensionIsHarmless(Chain(root, Dir), fs, root);
      OneTreeIsEnough(fs, root, parts);
    }
  }

  // Link targets

  /** Every link is harmless, or has this one target. */
  ghost predicate LinksAre(fs: FileTree, absolute: bool, target: seq<string>) {
    forall p | p in fs && fs[p].Link? ::
      IsHarmlessTarget(fs[p].absolute, fs[p].target) || fs[p] == Link(absolute, target)
  }

  ghost predicate SameWithTarget(root: Path, absolute: bool, target: seq<string>) {
    forall fs, parts | IsRoot(fs, root) && LinksAre(fs, absolute, target) && IsHarmlessPath(parts) ::
      RefusesOrAgrees(fs, root, parts)
  }

  /** `depth` directories called `z` below the root, and in the last of them a link, called `z` as well. */
  function LinkBelow(root: Path, z: string, depth: nat, link: Node): FileTree {
    Chain(root + Copies(z, depth) + [z], link)
  }

  lemma StillPrefix<T>(q: seq<T>, a: seq<T>, b: seq<T>)
    requires q <= a
    ensures q <= a + b && (b != [] ==> q != a + b)
  {}

  lemma LinkBelowIsBase(root: Path, z: string, depth: nat, link: Node)
    ensures
      var fs, dir := LinkBelow(root, z, depth, link), root + Copies(z, depth);
      && IsBase(fs, root, z, dir) && dir + [z] in fs && fs[dir + [z]] == link
      && forall q | q in fs && fs[q].Link? :: fs[q] == link
  {
    var dir := root + Copies(z, depth);
    ChainIsTree(dir + [z], link);
    hide Chain;
    hide Copies;
    forall q | q <= dir ensures q in LinkBelow(root, z, depth, link) && LinkBelow(root, z, depth, link)[q] == Dir {
      StillPrefix(q, dir, [z]);
    }
    StillPrefix(root, root, Copies(z, depth));
  }

  /** Both walks reach the target, one of them cleans it. */
  lemma ReachesTarget(fs: FileTree, root: Path, guest: bool, z: string, depth: nat, absolute: bool, target: seq<string>)
    requires IsName(z) && (absolute ==> depth == 0) && Extends(LinkBelow(root, z, depth, Link(absolute, target)), fs)
    ensures Walk(fs, root, guest, Place(root, Copies(z, depth) + [z], 0))
         == Walk(fs, root, guest, Place(root + Copies(z, depth), Followed(guest, target), 1))
  {
    var zs, link := Copies(z, depth), Link(absolute, target);
    CopiesAreNames(z, depth);
    LinkBelowIsBase(root, z, depth, link);
    forall i | 0 < i <= depth ensures root + zs[..i] in fs && !fs[root + zs[..i]].Link? {
      assert root + zs[..i] <= root + zs;
    }
    assert depth == 0 ==> root + zs == root;
    hide Walk, Copies, Followed, LinkBelow, IsBase, AreNames, IsName;
    WalkDown(fs, root, guest, root, zs, [z], 0);
    FollowsLink(fs, root, guest, root + zs, z, [], 0);
    assert [z] + [] == [z] && Followed(guest, target) + [] == Followed(guest, target);
  }

  lemma CopiesAreHarmless(z: string, depth: nat)
    requires IsName(z)
    ensures Clean(Copies(z, depth) + [z]) == Copies(z, depth) + [z]
    ensures IsHarmlessPath(Copies(z, depth) + [z])
    ensures (Copies(z, depth) + [z])[0] == z
  {
    var zs := Copies(z, depth) + [z];
    assert forall i | 0 <= i < |zs| :: zs[i] == z;
    assert AreNames(zs);
    NamesAreClean([], zs);
    assert [] + zs == zs;
    NamesAreStraight(zs);
    hide PushAll, IsStraight;
  }

  lemma ExtensionHasLinks(a: FileTree, b: FileTree, root: Path, absolute: bool, target: seq<string>)
    requires IsRoot(a, root) && Extends(a, b) && forall q | q in a && a[q].Link? :: a[q] == Link(absolute, target)
    ensures IsRoot(b, root) && LinksAre(b, absolute, target)
  {
    forall p | p in b && b[p].Link? && p !in a ensures IsHarmlessTarget(b[p].absolute, b[p].target) {
      NamesAreStraight(b[p].target);
    }
    hide Clean, IsStraight;
  }

  /** A tree in which the walks from the target end differently tells the difference. */
  lemma TargetDiffers(fs: FileTree, root: Path, z: string, depth: nat, absolute: bool, target: seq<string>)
    requires IsName(z) && (absolute ==> depth == 0) && Extends(LinkBelow(root, z, depth, Link(absolute, target)), fs)
    requires Differ(fs, root, root + Copies(z, depth), target, 1)
    ensures !SameWithTarget(root, absolute, target)
  {
    var a, dir := LinkBelow(root, z, depth, Link(absolute, target)), root + Copies(z, depth);
    var parts := Copies(z, depth) + [z];
    LinkBelowIsBase(root, z, depth, Link(absolute, target));
    BaseIsInside(a, root, z, dir);
    ExtensionHasLinks(a, fs, root, absolute, target);
    ReachesTarget(fs, root, true, z, depth, absolute, target);
    ReachesTarget(fs, root, false, z, depth, absolute, target);
    CopiesAreHarmless(z, depth);
    hide Walk, Clean, IsHarmlessPath, LinksAre, IsRoot, LinkBelow, IsBase, Extends, Copies;
    assert !RefusesOrAgrees(fs, root, parts);
  }

  /**
    Whether a link has this target or not, as long as its other links are harmless every tree resolves
    harmless paths as they are written or refuses them, exactly if the target has no ".." after a name,
    or is absolute and begins with ".." when it is cleaned.
   */
  lemma TargetIsHarmlessIff(root: Path, absolute: bool, target: seq<string>)
    requires root != []
    ensures SameWithTarget(root, absolute, target) <==> IsHarmlessTarget(absolute, target)
  {
    if IsHarmlessTarget(absolute, target) {
      forall fs, parts | IsRoot(fs, root) && LinksAre(fs, absolute, target) && IsHarmlessPath(parts)
        ensures RefusesOrAgrees(fs, root, parts)
      {
        assert HasHarmlessLinks(fs);
        ResolvesAsWritten(fs, root, parts);
      }
    } else {
      var z := NewName(target);
      NewNameIsNew(target);
      var k, names, rest := NotStraight(target);
      var u := CleanIsClimb(target, k, names + ([".."] + rest));
      assert absolute ==> u == 0;
      LinkBelowIsBase(root, z, u, Link(absolute, target));
      hide PushAll, Strip, IsStraight, Clean, SameWithTarget, IsBase, Differ, Extends, NewName, LinkBelow;
      var fs := TreeThatDiffers(LinkBelow(root, z, u, Link(absolute, target)), root, z, root + Copies(z, u), target,
                                k, names, rest, u, 1);
      TargetDiffers(fs, root, z, u, absolute, target);
    }
  }

  // One of the paths that are resolved

  /**
    Under "r", "bin/sh" is a link to "/l/../x", and "l" one into a directory "d"; there is a file "x"
    beside "d" and another in it.
   */
  function Example(): FileTree {
    map[[] := Dir, ["r"] := Dir, ["r", "bin"] := Dir, ["r", "bin", "sh"] := Link(true, ["l", "..", "x"]),
        ["r", "l"] := Link(false, ["d", "e"]), ["r", "x"] := File,
        ["r", "d"] := Dir, ["r", "d", "x"] := File, ["r", "d", "e"] := Dir]
  }

  lemma ExampleIsTree()
    ensures IsRoot(Example(), ["r"])
  {
    assert Parent(["r"]) == [];
    assert Parent(["r", "bin"]) == ["r"] == Parent(["r", "l"]) == Parent(["r", "x"]) == Parent(["r", "d"]);
    assert Parent(["r", "bin", "sh"]) == ["r", "bin"];
    assert Parent(["r", "d", "x"]) == ["r", "d"] == Parent(["r", "d", "e"]);
  }

  /** Both walks come to the link and follow it. */
  lemma ExampleReachesLink(guest: bool)
    ensures Walk(Example(), ["r"], guest, Place(["r"], ["bin", "sh"], 0))
         == Walk(Example(), ["r"], guest, Place(["r"], Followed(guest, ["l", "..", "x"]), 1))
  {
    hide Walk, Clean;
    assert ["bin"] + ["sh"] == ["bin", "sh"] && ["sh"] + [] == ["sh"];
    assert ["r"] + ["bin"] == ["r", "bin"] && ["r", "bin"] + ["sh"] == ["r", "bin", "sh"];
    GoesDown(Example(), ["r"], guest, ["r"], "bin", ["sh"], 0);
    FollowsLink(Example(), ["r"], guest, ["r", "bin"], "sh", [], 0);
    assert Followed(guest, ["l", "..", "x"]) + [] == Followed(guest, ["l", "..", "x"]);
  }

  lemma ExampleParts()
    ensures Clean(["bin", "sh"]) == ["bin", "sh"] && Clean(["l", "..", "x"]) == ["x"]
  {
    assert AreNames(["bin", "sh"]);
    NamesAreClean([], ["bin", "sh"]);
    assert [] + ["bin", "sh"] == ["bin", "sh"];
    var parts := ["l", "..", "x"];
    assert Push(["l"], "..") == [];
    assert parts[1..] == ["..", "x"] && parts[1..][1..] == ["x"];
    assert PushAll([], parts) == PushAll(["l"], ["..", "x"]) == PushAll([], ["x"]) == ["x"];
  }

  lemma ExampleCleaned()
    ensures Resolve(Example(), ["r"], false, ["bin", "sh"]) == Found(["r", "x"])
  {
    ExampleParts();
    hide Walk, Clean;
    ExampleReachesLink(true);
    assert ["x"] + [] == ["x"] && ["r"] + ["x"] == ["r", "x"];
    GoesDown(Example(), ["r"], true, ["r"], "x", [], 1);
    WalkEnds(Example(), ["r"], true, Place(["r", "x"], [], 1));
  }

  /** "l" leads to "d/e", the ".." back to "d". */
  lemma ExampleFollowsInnerLink()
    ensures Walk(Example(), ["r"], false, Place(["r"], ["l", "..", "x"], 1))
         == Walk(Example(), ["r"], false, Place(["r", "d"], ["x"], 2))
  {
    var fs := Example();
    assert ["l"] + ["..", "x"] == ["l", "..", "x"] && ["d", "e"] + ["..", "x"] == ["d"] + ["e", "..", "x"];
    assert ["r"] + ["l"] == ["r", "l"] && ["r"] + ["d"] == ["r", "d"] && ["r", "d"] + ["e"] == ["r", "d", "e"];
    assert ["e"] + ["..", "x"] == ["e", "..", "x"] && ["..", "x"][1..] == ["x"];
    assert Parent(["r", "d", "e"]) == ["r", "d"];
    hide Walk, Clean;
    FollowsLink(fs, ["r"], false, ["r"], "l", ["..", "x"], 1);
    GoesDown(fs, ["r"], false, ["r"], "d", ["e", "..", "x"], 2);
    GoesDown(fs, ["r"], false, ["r", "d"], "e", ["..", "x"], 2);
    WalkUnfolds(fs, ["r"], false, Place(["r", "d", "e"], ["..", "x"], 2));
  }

  lemma ExampleAsWritten()
    ensures ResolveAsWritten(Example(), ["r"], ["bin", "sh"]) == Found(["r", "d", "x"])
  {
    hide Walk;
    ExampleReachesLink(false);
    ExampleFollowsInnerLink();
    assert ["x"] + [] == ["x"] && ["r", "d"] + ["x"] == ["r", "d", "x"];
    GoesDown(Example(), ["r"], false, ["r", "d"], "x", [], 2);
    WalkEnds(Example(), ["r"], false, Place(["r", "d", "x"], [], 2));
  }

  /** For "bin/sh", cleaning its link's target finds the file beside "l" instead of the one "l" leads to. */
  lemma CleaningMayFindAnotherFile()
    ensures IsRoot(Example(), ["r"])
    ensures Resolve(Example(), ["r"], false, ["bin", "sh"]) == Found(["r", "x"])
    ensures ResolveAsWritten(Example(), ["r"], ["bin", "sh"]) == Found(["r", "d", "x"])
  {
    ExampleIsTree();
    ExampleCleaned();
    ExampleAsWritten();
    hide Example, Resolve, ResolveAsWritten, IsRoot;
  }
}
