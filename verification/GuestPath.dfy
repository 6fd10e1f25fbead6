/**
  Resolving a path inside a guest's file tree without leaving it (internal/compute/rootfs.go). A host
  path is the list of its names from the top of the host's tree.
 */
module GuestPath {
  type Path = seq<string>

  /** A link's target, split at its slashes. */
  datatype Node = File | Dir | Link(absolute: bool, target: seq<string>)

  type FileTree = map<Path, Node>

  const MAX_LINKS := 40

  predicate IsName(part: string) {
    part != "" && part != "." && part != ".."
  }

  ghost predicate AreNames(parts: seq<string>) {
    forall p | p in parts :: IsName(p)
  }

  function Parent(p: Path): Path {
    if p == [] then [] else p[..|p| - 1]
  }

  /** Everything but the top is in a directory. */
  ghost predicate IsTree(fs: FileTree) {
    forall p | p in fs && p != [] :: Parent(p) in fs && fs[Parent(p)] == Dir
  }

  /** The root has been resolved by the host already. */
  ghost predicate IsRoot(fs: FileTree, root: Path) {
    IsTree(fs) && root in fs && !fs[root].Link?
  }

  predicate Inside(root: Path, p: Path) {
    root <= p
  }

  // Cleaning

  /** One part after those in `out`. */
  function Push(out: seq<string>, part: string): seq<string> {
    if part == "" || part == "." then out
    else if part == ".." && out != [] && out[|out| - 1] != ".." then out[..|out| - 1]
    else out + [part]
  }

  function PushAll(out: seq<string>, parts: seq<string>): seq<string>
    decreases |parts|
  {
    if parts == [] then out else PushAll(Push(out, parts[0]), parts[1..])
  }

  /** filepath.Clean on a relative path: the parts of its result. */
  function Clean(parts: seq<string>): (r: seq<string>)
    ensures r != []
  {
    var out := PushAll([], parts);
    if out == [] then ["."] else out
  }

  // Walking

  datatype Result = Found(path: Path) | NotRelative | Escapes | Missing | TooManyLinks

  /** Where a walk is. */
  datatype Place = Place(current: Path, pending: seq<string>, links: nat)

  /** One round of the loop. */
  datatype Move = Stop(result: Result) | Go(place: Place)

  /**
    A guest's path is walked as the program does it: the target of a link is cleaned before it is
    followed, and leaving the root is refused. Otherwise it is walked as a system does whose own root
    this is: targets are followed as they are written, and above the root is the root.
   */
  function Step(fs: FileTree, root: Path, guest: bool, at: Place): Move
    requires at.pending != []
  {
    var part, rest := at.pending[0], at.pending[1..];
    if part == "" || part == "." then Go(at.(pending := rest))
    else if part == ".." then
      if Inside(root, Parent(at.current)) then Go(Place(Parent(at.current), rest, at.links))
      else if guest then Stop(Escapes)
      else Go(at.(pending := rest))
    else
      var next := at.current + [part];
      if next !in fs then Stop(Missing)
      else
        match fs[next]
        case Link(absolute, target) =>
          if at.links + 1 > MAX_LINKS then Stop(TooManyLinks)
          else
            var start := if absolute then root else at.current;
            Go(Place(start, (if guest then Clean(target) else target) + rest, at.links + 1))
        case _ => Go(Place(next, rest, at.links))
  }

  /** The walk from a place to its end, and how many links it has followed by then. */
  function Walk(fs: FileTree, root: Path, guest: bool, at: Place): (r: (Result, nat))
    decreases if at.links <= MAX_LINKS then MAX_LINKS + 1 - at.links else 0, |at.pending|
  {
    if at.pending == [] then
      (if Inside(root, at.current) then Found(at.current) else Escapes, at.links)
    else
      match Step(fs, root, guest, at)
      case Stop(result) => (result, at.links)
      case Go(place) => Walk(fs, root, guest, place)
  }

  /** resolveGuestPath, on the parts of the guest path. */
  function Resolve(fs: FileTree, root: Path, absolute: bool, parts: seq<string>): Result {
    if absolute then NotRelative
    else if Clean(parts)[0] == ".." then Escapes
    else Walk(fs, root, true, Place(root, Clean(parts), 0)).0
  }

  /** No link on the way from the root, and everything exists. */
  ghost predicate IsPlain(fs: FileTree, root: Path, p: Path) {
    && Inside(root, p) && AreNames(p[|root|..])
    && forall k | |root| <= k <= |p| :: p[..k] in fs && !fs[p[..k]].Link?
  }

  lemma RootIsPlain(fs: FileTree, root: Path)
    requires IsRoot(fs, root)
    ensures IsPlain(fs, root, root)
  {
    assert root[..|root|] == root;
  }

  lemma ParentIsPlain(fs: FileTree, root: Path, p: Path)
    requires IsPlain(fs, root, p) && Inside(root, Parent(p))
    ensures IsPlain(fs, root, Parent(p))
  {
    var q := Parent(p);
    forall k | |root| <= k <= |q| ensures q[..k] in fs && !fs[q[..k]].Link? {
      assert q[..k] == p[..k];
    }
    forall x | x in q[|root|..] ensures IsName(x) {
      assert x in p[|root|..];
    }
  }

  lemma ChildIsPlain(fs: FileTree, root: Path, p: Path, name: string)
    requires IsPlain(fs, root, p) && IsName(name) && p + [name] in fs && !fs[p + [name]].Link?
    ensures IsPlain(fs, root, p + [name])
  {
    var q := p + [name];
    forall k | |root| <= k <= |q| ensures q[..k] in fs && !fs[q[..k]].Link? {
      assert q[..k] == if k <= |p| then p[..k] else q;
    }
    assert q[|root|..] == p[|root|..] + [name];
  }

  lemma WalkUnfolds(fs: FileTree, root: Path, guest: bool, at: Place)
    requires at.pending != []
    ensures
      var step := Step(fs, root, guest, at);
      && (step.Stop? ==> Walk(fs, root, guest, at) == (step.result, at.links))
      && (step.Go? ==> Walk(fs, root, guest, at) == Walk(fs, root, guest, step.place))
  {}

  lemma WalkEnds(fs: FileTree, root: Path, guest: bool, at: Place)
    requires at.pending == []
    ensures Walk(fs, root, guest, at) == (if Inside(root, at.current) then Found(at.current) else Escapes, at.links)
  {}

  /** The loop never leaves the root, not even on the way, and ends on every tree, however its links go round. */
  method ResolveGuestPath(fs: FileTree, root: Path, absolute: bool, parts: seq<string>) returns (r: Result)
    requires IsRoot(fs, root)
    ensures r == Resolve(fs, root, absolute, parts)
    ensures r.Found? ==> IsPlain(fs, root, r.path)
  {
    hide IsPlain, Walk, Clean;
    if absolute {
      return NotRelative;
    }
    var clean := Clean(parts);
    if clean[0] == ".." {
      return Escapes;
    }
    var current, pending, links := root, clean, 0;
    RootIsPlain(fs, root);
    while |pending| > 0
      invariant IsPlain(fs, root, current) && links <= MAX_LINKS
      invariant Walk(fs, root, true, Place(current, pending, links)) == Walk(fs, root, true, Place(root, clean, 0))
      decreases MAX_LINKS - links, |pending|
    {
      WalkUnfolds(fs, root, true, Place(current, pending, links));
      var part := pending[0];
      pending := pending[1..];
      if part == "" || part == "." {
        continue;
      }
      if part == ".." {
        ghost var child := current;
        current := Parent(current);
        if !Inside(root, current) {
          return Escapes;
        }
        ParentIsPlain(fs, root, child);
        continue;
      }
      var next := current + [part];
      if next !in fs {
        return Missing;
      }
      if !fs[next].Link? {
        ChildIsPlain(fs, root, current, part);
        current := next;
        continue;
      }
      links := links + 1;
      if links > MAX_LINKS {
        return TooManyLinks;
      }
      if fs[next].absolute {
        current := root;
      }
      pending := Clean(fs[next].target) + pending;
    }
    WalkEnds(fs, root, true, Place(current, [], links));
    return if Inside(root, current) then Found(current) else Escapes;
  }

  // Resolving what was resolved

  lemma {:induction false} NamesAreClean(out: seq<string>, names: seq<string>)
    requires AreNames(names)
    ensures PushAll(out, names) == out + names
    decreases |names|
  {
    if names != [] {
      assert names[0] in names;
      forall x | x in names[1..] ensures IsName(x) {
        assert x in names;
      }
      NamesAreClean(out + [names[0]], names[1..]);
      assert out + [names[0]] + names[1..] == out + names;
    }
  }

  /** A path without links is walked name by name. */
  lemma {:induction false} WalkPlain(fs: FileTree, root: Path, p: Path, k: nat, links: nat)
    requires IsPlain(fs, root, p) && |root| <= k <= |p|
    ensures Walk(fs, root, true, Place(p[..k], p[k..], links)) == (Found(p), links)
    decreases |p| - k
  {
    var at := Place(p[..k], p[k..], links);
    if k == |p| {
      WalkEnds(fs, root, true, at);
      assert p[..k] == p;
    } else {
      assert p[k] in p[|root|..];
      assert p[..k] + [p[k]] == p[..k + 1] && p[k..][1..] == p[k + 1..];
      WalkUnfolds(fs, root, true, at);
      WalkPlain(fs, root, p, k + 1, links);
    }
  }

  /** The path from the root, "." for the root itself. */
  function Relative(root: Path, p: Path): seq<string>
    requires Inside(root, p)
  {
    if p == root then ["."] else p[|root|..]
  }

  lemma WalkKeepsPlain(fs: FileTree, root: Path, guest: bool, at: Place)
    requires IsRoot(fs, root) && IsPlain(fs, root, at.current)
    ensures Walk(fs, root, guest, at).0.Found? ==> IsPlain(fs, root, Walk(fs, root, guest, at).0.path)
    ensures at.links <= Walk(fs, root, guest, at).1
    decreases if at.links <= MAX_LINKS then MAX_LINKS + 1 - at.links else 0, |at.pending|
  {
    hide Walk, IsPlain, Clean;
    if at.pending == [] {
      WalkEnds(fs, root, guest, at);
    } else {
      WalkUnfolds(fs, root, guest, at);
      var step := Step(fs, root, guest, at);
      if step.Go? {
        StepKeepsPlain(fs, root, guest, at);
        WalkKeepsPlain(fs, root, guest, step.place);
      }
    }
  }

  lemma StepKeepsPlain(fs: FileTree, root: Path, guest: bool, at: Place)
    requires IsRoot(fs, root) && IsPlain(fs, root, at.current) && at.pending != [] && Step(fs, root, guest, at).Go?
    ensures IsPlain(fs, root, Step(fs, root, guest, at).place.current)
    ensures at.links <= Step(fs, root, guest, at).place.links <= at.links + 1
    ensures
      var next := Step(fs, root, guest, at).place;
      next.links == at.links ==> |next.pending| < |at.pending|
    ensures Step(fs, root, guest, at).place.links != at.links ==> at.links < MAX_LINKS
  {
    RootIsPlain(fs, root);
    hide IsPlain, Clean;
    var part := at.pending[0];
    if part == ".." && Inside(root, Parent(at.current)) {
      ParentIsPlain(fs, root, at.current);
    } else if IsName(part) && !fs[at.current + [part]].Link? {
      ChildIsPlain(fs, root, at.current, part);
    }
  }

  /** Resolving the result once more gives the result: it holds no link, and stays where it is. */
  lemma ResolveIsIdempotent(fs: FileTree, root: Path, parts: seq<string>)
    requires IsRoot(fs, root) && Resolve(fs, root, false, parts).Found?
    ensures
      var p := Resolve(fs, root, false, parts).path;
      IsPlain(fs, root, p) && Resolve(fs, root, false, Relative(root, p)) == Found(p)
  {
    RootIsPlain(fs, root);
    WalkKeepsPlain(fs, root, true, Place(root, Clean(parts), 0));
    var p := Resolve(fs, root, false, parts).path;
    WalkPlain(fs, root, p, |root|, 0);
    assert p[..|root|] == root;
    var names := p[|root|..];
    NamesAreClean([], names);
    hide IsPlain;
    if p == root {
      assert PushAll([], ["."]) == [];
      assert Walk(fs, root, true, Place(root, ["."], 0)) == Walk(fs, root, true, Place(root, [], 0));
    } else {
      assert [] + names == names && names[0] in names;
    }
  }

  // Resolving in two steps

  /** Walking one list of parts and then another is walking both in a row. */
  lemma {:induction false} WalkInTwoSteps(fs: FileTree, root: Path, guest: bool, at: Place, more: seq<string>)
    requires IsRoot(fs, root) && IsPlain(fs, root, at.current)
    ensures
      var (r, links) := Walk(fs, root, guest, at);
      Walk(fs, root, guest, at.(pending := at.pending + more)) ==
      if r.Found? then Walk(fs, root, guest, Place(r.path, more, links)) else (r, links)
    decreases if at.links <= MAX_LINKS then MAX_LINKS + 1 - at.links else 0, |at.pending|
  {
    hide Walk, IsPlain, Clean;
    var both := at.(pending := at.pending + more);
    if at.pending == [] {
      WalkEnds(fs, root, guest, at);
      PlainIsInside(fs, root, at.current);
      assert at.pending + more == more;
    } else {
      WalkUnfolds(fs, root, guest, at);
      WalkUnfolds(fs, root, guest, both);
      StepsAlike(fs, root, guest, at, more);
      var step := Step(fs, root, guest, at);
      if step.Go? {
        StepKeepsPlain(fs, root, guest, at);
        WalkInTwoSteps(fs, root, guest, step.place, more);
      }
    }
  }

  lemma PlainIsInside(fs: FileTree, root: Path, p: Path)
    requires IsPlain(fs, root, p)
    ensures Inside(root, p)
  {}

  lemma StepsAlike(fs: FileTree, root: Path, guest: bool, at: Place, more: seq<string>)
    requires at.pending != []
    ensures
      var step := Step(fs, root, guest, at);
      Step(fs, root, guest, at.(pending := at.pending + more)) ==
      if step.Go? then Go(step.place.(pending := step.place.pending + more)) else step
  {
    hide Clean;
    assert (at.pending + more)[1..] == at.pending[1..] + more;
    var next := at.current + [at.pending[0]];
    if next in fs && fs[next].Link? {
      var target := if guest then Clean(fs[next].target) else fs[next].target;
      assert target + (at.pending[1..] + more) == target + at.pending[1..] + more;
    }
  }

  // Links that go round

  /** A link to itself is given up on, wherever it is met and however it is reached. */
  lemma {:induction false} SelfLinkIsGivenUp(fs: FileTree, root: Path, guest: bool, dir: Path, name: string,
                                             rest: seq<string>, links: nat)
    requires IsName(name) && dir + [name] in fs && fs[dir + [name]] == Link(false, [name])
    ensures Walk(fs, root, guest, Place(dir, [name] + rest, links)).0 == TooManyLinks
    decreases if links <= MAX_LINKS then MAX_LINKS - links else 0
  {
    var at := Place(dir, [name] + rest, links);
    NamesAreClean([], [name]);
    assert [] + [name] == [name] && ([name] + rest)[1..] == rest;
    WalkUnfolds(fs, root, guest, at);
    if links < MAX_LINKS {
      hide Walk;
      SelfLinkIsGivenUp(fs, root, guest, dir, name, rest, links + 1);
    }
  }

  /** A walk follows at most forty links, and gives up only on one more. */
  lemma {:induction false} GivesUpAfterForty(fs: FileTree, root: Path, guest: bool, at: Place)
    requires IsRoot(fs, root) && IsPlain(fs, root, at.current) && at.links <= 40
    ensures
      var (r, links) := Walk(fs, root, guest, at);
      links <= 40 && (r == TooManyLinks ==> links == 40)
    decreases 40 - at.links, |at.pending|
  {
    hide Walk, IsPlain, Clean;
    if at.pending == [] {
      WalkEnds(fs, root, guest, at);
    } else {
      WalkUnfolds(fs, root, guest, at);
      var step := Step(fs, root, guest, at);
      if step.Go? {
        StepKeepsPlain(fs, root, guest, at);
        GivesUpAfterForty(fs, root, guest, step.place);
      }
    }
  }

  // Where links lead

  lemma {:induction false} WalkNames(fs: FileTree, root: Path, guest: bool, d: Path, names: seq<string>,
                                     rest: seq<string>, links: nat)
    requires AreNames(names) && forall k | |d| < k <= |d| + |names| :: IsThere(fs, (d + names)[..k])
    ensures Walk(fs, root, guest, Place(d, names + rest, links)) == Walk(fs, root, guest, Place(d + names, rest, links))
    decreases |names|
  {
    if names == [] {
      assert names + rest == rest && d + names == d;
    } else {
      var next, more := d + [names[0]], names[1..];
      assert next + more == d + names && (names + rest)[1..] == more + rest && (names + rest)[0] == names[0];
      assert (d + names)[..|next|] == next;
      assert names[0] in names && forall x | x in more :: x in names;
      WalkUnfolds(fs, root, guest, Place(d, names + rest, links));
      hide Walk;
      WalkNames(fs, root, guest, next, more, rest, links);
    }
  }

  /** There is something, and it is not a link. */
  predicate IsThere(fs: FileTree, p: Path) {
    p in fs && !fs[p].Link?
  }

  lemma NamesWithin(fs: FileTree, root: Path, d: Path, names: seq<string>)
    requires IsPlain(fs, root, d + names) && Inside(root, d)
    ensures AreNames(names)
  {
    var p := d + names;
    assert p[|root|..] == d[|root|..] + names;
    forall x | x in names ensures IsName(x) {
      assert x in p[|root|..];
    }
  }

  lemma WalkDown(fs: FileTree, root: Path, d: Path, names: seq<string>, rest: seq<string>, links: nat)
    requires Inside(root, d) && IsPlain(fs, root, d + names)
    ensures Walk(fs, root, true, Place(d, names + rest, links)) == Walk(fs, root, true, Place(d + names, rest, links))
  {
    NamesWithin(fs, root, d, names);
    WalkNames(fs, root, true, d, names, rest, links);
  }

  /** A path of names is resolved as it is written: down to a plain directory first, and then on. */
  lemma ResolvesFrom(fs: FileTree, root: Path, d: Path, rest: seq<string>)
    requires IsRoot(fs, root) && IsPlain(fs, root, d) && AreNames(rest) && rest != []
    ensures Resolve(fs, root, false, d[|root|..] + rest) == Walk(fs, root, true, Place(d, rest, 0)).0
  {
    var down := d[|root|..];
    var parts := down + rest;
    assert root + down == d;
    NamesAreClean([], parts);
    assert [] + parts == parts && parts[0] in parts;
    WalkDown(fs, root, root, down, rest, 0);
    hide Walk;
  }

  /** A name that is not there is missing, whatever comes after it. */
  lemma MissingIsMissing(fs: FileTree, root: Path, d: Path, name: string, rest: seq<string>)
    requires IsRoot(fs, root) && IsPlain(fs, root, d) && IsName(name) && AreNames(rest) && d + [name] !in fs
    ensures Resolve(fs, root, false, d[|root|..] + ([name] + rest)) == Missing
  {
    ResolvesFrom(fs, root, d, [name] + rest);
    hide Resolve, IsPlain;
  }

  lemma AtLink(fs: FileTree, root: Path, d: Path, name: string, absolute: bool, target: seq<string>, rest: seq<string>)
    requires IsName(name) && d + [name] in fs && fs[d + [name]] == Link(absolute, target) && Clean(target) == target
    ensures Walk(fs, root, true, Place(d, [name] + rest, 0))
         == Walk(fs, root, true, Place(if absolute then root else d, target + rest, 1))
  {
    assert ([name] + rest)[1..] == rest;
    WalkUnfolds(fs, root, true, Place(d, [name] + rest, 0));
    hide Walk, Clean;
  }

  /** A link leads to its target: an absolute one from the root, any other from the directory it is in. */
  lemma FollowsLink(fs: FileTree, root: Path, d: Path, name: string, absolute: bool, target: seq<string>,
                    rest: seq<string>)
    requires IsRoot(fs, root) && IsPlain(fs, root, d) && IsName(name)
    requires d + [name] in fs && fs[d + [name]] == Link(absolute, target) && target != []
    requires IsPlain(fs, root, (if absolute then root else d) + (target + rest))
    ensures Resolve(fs, root, false, d[|root|..] + ([name] + rest))
         == Found((if absolute then root else d) + (target + rest))
  {
    var start := if absolute then root else d;
    NamesWithin(fs, root, start, target + rest);
    forall x | x in target ensures IsName(x) {
      assert x in target + rest;
    }
    forall x | x in rest ensures IsName(x) {
      assert x in target + rest;
    }
    NamesAreClean([], target);
    assert [] + target == target;
    AtLink(fs, root, d, name, absolute, target, rest);
    ResolvesFrom(fs, root, d, [name] + rest);
    WalkDown(fs, root, start, target + rest, [], 1);
    assert target + rest + [] == target + rest;
    WalkEnds(fs, root, true, Place(start + (target + rest), [], 1));
    hide Walk, Resolve, Clean;
  }

  lemma UpIsClean(names: seq<string>)
    requires AreNames(names)
    ensures Clean([".."] + names) == [".."] + names
  {
    var up := [".."] + names;
    assert up[0] == ".." && up[1..] == names && [] + [".."] == [".."];
    assert Push([], "..") == [".."];
    assert PushAll([], up) == PushAll([".."], names);
    NamesAreClean([".."], names);
  }

  /**
    A target that begins with ".." leads on from the directory above, which the host's top directory is of itself; above
    any other root it is refused.
   */
  lemma FollowsLinkUp(fs: FileTree, root: Path, d: Path, name: string, target: seq<string>)
    requires IsRoot(fs, root) && IsPlain(fs, root, d) && IsName(name) && AreNames(target)
    requires d + [name] in fs && fs[d + [name]] == Link(false, [".."] + target)
    requires d == root != [] || IsPlain(fs, root, Parent(d) + target)
    ensures Resolve(fs, root, false, d[|root|..] + [name])
         == if d == root != [] then Escapes else Found(Parent(d) + target)
  {
    var up := [".."] + target;
    UpIsClean(target);
    AtLink(fs, root, d, name, false, up, []);
    assert [name] + [] == [name] && up + [] == up;
    ResolvesFrom(fs, root, d, [name]);
    UpOrRefused(fs, root, d, target);
    hide Walk, Resolve, Clean, IsPlain;
    if d != root || root == [] {
      WalkDown(fs, root, Parent(d), target, [], 1);
      assert target + [] == target;
      WalkEnds(fs, root, true, Place(Parent(d) + target, [], 1));
    }
  }

  lemma UpOrRefused(fs: FileTree, root: Path, d: Path, target: seq<string>)
    requires Inside(root, d)
    ensures d == root != [] ==> Walk(fs, root, true, Place(d, [".."] + target, 1)).0 == Escapes
    ensures d != root || root == [] ==>
      Inside(root, Parent(d))
      && Walk(fs, root, true, Place(d, [".."] + target, 1)) == Walk(fs, root, true, Place(Parent(d), target, 1))
  {
    assert ([".."] + target)[1..] == target;
    WalkUnfolds(fs, root, true, Place(d, [".."] + target, 1));
    hide Walk;
  }
}
