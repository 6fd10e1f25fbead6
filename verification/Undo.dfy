/**
  The change log of a turn and its undo (internal/projects/changes.go, internal/store/projects.go).
  The project's folder is a map from paths to contents.
 */
module Undo {
  import opened Text
  import Patch
  import Ranking

  type Files = map<string, string>

  datatype Action = Created | Modified | Deleted

  /** One row of the log. */
  datatype Change = Change(turn: int, path: string, action: Action, before: Option<string>, revertable: bool)

  const MAX_UNDO_BYTES := 0x10_0000
  const REVERT_LIMIT := 500
  const DEFAULT_LIMIT := 200

  function Content(files: Files, path: string): Option<string> {
    if path in files then Some(files[path]) else None
  }

  predicate TooBig(content: Option<string>) {
    content.Some? && |content.value| > MAX_UNDO_BYTES
  }

  /** What a path holds when somebody looks, and whether a file there can be read. */
  datatype Find = Find(content: Option<string>, readable: bool)

  /**
    What Snapshot keeps of it: of a file that is too big only that it existed, and of one that cannot
    be read nothing, as if there were none.
   */
  function Kept(f: Find): Option<string> {
    if TooBig(f.content) then Some("") else if f.readable then f.content else None
  }

  /** A file that is there, is not too big, and could not be read. */
  predicate IsUnread(f: Find) {
    f.content.Some? && !TooBig(f.content) && !f.readable
  }

  function RowFor(turn: int, path: string, before: Option<string>, deleted: bool): Change {
    var action := if deleted then Deleted else if before == None then Created else Modified;
    var revertable := (before.Some? || action == Created) && !(before == Some("") && action == Modified);
    Change(turn, path, action, before, revertable)
  }

  /** The flag that goes with a row says exactly whether undoing it does anything. */
  lemma RevertableMeansUndone(turn: int, path: string, before: Option<string>, deleted: bool)
    ensures
      var c := RowFor(turn, path, before, deleted);
      c.revertable <==> FixFor(c) != Leave
  {}

  // Listing

  function Limit(limit: int): (n: nat)
    ensures 0 < n <= REVERT_LIMIT
  {
    if limit <= 0 || limit > REVERT_LIMIT then DEFAULT_LIMIT else limit
  }

  /** Which rows are asked for; without a turn or a path, those of every turn or path. */
  datatype Query = Query(turn: Option<int>, path: Option<string>)

  function OfTurn(turn: int): Query {
    Query(Some(turn), None)
  }

  predicate Picks(q: Query, c: Change) {
    (q.turn.Some? ==> c.turn == q.turn.value) && (q.path.Some? ==> c.path == q.path.value)
  }

  /** The newest `n` rows that are asked for, newest first. */
  function Newest(log: seq<Change>, q: Query, n: nat): seq<Change> {
    if n == 0 || log == [] then []
    else
      var (earlier, last) := (log[..|log| - 1], log[|log| - 1]);
      if Picks(q, last) then [last] + Newest(earlier, q, n - 1) else Newest(earlier, q, n)
  }

  function ListFileChanges(log: seq<Change>, q: Query, limit: int): seq<Change> {
    Newest(log, q, Limit(limit))
  }

  // What a listing holds

  /** The row is of the turn and of the path asked for, if any. */
  predicate IsAsked(q: Query, c: Change) {
    match q
    case Query(None, None) => true
    case Query(Some(turn), None) => c.turn == turn
    case Query(None, Some(path)) => c.path == path
    case Query(Some(turn), Some(path)) => c.turn == turn && c.path == path
  }

  /** The number of rows asked for. */
  function Asked(log: seq<Change>, q: Query): nat {
    if log == [] then 0 else Asked(log[..|log| - 1], q) + if IsAsked(q, log[|log| - 1]) then 1 else 0
  }

  lemma {:induction false} NewestAre(log: seq<Change>, q: Query, n: nat, i: nat)
    requires i < |log|
    ensures |Newest(log, q, n)| == if Asked(log, q) < n then Asked(log, q) else n
    ensures Asked(log[..i], q) <= Asked(log, q) - if IsAsked(q, log[i]) then 1 else 0
    ensures
      var later := Asked(log, q) - Asked(log[..i], q) - 1;
      IsAsked(q, log[i]) && later < n ==> Newest(log, q, n)[later] == log[i]
    decreases |log|
  {
    var earlier, last := log[..|log| - 1], log[|log| - 1];
    var m := if n > 0 && Picks(q, last) then n - 1 else n;
    assert Picks(q, last) <==> IsAsked(q, last);
    if i < |earlier| {
      assert earlier[..i] == log[..i];
      NewestAre(earlier, q, m, i);
    } else if earlier != [] {
      NewestAre(earlier, q, m, 0);
    }
  }

  /**
    A listing has as many rows as its limit allows, 200 if that is not between 1 and 500, of those asked
    for; and each of them at its place, counted from the newest.
   */
  lemma ListingHolds(log: seq<Change>, q: Query, limit: int, i: nat)
    requires i < |log|
    ensures
      var (n, listed) := (if 1 <= limit <= 500 then limit else 200, ListFileChanges(log, q, limit));
      var later := Asked(log, q) - Asked(log[..i], q) - 1;
      && |listed| == (if Asked(log, q) < n then Asked(log, q) else n)
      && (IsAsked(q, log[i]) && later < n ==> 0 <= later < |listed| && listed[later] == log[i])
  {
    NewestAre(log, q, Limit(limit), i);
    hide Newest, IsAsked, Asked;
  }

  /** The oldest row of a path among rows listed newest first. */
  function Oldest(changes: seq<Change>, path: string): Option<Change> {
    if changes == [] then None
    else if changes[|changes| - 1].path == path then Some(changes[|changes| - 1])
    else Oldest(changes[..|changes| - 1], path)
  }

  // Undoing

  /** What undoing a row does to its file. */
  datatype Fix = Remove | Put(content: string) | Leave

  function FixFor(c: Change): Fix {
    if c.action == Created then Remove
    else if c.before.Some? && c.revertable then Put(c.before.value)
    else Leave
  }

  function Fixed(files: Files, path: string, fix: Fix): Files {
    match fix
    case Remove => files - {path}
    case Put(content) => files[path := content]
    case Leave => files
  }

  /** No selection means everything. */
  predicate Wanted(paths: seq<string>, path: string) {
    paths == [] || path in paths
  }

  /** `stuck` are the paths at which the file system refuses. */
  predicate IsReverted(changes: seq<Change>, paths: seq<string>, stuck: set<string>, path: string) {
    && Wanted(paths, path) && path !in stuck
    && Oldest(changes, path).Some? && FixFor(Oldest(changes, path).value) != Leave
  }

  predicate IsSkipped(changes: seq<Change>, paths: seq<string>, stuck: set<string>, path: string) {
    && Wanted(paths, path) && Oldest(changes, path).Some?
    && (path in stuck || FixFor(Oldest(changes, path).value) == Leave)
  }

  /** The content of a file after the undo. */
  function ContentAfter(files: Files, changes: seq<Change>, paths: seq<string>, stuck: set<string>,
                        path: string): Option<string>
  {
    if IsReverted(changes, paths, stuck, path) then
      match FixFor(Oldest(changes, path).value)
      case Remove => None
      case Put(content) => Some(content)
      case Leave => Content(files, path)
    else Content(files, path)
  }

  ghost predicate IsUndone(before: Files, changes: seq<Change>, paths: seq<string>, stuck: set<string>, after: Files) {
    forall path :: Content(after, path) == ContentAfter(before, changes, paths, stuck, path)
  }

  /** Neither reverted nor skipped, and as it was. */
  predicate IsUntouched(files: Files, changes: seq<Change>, paths: seq<string>, stuck: set<string>, path: string) {
    && !IsReverted(changes, paths, stuck, path) && !IsSkipped(changes, paths, stuck, path)
    && ContentAfter(files, changes, paths, stuck, path) == Content(files, path)
  }

  lemma UnlistedIsUntouched(files: Files, changes: seq<Change>, paths: seq<string>, stuck: set<string>, path: string)
    requires Oldest(changes, path) == None
    ensures IsUntouched(files, changes, paths, stuck, path)
  {}

  lemma ListedIsHandled(files: Files, changes: seq<Change>, paths: seq<string>, stuck: set<string>, path: string,
                        c: Change)
    requires Oldest(changes, path) == Some(c)
    ensures IsReverted(changes, paths, stuck, path) <==>
      Wanted(paths, path) && path !in stuck && FixFor(c) != Leave
    ensures IsSkipped(changes, paths, stuck, path) <==>
      Wanted(paths, path) && (path in stuck || FixFor(c) == Leave)
    ensures ContentAfter(files, changes, paths, stuck, path) ==
      if IsReverted(changes, paths, stuck, path) then Content(Fixed(files, path, FixFor(c)), path)
      else Content(files, path)
  {}

  /** A fix changes one file, and that one as it would have at first. */
  lemma FixedElsewhere(before: Files, files: Files, path: string, fix: Fix)
    requires Content(files, path) == Content(before, path)
    ensures Content(Fixed(files, path, fix), path) == Content(Fixed(before, path, fix), path)
    ensures forall other | other != path :: Content(Fixed(files, path, fix), other) == Content(files, other)
  {}

  /** The paths of some rows. */
  function PathsOf(changes: seq<Change>): set<string> {
    set c | c in changes :: c.path
  }

  lemma {:induction false} OldestIffListed(changes: seq<Change>, path: string)
    ensures Oldest(changes, path).Some? <==> path in PathsOf(changes)
    ensures Oldest(changes, path).Some? ==>
      Oldest(changes, path).value in changes && Oldest(changes, path).value.path == path
  {
    if changes != [] {
      var earlier, last := changes[..|changes| - 1], changes[|changes| - 1];
      OldestIffListed(earlier, path);
      assert changes == earlier + [last];
      if path in PathsOf(changes) {
        var c :| c in changes && c.path == path;
      }
    }
  }

  function TextOf(content: Option<string>): string {
    if content.Some? then content.value else ""
  }

  predicate IsShown(files: Files, changes: seq<Change>, stuck: set<string>, path: string) {
    && path !in stuck && Oldest(changes, path).Some?
    && TextOf(Oldest(changes, path).value.before) != TextOf(Content(files, path))
  }

  /** An empty diff without additions or deletions is one of equal texts. */
  lemma NoDiffIff(path: string, before: string, after: string, diff: string, additions: nat, deletions: nat,
                  truncated: bool)
    requires Patch.IsUnified(path, before, after, diff, additions, deletions, truncated)
    ensures diff == "" && additions == 0 && deletions == 0 <==> before == after
  {
    hide Patch.ApplyDiff, Patch.Names, Patch.FewestChanges, SplitLines;
    EmptySplit(before);
    EmptySplit(after);
  }

  /** What one changed file is reported as. */
  datatype FileDiff = FileDiff(
    path: string, action: Action, turn: int, diff: string, additions: nat, deletions: nat, truncated: bool,
    revertable: bool)

  /** The oldest listed content of the file against what is there now. */
  ghost predicate IsDiffOf(files: Files, changes: seq<Change>, e: FileDiff) {
    Oldest(changes, e.path).Some? &&
    var c := Oldest(changes, e.path).value;
    && e.action == (if e.path in files then c.action else Deleted) && e.turn == c.turn && e.revertable == c.revertable
    && Patch.IsUnified(e.path, TextOf(c.before), TextOf(Content(files, e.path)), e.diff, e.additions, e.deletions,
                       e.truncated)
  }

  function PathsShown(shown: seq<FileDiff>): (paths: seq<string>)
    ensures |paths| == |shown| && forall i | 0 <= i < |shown| :: paths[i] == shown[i].path
  {
    if shown == [] then [] else [shown[0].path] + PathsShown(shown[1..])
  }

  // Sorted lists of paths

  ghost predicate IsAscending(s: seq<string>) {
    forall i, j | 0 <= i < j < |s| :: Less(s[i], s[j])
  }

  ghost predicate AreDistinct(s: seq<string>) {
    forall i, j | 0 <= i < j < |s| :: s[i] != s[j]
  }

  lemma NoneAreDistinct()
    ensures AreDistinct([])
  {}

  lemma OneMoreDistinct(s: seq<string>, x: string)
    requires AreDistinct(s) && x !in s
    ensures AreDistinct(s + [x])
    ensures forall y :: y in s + [x] <==> y in s || y == x
  {}

  function TextOrder(): (string, string) -> bool {
    (a, b) => Less(a, b)
  }

  lemma InsertAt(x: string, s: seq<string>)
    requires IsAscending(s) && x !in s
    ensures IsAscending(Ranking.Insert(TextOrder(), x, s))
    decreases |s|
  {
    var r := Ranking.Insert(TextOrder(), x, s);
    if s != [] && Less(s[0], x) {
      InsertAt(x, s[1..]);
      forall j | 0 < j < |r| ensures Less(r[0], r[j]) {
        assert r[j] in r[1..];
        Ranking.InsertMembers(TextOrder(), x, s[1..], r[j]);
      }
    } else if s != [] {
      LessIsTotal(x, s[0]);
      assert s[0] in s;
      forall j | 0 < j < |r| ensures Less(x, r[j]) {
        assert r[j] == s[j - 1];
        if j > 1 {
          LessIsTransitive(x, s[0], s[j - 1]);
        }
      }
    }
  }

  lemma {:induction false} SortAscends(s: seq<string>)
    requires AreDistinct(s)
    ensures IsAscending(Ranking.Sort(TextOrder(), s))
    decreases |s|
  {
    if s != [] {
      SortAscends(s[1..]);
      Ranking.SortMembers(TextOrder(), s[1..], s[0]);
      InsertAt(s[0], Ranking.Sort(TextOrder(), s[1..]));
    }
  }

  method SortTexts(s: seq<string>) returns (r: seq<string>)
    requires AreDistinct(s)
    ensures IsAscending(r) && forall x :: x in r <==> x in s
  {
    r := Ranking.Sort(TextOrder(), s);
    SortAscends(s);
    forall x ensures x in r <==> x in s {
      Ranking.SortMembers(TextOrder(), s, x);
    }
  }

  function Joined(s: seq<string>): string {
    if s == [] then ""
    else if |s| == 1 then s[0]
    else s[0] + ", " + Joined(s[1..])
  }

  /** Each name but the first comes after a comma and a space. */
  lemma {:induction false} JoinedGrows(s: seq<string>, x: string)
    ensures Joined([x]) == x
    ensures s != [] ==> Joined(s + [x]) == Joined(s) + ", " + x
  {
    if s != [] {
      assert (s + [x])[1..] == s[1..] + [x];
      JoinedGrows(s[1..], x);
      Regrouped(s[0] + ", ", Joined(s[1..]), ", " + x);
      Regrouped(Joined(s[1..]), ", ", x);
    }
  }

  lemma Regrouped(a: string, b: string, c: string)
    ensures a + b + c == a + (b + c)
  {}

  /** Why some paths were left alone. */
  function SkipReason(skipped: seq<string>): string {
    if skipped == [] then ""
    else "the previous version of " + Joined(skipped) + " was too large to keep, so it was left alone"
  }

  /** A project's folder and the log of what its turns changed. */
  class Service {
    var files: Files
    var log: seq<Change>

    constructor (files: Files)
      ensures this.files == files && log == []
    {
      this.files, log := files, [];
    }

    /** Reads a file before it is written. */
    method Snapshot(path: string, readable: bool) returns (before: Option<string>)
      ensures before == Kept(Find(Content(files, path), readable))
    {
      if path !in files {
        return None;
      }
      if |files[path]| > MAX_UNDO_BYTES {
        return Some("");
      }
      if !readable {
        return None;
      }
      return Some(files[path]);
    }

    /** `stored` is false when the row could not be written. */
    method Record(turn: int, path: string, before: Option<string>, deleted: bool, stored: bool)
      modifies this`log
      ensures log == old(log) + if stored then [RowFor(turn, path, before, deleted)] else []
    {
      var action := Modified;
      if deleted {
        action := Deleted;
      } else if before == None {
        action := Created;
      }
      var revertable := before.Some? || action == Created;
      if before.Some? && |before.value| == 0 && action == Modified {
        revertable := false;
      }
      if stored {
        log := log + [Change(turn, path, action, before, revertable)];
      }
    }

    /** A tool's write; a file that can be written need not be readable. */
    method Write(turn: int, path: string, content: string, stored: bool, readable: bool)
      modifies this
      ensures files == old(files)[path := content]
      ensures log == old(log) +
        if stored then [RowFor(turn, path, Kept(Find(Content(old(files), path), readable)), false)] else []
    {
      var before := Snapshot(path, readable);
      files := files[path := content];
      Record(turn, path, before, false, stored);
    }

    /** A recorded deletion, which the recorder allows for and no tool makes. */
    method Delete(turn: int, path: string, stored: bool, readable: bool)
      modifies this
      ensures files == old(files) - {path}
      ensures log == old(log) +
        if stored then [RowFor(turn, path, Kept(Find(Content(old(files), path), readable)), true)] else []
    {
      var before := Snapshot(path, readable);
      files := files - {path};
      Record(turn, path, before, true, stored);
    }

    /** The oldest row of every listed path. */
    method FirstChanges(changes: seq<Change>) returns (first: map<string, Change>)
      ensures first.Keys == PathsOf(changes)
      ensures forall path | path in first :: Oldest(changes, path) == Some(first[path])
    {
      first := map[];
      for i := 0 to |changes|
        invariant first.Keys == PathsOf(changes[..i])
        invariant forall path | path in first :: Oldest(changes[..i], path) == Some(first[path])
      {
        assert changes[..i + 1] == changes[..i] + [changes[i]];
        assert changes[..i + 1][..i] == changes[..i];
        first := first[changes[i].path := changes[i]];
      }
      assert changes[..|changes|] == changes;
    }

    /** Undoes a turn, or some paths of it; an error if the turn changed nothing. */
    method RevertTurn(turn: int, paths: seq<string>, stuck: set<string>)
        returns (found: bool, reverted: seq<string>, skipped: seq<string>, reason: string)
      modifies this`files
      ensures found <==> ListFileChanges(log, OfTurn(turn), REVERT_LIMIT) != []
      ensures IsAscending(reverted) && forall path ::
        path in reverted <==> IsReverted(ListFileChanges(log, OfTurn(turn), REVERT_LIMIT), paths, stuck, path)
      ensures IsAscending(skipped) && forall path ::
        path in skipped <==> IsSkipped(ListFileChanges(log, OfTurn(turn), REVERT_LIMIT), paths, stuck, path)
      ensures reason == SkipReason(skipped)
      ensures IsUndone(old(files), ListFileChanges(log, OfTurn(turn), REVERT_LIMIT), paths, stuck, files)
    {
      var changes := ListFileChanges(log, OfTurn(turn), REVERT_LIMIT);
      reverted, skipped, reason := [], [], "";
      if |changes| == 0 {
        return false, [], [], "";
      }
      found := true;
      var first := FirstChanges(changes);
      hide Oldest, PathsOf, ListFileChanges, FixFor, Fixed, IsAscending, AreDistinct, SkipReason, IsReverted, IsSkipped,
           ContentAfter, Wanted;
      NoneAreDistinct();
      forall path ensures Oldest(changes, path).Some? <==> path in first {
        OldestIffListed(changes, path);
      }
      forall path | path !in first ensures IsUntouched(old(files), changes, paths, stuck, path) {
        UnlistedIsUntouched(old(files), changes, paths, stuck, path);
      }
      var todo := first.Keys;
      while todo != {}
        invariant todo <= first.Keys && log == old(log) && AreDistinct(reverted) && AreDistinct(skipped)
        invariant forall path ::
          path in reverted <==> path !in todo && IsReverted(changes, paths, stuck, path)
        invariant forall path ::
          path in skipped <==> path !in todo && IsSkipped(changes, paths, stuck, path)
        invariant forall path | path in todo :: Content(files, path) == Content(old(files), path)
        invariant forall path | path !in todo ::
          Content(files, path) == ContentAfter(old(files), changes, paths, stuck, path)
        decreases todo
      {
        var path :| path in todo;
        assert path !in reverted && path !in skipped;
        todo := todo - {path};
        var c := first[path];
        ListedIsHandled(old(files), changes, paths, stuck, path, c);
        if !Wanted(paths, path) {
          continue;
        }
        var fix := FixFor(c);
        if path in stuck || fix == Leave {
          OneMoreDistinct(skipped, path);
          skipped := skipped + [path];
          continue;
        }
        FixedElsewhere(old(files), files, path, fix);
        files := Fixed(files, path, fix);
        OneMoreDistinct(reverted, path);
        reverted := reverted + [path];
      }
      reverted := SortTexts(reverted);
      skipped := SortTexts(skipped);
      if |skipped| > 0 {
        reason := SkipReason(skipped);
      }
    }

    /**
      What a turn, or the project, is shown to have changed, path by path or for one path. A file that
      cannot be read counts as missing.
     */
    method Diff(q: Query, limit: int, stuck: set<string>, unreadable: set<string>) returns (shown: seq<FileDiff>)
      ensures IsAscending(PathsShown(shown)) && forall path ::
        path in PathsShown(shown) <==> IsShown(files - unreadable, ListFileChanges(log, q, limit), stuck, path)
      ensures forall e | e in shown :: IsDiffOf(files - unreadable, ListFileChanges(log, q, limit), e)
    {
      var changes := ListFileChanges(log, q, limit);
      ghost var visible := files - unreadable;
      var oldest := FirstChanges(changes);
      hide Oldest, PathsOf, ListFileChanges, Less, Patch.IsUnified;
      forall path ensures Oldest(changes, path).Some? <==> path in oldest {
        OldestIffListed(changes, path);
      }
      var order := KeysOf(oldest);
      order := SortTexts(order);
      shown := [];
      for i := 0 to |order|
        invariant forall path ::
          path in PathsShown(shown) <==> path in order[..i] && IsShown(visible, changes, stuck, path)
        invariant IsAscending(PathsShown(shown))
        invariant forall e | e in shown :: IsDiffOf(visible, changes, e)
      {
        assert order[..i + 1] == order[..i] + [order[i]];
        var path := order[i];
        if path in stuck {
          continue;
        }
        var c := oldest[path];
        var before, after, action := TextOf(c.before), "", Deleted;
        if path in files && path !in unreadable {
          after, action := files[path], c.action;
        }
        var diff, additions, deletions, truncated := Patch.Unified(path, before, after);
        NoDiffIff(path, before, after, diff, additions, deletions, truncated);
        if diff == "" && additions == 0 && deletions == 0 {
          continue;
        }
        var e := FileDiff(path, action, c.turn, diff, additions, deletions, truncated, c.revertable);
        ShowsMore(shown, e, order, i);
        shown := shown + [e];
      }
      assert order[..|order|] == order;
    }
  }

  method KeysOf(m: map<string, Change>) returns (s: seq<string>)
    ensures AreDistinct(s) && forall x :: x in s <==> x in m
  {
    s := [];
    var left := m.Keys;
    while left != {}
      invariant left <= m.Keys && AreDistinct(s) && forall x :: x in s <==> x in m && x !in left
      decreases left
    {
      var x :| x in left;
      s := s + [x];
      left := left - {x};
    }
  }

  /** One more shown path, later than those before. */
  lemma ShowsMore(shown: seq<FileDiff>, e: FileDiff, order: seq<string>, i: nat)
    requires i < |order| && order[i] == e.path && IsAscending(order) && IsAscending(PathsShown(shown))
    requires forall path | path in PathsShown(shown) :: path in order[..i]
    ensures PathsShown(shown + [e]) == PathsShown(shown) + [e.path] && IsAscending(PathsShown(shown + [e]))
  {
    var paths := PathsShown(shown);
    forall k | 0 <= k < |paths| ensures Less(paths[k], e.path) {
      assert paths[k] in paths;
      var m :| 0 <= m < i && order[m] == paths[k];
    }
    hide Less;
  }

  // Which row an undo goes back to

  function RowsOf(log: seq<Change>, q: Query): nat {
    if log == [] then 0
    else RowsOf(log[..|log| - 1], q) + if Picks(q, log[|log| - 1]) then 1 else 0
  }

  /** The row at `k` is among the newest `n` that are asked for. */
  predicate IsListed(log: seq<Change>, q: Query, n: nat, k: nat)
    requires k < |log|
  {
    Picks(q, log[k]) && RowsOf(log[k + 1..], q) < n
  }

  /** The row at `k` is the oldest listed one of its path. */
  ghost predicate IsOldestListed(log: seq<Change>, q: Query, n: nat, path: string, k: nat) {
    && k < |log| && IsListed(log, q, n, k) && log[k].path == path
    && forall j | 0 <= j < k && log[j].path == path :: !IsListed(log, q, n, j)
  }

  lemma {:induction false} RowsAdd(a: seq<Change>, b: seq<Change>, q: Query)
    ensures RowsOf(a + b, q) == RowsOf(a, q) + RowsOf(b, q)
  {
    if b == [] {
      assert a + b == a;
    } else {
      RowsAdd(a, b[..|b| - 1], q);
      assert (a + b)[..|a + b| - 1] == a + b[..|b| - 1];
    }
  }

  lemma RowsOne(c: Change, q: Query)
    ensures RowsOf([c], q) == if Picks(q, c) then 1 else 0
  {
    assert [c][..0] == [];
  }

  /** Listing one row fewer of a log that is one row shorter. */
  lemma ListedEarlier(log: seq<Change>, q: Query, n: nat, k: nat)
    requires n > 0 && k < |log| - 1
    ensures
      var last := log[|log| - 1];
      IsListed(log, q, n, k) <==> IsListed(log[..|log| - 1], q, if Picks(q, last) then n - 1 else n, k)
  {
    var earlier, last := log[..|log| - 1], log[|log| - 1];
    assert log[k + 1..] == earlier[k + 1..] + [last];
    RowsAdd(earlier[k + 1..], [last], q);
    RowsOne(last, q);
  }

  lemma OldestOfMore(c: Change, rest: seq<Change>, path: string)
    ensures Oldest([c] + rest, path) ==
      if Oldest(rest, path).Some? then Oldest(rest, path) else if c.path == path then Some(c) else None
    decreases |rest|
  {
    if rest == [] {
      assert [c] + rest == [c] && [c][..0] == [];
    } else {
      OldestOfMore(c, rest[..|rest| - 1], path);
      assert ([c] + rest)[..|[c] + rest| - 1] == [c] + rest[..|rest| - 1];
    }
  }

  /** Listing finds exactly the oldest listed row. */
  lemma {:induction false} OldestIs(log: seq<Change>, q: Query, n: nat, path: string, k: nat)
    requires IsOldestListed(log, q, n, path, k)
    ensures Oldest(Newest(log, q, n), path) == Some(log[k])
    decreases |log|
  {
    var earlier, last := log[..|log| - 1], log[|log| - 1];
    var m := if Picks(q, last) then n - 1 else n;
    if Picks(q, last) {
      OldestOfMore(last, Newest(earlier, q, m), path);
    }
    hide Oldest, RowsOf;
    if k == |log| - 1 {
      forall j | 0 <= j < |earlier| && earlier[j].path == path ensures !IsListed(earlier, q, m, j) {
        ListedEarlier(log, q, n, j);
      }
      NothingListed(earlier, q, m, path);
    } else {
      ListedEarlier(log, q, n, k);
      forall j | 0 <= j < k && earlier[j].path == path ensures !IsListed(earlier, q, m, j) {
        ListedEarlier(log, q, n, j);
      }
      OldestIs(earlier, q, m, path, k);
    }
  }

  lemma {:induction false} NothingListed(log: seq<Change>, q: Query, n: nat, path: string)
    requires forall j | 0 <= j < |log| && log[j].path == path :: !IsListed(log, q, n, j)
    ensures Oldest(Newest(log, q, n), path) == None
    decreases |log|
  {
    if n > 0 && log != [] {
      var earlier, last := log[..|log| - 1], log[|log| - 1];
      var m := if Picks(q, last) then n - 1 else n;
      assert log[|log| - 1 + 1..] == [];
      assert RowsOf([], q) == 0;
      if Picks(q, last) {
        assert !(last.path == path) by { assert IsListed(log, q, n, |log| - 1); }
        OldestOfMore(last, Newest(earlier, q, m), path);
      }
      hide Oldest, RowsOf;
      forall j | 0 <= j < |earlier| && earlier[j].path == path ensures !IsListed(earlier, q, m, j) {
        ListedEarlier(log, q, n, j);
      }
      NothingListed(earlier, q, m, path);
    }
  }

  // What rows stand for

  /** What happens to a project's folder: recorded writes and deletes, and changes nobody recorded. */
  datatype Event =
    | Write(turn: int, path: string, content: string, stored: bool, readable: bool)
    | Delete(turn: int, path: string, stored: bool, readable: bool)
    | Outside(path: string, now: Option<string>)

  /** The folder, the log, and what each row's path really held before its change. */
  datatype History = History(files: Files, log: seq<Change>, found: seq<Find>)

  function After(h: History, e: Event): History {
    match e
    case Write(turn, path, content, stored, readable) =>
      Logged(h, turn, path, false, stored, readable).(files := h.files[path := content])
    case Delete(turn, path, stored, readable) =>
      Logged(h, turn, path, true, stored, readable).(files := h.files - {path})
    case Outside(path, now) =>
      h.(files := if now.Some? then h.files[path := now.value] else h.files - {path})
  }

  function Logged(h: History, turn: int, path: string, deleted: bool, stored: bool, readable: bool): History {
    var find := Find(Content(h.files, path), readable);
    if stored then h.(log := h.log + [RowFor(turn, path, Kept(find), deleted)], found := h.found + [find]) else h
  }

  function Replay(h: History, events: seq<Event>): History {
    if events == [] then h else After(Replay(h, events[..|events| - 1]), events[|events| - 1])
  }

  /** Every row is the record of what its path held. */
  ghost predicate RowsOk(h: History) {
    |h.found| == |h.log|
    && forall k | 0 <= k < |h.log| ::
      h.log[k] == RowFor(h.log[k].turn, h.log[k].path, Kept(h.found[k]), h.log[k].action == Deleted)
  }

  lemma {:induction false} ReplayKeepsRows(h: History, events: seq<Event>)
    requires RowsOk(h)
    ensures RowsOk(Replay(h, events))
  {
    if events != [] {
      ReplayKeepsRows(h, events[..|events| - 1]);
    }
  }

  /** Of more than a mebibyte. */
  predicate IsBig(content: Option<string>) {
    content.Some? && |content.value| > 1_048_576
  }

  /** What can be undone: a creation; a change of a file neither empty nor too big; a deletion of a file. */
  predicate IsUndoable(action: Action, found: Find) {
    match action
    case Created => true
    case Modified => found.content.Some? && found.content.value != "" && !IsBig(found.content)
    case Deleted => found.content.Some? && !IsUnread(found)
  }

  /** Undoing such a row does not bring back what it found. */
  predicate LosesContent(action: Action, found: Find) {
    (action == Deleted && IsBig(found.content)) || (action == Created && IsUnread(found))
  }

  /**
    Whatever happened, undoing a turn takes a path back to what its oldest listed row found, exactly
    if that was not a file too big to keep that was then deleted, nor a file that could not be read
    and was taken to be new; and it reports the path as reverted exactly if that row can be undone.
   */
  lemma RevertIsExactIff(h: History, turn: int, paths: seq<string>, stuck: set<string>, path: string, k: nat)
    requires RowsOk(h) && IsOldestListed(h.log, OfTurn(turn), REVERT_LIMIT, path, k)
    ensures
      var changes := ListFileChanges(h.log, OfTurn(turn), REVERT_LIMIT);
      && (IsReverted(changes, paths, stuck, path) <==>
          Wanted(paths, path) && path !in stuck && IsUndoable(h.log[k].action, h.found[k]))
      && (IsReverted(changes, paths, stuck, path) ==>
          (ContentAfter(h.files, changes, paths, stuck, path) == h.found[k].content
           <==> !LosesContent(h.log[k].action, h.found[k])))
  {
    OldestIs(h.log, OfTurn(turn), REVERT_LIMIT, path, k);
    hide Oldest, Newest;
  }

  /** Every selected path that is listed is either reverted or skipped; the others are left alone. */
  lemma RevertedAndSkippedPartition(files: Files, changes: seq<Change>, paths: seq<string>, stuck: set<string>,
                                    path: string)
    ensures IsReverted(changes, paths, stuck, path) || IsSkipped(changes, paths, stuck, path)
      <==> Wanted(paths, path) && path in PathsOf(changes)
    ensures !(IsReverted(changes, paths, stuck, path) && IsSkipped(changes, paths, stuck, path))
    ensures !IsReverted(changes, paths, stuck, path) ==>
      ContentAfter(files, changes, paths, stuck, path) == Content(files, path)
  {
    OldestIffListed(changes, path);
    hide Oldest, PathsOf;
  }

  // A diff after an undo

  /** The text a diff of the rows asked for starts from, if one of them is about the path. */
  ghost predicate StartsFrom(log: seq<Change>, q: Query, limit: int, path: string, text: string) {
    exists j: nat :: IsOldestListed(log, q, Limit(limit), path, j) && TextOf(log[j].before) == text
  }

  /** Some row is listed, or none. */
  lemma OldestListed(log: seq<Change>, q: Query, n: nat, path: string) returns (found: bool, k: nat)
    ensures found ==> IsOldestListed(log, q, n, path, k)
    ensures !found ==> forall j | 0 <= j < |log| && log[j].path == path :: !IsListed(log, q, n, j)
  {
    k := 0;
    while k < |log| && !(log[k].path == path && IsListed(log, q, n, k))
      invariant k <= |log| && forall j | 0 <= j < k && log[j].path == path :: !IsListed(log, q, n, j)
    {
      k := k + 1;
    }
    found := k < |log|;
  }

  /** The oldest listed row is the only one. */
  lemma StartsFromOldest(log: seq<Change>, q: Query, limit: int, path: string)
    ensures Oldest(ListFileChanges(log, q, limit), path).Some? ==>
      forall text :: StartsFrom(log, q, limit, path, text)
                     <==> text == TextOf(Oldest(ListFileChanges(log, q, limit), path).value.before)
    ensures Oldest(ListFileChanges(log, q, limit), path).None? ==> forall text :: !StartsFrom(log, q, limit, path, text)
  {
    forall j: nat | IsOldestListed(log, q, Limit(limit), path, j)
      ensures Oldest(ListFileChanges(log, q, limit), path) == Some(log[j])
    {
      OldestIs(log, q, Limit(limit), path, j);
    }
    var found, k := OldestListed(log, q, Limit(limit), path);
    if !found {
      NothingListed(log, q, Limit(limit), path);
    }
    hide Oldest, Newest, IsOldestListed;
  }

  /**
    After an undo, a diff of the turn shows a reverted path exactly if the oldest row that the diff's
    own limit reaches kept another text than the one the undo went back to, or than none, if the file
    cannot be read now. A path of which it reaches no row is not shown.
   */
  lemma RevertedIsShownIff(h: History, turn: int, limit: int, paths: seq<string>, stuck: set<string>, after: Files,
                           unreadable: set<string>, path: string, k: nat)
    requires RowsOk(h) && IsOldestListed(h.log, OfTurn(turn), REVERT_LIMIT, path, k)
    requires IsReverted(ListFileChanges(h.log, OfTurn(turn), REVERT_LIMIT), paths, stuck, path)
    requires IsUndone(h.files, ListFileChanges(h.log, OfTurn(turn), REVERT_LIMIT), paths, stuck, after)
    ensures IsShown(after - unreadable, ListFileChanges(h.log, OfTurn(turn), limit), stuck, path) <==>
      exists text :: StartsFrom(h.log, OfTurn(turn), limit, path, text)
                     && text != if path in unreadable then "" else TextOf(h.log[k].before)
  {
    OldestIs(h.log, OfTurn(turn), REVERT_LIMIT, path, k);
    StartsFromOldest(h.log, OfTurn(turn), limit, path);
    hide Oldest, Newest, StartsFrom, IsOldestListed;
    var text := if path in unreadable then "" else TextOf(h.log[k].before);
    assert Content(after, path) == Content(Fixed(h.files, path, FixFor(h.log[k])), path);
    assert Content(after - unreadable, path) == if path in unreadable then None else Content(after, path);
    assert TextOf(Content(after - unreadable, path)) == text;
    var changes := ListFileChanges(h.log, OfTurn(turn), limit);
    if Oldest(changes, path).Some? {
      var start := TextOf(Oldest(changes, path).value.before);
      assert StartsFrom(h.log, OfTurn(turn), limit, path, start);
    }
  }

  /** So it shows no path whose oldest row is within its limit, if the file can be read. */
  lemma RevertedIsNotShown(h: History, turn: int, limit: int, paths: seq<string>, stuck: set<string>, after: Files,
                           unreadable: set<string>, path: string, k: nat)
    requires RowsOk(h) && IsOldestListed(h.log, OfTurn(turn), REVERT_LIMIT, path, k) && path !in unreadable
    requires IsOldestListed(h.log, OfTurn(turn), Limit(limit), path, k)
    requires IsReverted(ListFileChanges(h.log, OfTurn(turn), REVERT_LIMIT), paths, stuck, path)
    requires IsUndone(h.files, ListFileChanges(h.log, OfTurn(turn), REVERT_LIMIT), paths, stuck, after)
    ensures !IsShown(after - unreadable, ListFileChanges(h.log, OfTurn(turn), limit), stuck, path)
  {
    RevertedIsShownIff(h, turn, limit, paths, stuck, after, unreadable, path, k);
    StartsFromOldest(h.log, OfTurn(turn), limit, path);
    hide Oldest, Newest, IsOldestListed, IsShown, IsReverted, IsUndone;
    assert StartsFrom(h.log, OfTurn(turn), limit, path, TextOf(h.log[k].before));
  }

  // What tools record

  /** No row that is in the log came from a deletion. */
  lemma {:induction false} WritesLeaveNoDeletions(h: History, events: seq<Event>)
    requires forall c | c in h.log :: c.action != Deleted
    requires forall e | e in events :: !e.Delete?
    ensures forall c | c in Replay(h, events).log :: c.action != Deleted
  {
    if events != [] {
      assert events[|events| - 1] in events;
      WritesLeaveNoDeletions(h, events[..|events| - 1]);
    }
  }

  /**
    What tools do: as long as nothing is recorded but writes, a reverted path holds exactly what its
    oldest listed row found, whatever its size, unless that was a file that could not be read.
   */
  lemma WritesRevertExactlyIff(files: Files, events: seq<Event>, turn: int, paths: seq<string>, stuck: set<string>,
                               path: string, k: nat)
    requires forall e | e in events :: !e.Delete?
    requires IsOldestListed(Replay(Beginning(files), events).log, OfTurn(turn), REVERT_LIMIT, path, k)
    requires
      IsReverted(ListFileChanges(Replay(Beginning(files), events).log, OfTurn(turn), REVERT_LIMIT), paths, stuck, path)
    ensures
      var h := Replay(Beginning(files), events);
      var undone := ContentAfter(h.files, ListFileChanges(h.log, OfTurn(turn), REVERT_LIMIT), paths, stuck, path);
      && |h.found| == |h.log|
      && (undone == h.found[k].content <==> !IsUnread(h.found[k]))
  {
    var h := Replay(Beginning(files), events);
    ReplayKeepsRows(Beginning(files), events);
    WritesLeaveNoDeletions(Beginning(files), events);
    RevertIsExactIff(h, turn, paths, stuck, path, k);
    hide Replay, ListFileChanges, ContentAfter, IsReverted;
    assert h.log[k] in h.log;
    assert IsUnread(h.found[k]) ==> h.log[k].action == Created;
  }

  // A whole turn

  /** A change that the turn made and that was recorded. */
  predicate IsOf(e: Event, turn: int) {
    (e.Write? || e.Delete?) && e.turn == turn && e.stored
  }

  ghost predicate AllOf(events: seq<Event>, turn: int) {
    forall e | e in events :: IsOf(e, turn)
  }

  function Beginning(files: Files): History {
    History(files, [], [])
  }

  /** What the event found. */
  function FoundBy(files: Files, events: seq<Event>, i: nat): Find
    requires i < |events| && !events[i].Outside?
  {
    Find(Content(Replay(Beginning(files), events[..i]).files, events[i].path), events[i].readable)
  }

  /** The log has one row for each change, and each found what was there by then. */
  lemma {:induction false} LogFollowsEvents(files: Files, events: seq<Event>, turn: int, i: nat)
    requires AllOf(events, turn) && i < |events|
    ensures !events[i].Outside?
    ensures
      var h := Replay(Beginning(files), events);
      && |h.log| == |h.found| == |events| && h.found[i] == FoundBy(files, events, i)
      && h.log[i] == RowFor(turn, events[i].path, Kept(h.found[i]), events[i].Delete?)
  {
    var earlier, last := events[..|events| - 1], events[|events| - 1];
    assert last in events && events[i] in events;
    LogLength(files, earlier, turn);
    if i < |earlier| {
      LogFollowsEvents(files, earlier, turn, i);
      assert earlier[..i] == events[..i];
    }
    hide RowFor, Kept;
  }

  lemma {:induction false} LogLength(files: Files, events: seq<Event>, turn: int)
    requires AllOf(events, turn)
    ensures |Replay(Beginning(files), events).log| == |Replay(Beginning(files), events).found| == |events|
  {
    if events != [] {
      assert events[|events| - 1] in events;
      LogLength(files, events[..|events| - 1], turn);
    }
  }

  /** A path that no event is about keeps its content. */
  lemma {:induction false} Untouched(files: Files, events: seq<Event>, path: string)
    requires forall e | e in events :: e.path != path
    ensures Content(Replay(Beginning(files), events).files, path) == Content(files, path)
  {
    if events != [] {
      assert events[|events| - 1] in events;
      Untouched(files, events[..|events| - 1], path);
    }
  }

  ghost predicate IsFirstOf(events: seq<Event>, path: string, k: nat) {
    k < |events| && events[k].path == path && forall j | 0 <= j < k :: events[j].path != path
  }

  lemma {:induction false} FewRows(log: seq<Change>, q: Query)
    ensures RowsOf(log, q) <= |log|
  {
    if log != [] {
      FewRows(log[..|log| - 1], q);
    }
  }

  /** In a turn of at most 500 changes, the undo goes back to the path's first change, and so to what the turn found. */
  lemma FirstChangeIsTheOldest(files: Files, events: seq<Event>, turn: int, path: string, k: nat)
    requires AllOf(events, turn) && |events| <= REVERT_LIMIT && IsFirstOf(events, path, k)
    ensures !events[k].Outside?
    ensures
      var h := Replay(Beginning(files), events);
      var find := Find(Content(files, path), events[k].readable);
      && IsOldestListed(h.log, OfTurn(turn), REVERT_LIMIT, path, k) && |h.found| == |h.log|
      && h.found[k] == find && h.log[k].action == RowFor(turn, path, Kept(find), events[k].Delete?).action
  {
    var h := Replay(Beginning(files), events);
    LogFollowsEvents(files, events, turn, k);
    Untouched(files, events[..k], path);
    FewRows(h.log[k + 1..], OfTurn(turn));
    forall j | 0 <= j < k ensures h.log[j].path != path {
      LogFollowsEvents(files, events, turn, j);
    }
    hide Replay, Kept;
  }

  /** Whether the first change of a path can be undone, and what it found comes back. */
  predicate ComesBack(first: Event, found: Option<string>)
    requires !first.Outside?
  {
    if found == None then first.Write?
    else first.readable && !IsBig(found) && (first.Delete? || found.value != "")
  }

  /** Reported as reverted, but not brought back: a deleted file too big to keep, or a changed one that was not read. */
  predicate IsLost(first: Event, found: Option<string>)
    requires !first.Outside?
  {
    if first.Delete? then IsBig(found) else IsUnread(Find(found, first.readable))
  }

  /**
    After a turn of at most 500 recorded changes, undoing it brings a changed path back to what the
    turn found exactly if its first change comes back, or it cannot be undone, is left alone, and
    holds the same anyway.
   */
  lemma TurnIsUndoneIff(files: Files, events: seq<Event>, turn: int, path: string, k: nat)
    requires AllOf(events, turn) && |events| <= REVERT_LIMIT && IsFirstOf(events, path, k)
    ensures !events[k].Outside?
    ensures
      var h := Replay(Beginning(files), events);
      var changes := ListFileChanges(h.log, OfTurn(turn), REVERT_LIMIT);
      ContentAfter(h.files, changes, [], {}, path) == Content(files, path) <==>
        || ComesBack(events[k], Content(files, path))
        || (!IsLost(events[k], Content(files, path)) && Content(h.files, path) == Content(files, path))
  {
    var h := Replay(Beginning(files), events);
    ReplayKeepsRows(Beginning(files), events);
    FirstChangeIsTheOldest(files, events, turn, path, k);
    RevertIsExactIff(h, turn, [], {}, path, k);
    RevertedAndSkippedPartition(h.files, ListFileChanges(h.log, OfTurn(turn), REVERT_LIMIT), [], {}, path);
    hide Replay, ListFileChanges, ContentAfter, IsReverted, IsSkipped;
  }

  /** Every file the turn found and changed is kept whole, and it deletes only what is there. */
  ghost predicate Keepable(files: Files, events: seq<Event>) {
    && (forall p, k: nat | p in files && IsFirstOf(events, p, k) ::
          !events[k].Outside? && events[k].readable && files[p] != "" && !IsBig(Some(files[p])))
    && forall k | 0 <= k < |events| && events[k].Delete? ::
      events[k].path in Replay(Beginning(files), events[..k]).files
  }

  lemma FirstTouch(events: seq<Event>, path: string) returns (touched: bool, k: nat)
    ensures touched ==> IsFirstOf(events, path, k)
    ensures !touched ==> forall e | e in events :: e.path != path
  {
    k := 0;
    while k < |events| && events[k].path != path
      invariant k <= |events| && forall j | 0 <= j < k :: events[j].path != path
    {
      k := k + 1;
    }
    touched := k < |events|;
  }

  /** Undoing such a turn as a whole gives back the folder it found. */
  lemma TurnIsUndone(files: Files, events: seq<Event>, turn: int, after: Files)
    requires AllOf(events, turn) && |events| <= REVERT_LIMIT && Keepable(files, events)
    requires
      var h := Replay(Beginning(files), events);
      IsUndone(h.files, ListFileChanges(h.log, OfTurn(turn), REVERT_LIMIT), [], {}, after)
    ensures after == files
  {
    var h := Replay(Beginning(files), events);
    var changes := ListFileChanges(h.log, OfTurn(turn), REVERT_LIMIT);
    hide ListFileChanges, ContentAfter;
    forall path ensures Content(after, path) == Content(files, path) {
      var touched, k := FirstTouch(events, path);
      if touched {
        TurnIsUndoneIff(files, events, turn, path, k);
        Untouched(files, events[..k], path);
      } else {
        Untouched(files, events, path);
        NothingToUndo(files, events, turn, path);
      }
    }
    SameContents(after, files);
  }

  /** A turn that only wrote: whole again if the files it changed could be read and are neither empty nor too big. */
  lemma TurnOfWritesIsUndone(files: Files, events: seq<Event>, turn: int, after: Files)
    requires AllOf(events, turn) && |events| <= REVERT_LIMIT && forall e | e in events :: e.Write?
    requires forall p, k: nat | p in files && IsFirstOf(events, p, k) ::
      events[k].readable && files[p] != "" && !IsBig(Some(files[p]))
    requires
      var h := Replay(Beginning(files), events);
      IsUndone(h.files, ListFileChanges(h.log, OfTurn(turn), REVERT_LIMIT), [], {}, after)
    ensures after == files
  {
    hide Replay, ListFileChanges, IsUndone, AllOf, TooBig;
    forall k | 0 <= k < |events| ensures events[k].Write? {
      assert events[k] in events;
    }
    TurnIsUndone(files, events, turn, after);
  }

  lemma SameContents(a: Files, b: Files)
    requires forall path :: Content(a, path) == Content(b, path)
    ensures a == b
  {
    forall path ensures path in a <==> path in b {
      assert Content(a, path) == Content(b, path);
    }
    forall path | path in a ensures a[path] == b[path] {
      assert Content(a, path) == Content(b, path);
    }
  }

  lemma NothingToUndo(files: Files, events: seq<Event>, turn: int, path: string)
    requires AllOf(events, turn) && forall e | e in events :: e.path != path
    ensures
      var h := Replay(Beginning(files), events);
      ContentAfter(h.files, ListFileChanges(h.log, OfTurn(turn), REVERT_LIMIT), [], {}, path) == Content(h.files, path)
  {
    var h := Replay(Beginning(files), events);
    LogLength(files, events, turn);
    forall j | 0 <= j < |h.log| ensures h.log[j].path != path {
      LogFollowsEvents(files, events, turn, j);
      assert events[j] in events;
    }
    NothingListed(h.log, OfTurn(turn), REVERT_LIMIT, path);
    hide Replay;
  }

  // Inputs at which an undo falls short

  /** The folder with one file, the events, and what the undo lists. */
  function Listed(content: string, path: string, events: seq<Event>, turn: int): seq<Change> {
    ListFileChanges(Replay(Beginning(map[path := content]), events).log, OfTurn(turn), REVERT_LIMIT)
  }

  /**
    A file too big to keep that is deleted: the undo reports it as reverted, writes an empty file in
    its place, and a diff of the turn shows nothing.
   */
  lemma BigDeletedFileIsLost(content: string, turn: int, path: string, readable: bool)
    requires |content| > 1_048_576
    ensures
      var changes := Listed(content, path, [Delete(turn, path, true, readable)], turn);
      && IsReverted(changes, [], {}, path)
      && ContentAfter(map[], changes, [], {}, path) == Some("")
      && !IsShown(map[path := ""], changes, {}, path)
  {
    OneRowListed(content, path, Delete(turn, path, true, readable), turn);
    hide ListFileChanges, Replay, Listed;
  }

  /** A file that can be written but not read: it is recorded as new, and the undo removes it. */
  lemma UnreadableFileIsRemoved(content: string, text: string, turn: int, path: string)
    requires |content| <= 1_048_576
    ensures
      var changes := Listed(content, path, [Write(turn, path, text, true, false)], turn);
      && IsReverted(changes, [], {}, path)
      && ContentAfter(map[path := text], changes, [], {}, path) == None
  {
    OneRowListed(content, path, Write(turn, path, text, true, false), turn);
    hide ListFileChanges, Replay, Listed;
  }

  /** An empty file that is changed: the undo leaves it changed and says that it was too large to keep. */
  lemma EmptyFileIsCalledTooLarge(text: string, turn: int, path: string, skipped: seq<string>)
    requires text != ""
    requires IsAscending(skipped) && forall p ::
      p in skipped <==> IsSkipped(Listed("", path, [Write(turn, path, text, true, true)], turn), [], {}, p)
    ensures
      var changes := Listed("", path, [Write(turn, path, text, true, true)], turn);
      ContentAfter(map[path := text], changes, [], {}, path) == Some(text) != Some("")
    ensures SkipReason(skipped) == "the previous version of " + path + " was too large to keep, so it was left alone"
  {
    OneRowListed("", path, Write(turn, path, text, true, true), turn);
    hide ListFileChanges, Replay, Listed;
    assert path in skipped;
    forall i | 0 <= i < |skipped| ensures skipped[i] == path {
      assert skipped[i] in skipped;
    }
    assert |skipped| > 1 ==> Less(skipped[0], skipped[1]);
    LessIsIrreflexive(path);
    assert skipped == [path];
  }

  /** What the undo lists after one recorded event on that file. */
  lemma OneRowListed(content: string, path: string, e: Event, turn: int)
    requires IsOf(e, turn) && e.path == path
    ensures
      var row := RowFor(turn, path, Kept(Find(Some(content), e.readable)), e.Delete?);
      && Listed(content, path, [e], turn) == [row] && Oldest([row], path) == Some(row)
      && forall p | p != path :: Oldest([row], p) == None
  {
    var h := Beginning(map[path := content]);
    assert [e][..|[e]| - 1] == [] && Replay(h, []) == h;
    var row := RowFor(turn, path, Kept(Find(Some(content), e.readable)), e.Delete?);
    assert After(h, e).log == [row];
    assert [row][..|[row]| - 1] == [];
    assert Newest([], OfTurn(turn), REVERT_LIMIT - 1) == [] && [row] + [] == [row];
  }

  /** The same text written again and again. */
  function Again(n: nat, turn: int, path: string, text: string): seq<Event> {
    seq(n, i => Write(turn, path, text, true, true))
  }

  /**
    A file written 201 times in a turn: the undo takes it back, and a diff of the turn that asks for
    no particular number of rows shows it nevertheless.
   */
  lemma LongTurnIsShown(content: string, text: string, turn: int, path: string, after: Files)
    requires content != text && content != "" && |content| <= 1_048_576 && |text| <= 1_048_576
    requires
      var h := Replay(Beginning(map[path := content]), Again(201, turn, path, text));
      IsUndone(h.files, ListFileChanges(h.log, OfTurn(turn), REVERT_LIMIT), [], {}, after)
    ensures
      var h := Replay(Beginning(map[path := content]), Again(201, turn, path, text));
      && IsReverted(ListFileChanges(h.log, OfTurn(turn), REVERT_LIMIT), [], {}, path) && after == map[path := content]
      && IsShown(after, ListFileChanges(h.log, OfTurn(turn), 0), {}, path)
  {
    var files, events := map[path := content], Again(201, turn, path, text);
    var h := Replay(Beginning(files), events);
    ReplayKeepsRows(Beginning(files), events);
    WrittenAgain(201, turn, path, text);
    hide Replay, Again, Newest, Oldest, AllOf, IsFirstOf;
    FirstChangeIsTheOldest(files, events, turn, path, 0);
    SecondRow(files, events, turn, path, text);
    RevertIsExactIff(h, turn, [], {}, path, 0);
    RevertedIsShownIff(h, turn, 0, [], {}, after, {}, path, 0);
    assert StartsFrom(h.log, OfTurn(turn), 0, path, text);
    assert after - {} == after;
    assert Content(after, path) == Some(content);
    OnlyOnePath(files, events, turn, path, after);
  }

  lemma WrittenAgain(n: nat, turn: int, path: string, text: string)
    requires n > 0
    ensures
      var events := Again(n, turn, path, text);
      && AllOf(events, turn) && IsFirstOf(events, path, 0)
      && forall i | 0 <= i < n :: events[i] == Write(turn, path, text, true, true)
  {}

  /** Elsewhere such a turn changes nothing, and its undo neither. */
  lemma OnlyOnePath(files: Files, events: seq<Event>, turn: int, path: string, after: Files)
    requires AllOf(events, turn) && forall e | e in events :: e.path == path
    requires Content(after, path) == Content(files, path)
    requires
      var h := Replay(Beginning(files), events);
      IsUndone(h.files, ListFileChanges(h.log, OfTurn(turn), REVERT_LIMIT), [], {}, after)
    ensures after == files
  {
    forall p | p != path ensures Content(after, p) == Content(files, p) {
      NothingToUndo(files, events, turn, p);
      Untouched(files, events, p);
    }
    hide Replay, ListFileChanges, ContentAfter, Content;
    SameContents(after, files);
  }

  /** The oldest of the 200 rows that the diff lists is the second, and it kept what the first write wrote. */
  lemma SecondRow(files: Files, events: seq<Event>, turn: int, path: string, text: string)
    requires |events| == 201 && AllOf(events, turn) && |text| <= 1_048_576
    requires forall i | 0 <= i < |events| :: events[i] == Write(turn, path, text, true, true)
    ensures
      var h := Replay(Beginning(files), events);
      IsOldestListed(h.log, OfTurn(turn), Limit(0), path, 1) && h.log[1].before == Some(text)
  {
    var h := Replay(Beginning(files), events);
    LogFollowsEvents(files, events, turn, 0);
    LogFollowsEvents(files, events, turn, 1);
    assert events[..1][..0] == events[..0] && events[..1][0] == events[0];
    FewRows(h.log[2..], OfTurn(turn));
    forall i | 0 <= i < |h.log| ensures Picks(OfTurn(turn), h.log[i]) {
      LogFollowsEvents(files, events, turn, i);
    }
    AllRows(h.log[1..], OfTurn(turn));
    hide Replay;
  }

  lemma {:induction false} AllRows(log: seq<Change>, q: Query)
    requires forall i | 0 <= i < |log| :: Picks(q, log[i])
    ensures RowsOf(log, q) == |log|
  {
    if log != [] {
      AllRows(log[..|log| - 1], q);
    }
  }
}
