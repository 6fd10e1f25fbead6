/**
  The task table shared by all schedulers (internal/store/tasks.go), statement by statement.
  Times are microseconds; PyTime.TextOrderIsTimeOrder says why comparing the stored text compares
  these numbers.
 */
module Leasing {
  import opened Text

  datatype Status = Active | Completed | Cancelled

  datatype Row = Row(status: Status, due: Option<int>, lease: Option<int>, lastRun: Option<int>)

  datatype RunStatus = Running | Success | Failed

  datatype Run = Run(task: int, status: RunStatus)

  /** What the scheduler's query asks of a row: active, due, and not under an unexpired lease. */
  predicate Claimable(row: Row, now: int) {
    && row.status == Active && row.due.Some? && row.due.value <= now
    && (row.lease.None? || row.lease.value < now)
  }

  /** The query's order: by due time, then by id. */
  predicate Before(tasks: map<int, Row>, x: int, y: int)
    requires x in tasks && y in tasks
  {
    && tasks[x].due.Some? && tasks[y].due.Some?
    && (tasks[x].due.value < tasks[y].due.value || (tasks[x].due.value == tasks[y].due.value && x < y))
  }

  ghost predicate AllClaimable(tasks: map<int, Row>, now: int, ids: seq<int>) {
    forall k | 0 <= k < |ids| :: ids[k] in tasks && Claimable(tasks[ids[k]], now)
  }

  /** The first `limit` claimable tasks in order, and no others. */
  ghost predicate IsSelection(tasks: map<int, Row>, now: int, limit: nat, ids: seq<int>) {
    && |ids| <= limit
    && AllClaimable(tasks, now, ids)
    && (forall j, k | 0 <= j < k < |ids| :: Before(tasks, ids[j], ids[k]))
    && (forall id | id in tasks && Claimable(tasks[id], now) && id !in ids :: |ids| == limit)
    && (forall id, k | id in tasks && Claimable(tasks[id], now) && id !in ids && 0 <= k < |ids| ::
          Before(tasks, ids[k], id))
  }

  /** Active, due by now, and not under a lease that still runs. */
  predicate IsFree(row: Row, now: int) {
    match row
    case Row(Active, Some(due), None, _) => due <= now
    case Row(Active, Some(due), Some(lease), _) => due <= now && lease < now
    case _ => false
  }

  /** Task `x` has waited longer than `y`, or as long and has the smaller number. */
  predicate WaitsLonger(tasks: map<int, Row>, x: int, y: int)
    requires x in tasks && y in tasks && tasks[x].due.Some? && tasks[y].due.Some?
  {
    var (a, b) := (tasks[x].due.value, tasks[y].due.value);
    a <= b && (a == b ==> x < y)
  }

  /** The free tasks that have waited longest, up to the limit, longest first. */
  ghost predicate AreMostOverdue(tasks: map<int, Row>, now: int, limit: nat, ids: seq<int>) {
    && |ids| <= limit
    && (forall k | 0 <= k < |ids| :: ids[k] in tasks && IsFree(tasks[ids[k]], now))
    && (forall j, k | 0 <= j < k < |ids| :: WaitsLonger(tasks, ids[j], ids[k]))
    && forall id | id in tasks && IsFree(tasks[id], now) && id !in ids ::
         |ids| == limit && forall k | 0 <= k < |ids| :: WaitsLonger(tasks, ids[k], id)
  }

  lemma FreeIsClaimable(row: Row, now: int)
    ensures IsFree(row, now) <==> Claimable(row, now)
  {}

  /** What the query selects are the tasks that have waited longest. */
  lemma SelectionIsMostOverdue(tasks: map<int, Row>, now: int, limit: nat, ids: seq<int>)
    requires IsSelection(tasks, now, limit, ids)
    ensures AreMostOverdue(tasks, now, limit, ids)
  {
    forall id | id in tasks ensures IsFree(tasks[id], now) <==> Claimable(tasks[id], now) {
      FreeIsClaimable(tasks[id], now);
    }
    hide IsFree, Claimable;
    forall id | id in tasks && IsFree(tasks[id], now) ensures tasks[id].due.Some? {
      FreeIsDue(tasks[id], now);
    }
    forall j, k | 0 <= j < k < |ids| ensures WaitsLonger(tasks, ids[j], ids[k]) {
      assert Before(tasks, ids[j], ids[k]);
    }
    forall id, k | id in tasks && IsFree(tasks[id], now) && id !in ids && 0 <= k < |ids|
      ensures WaitsLonger(tasks, ids[k], id)
    {
      assert Before(tasks, ids[k], id);
    }
  }

  lemma FreeIsDue(row: Row, now: int)
    requires IsFree(row, now)
    ensures row.due.Some?
  {}

  // When a task can be claimed after each statement

  /** A task that finished can be claimed once its next run is due, unless it was cancelled or has no next run. */
  lemma ClaimableAfterFinish(tasks: map<int, Row>, task: int, next: Option<int>, now: int)
    requires task in tasks
    ensures Claimable(Finish(tasks, task, next)[task], now) <==>
      tasks[task].status != Cancelled && next.Some? && next.value <= now
  {}

  /** An active task made due now can be claimed at once, unless it is leased. */
  lemma ClaimableAfterRunNow(tasks: map<int, Row>, task: int, now: int)
    requires task in tasks && tasks[task].status == Active
    ensures Claimable(RunNow(tasks, task, now - 1_000_000)[task], now) <==>
      tasks[task].lease.None? || tasks[task].lease.value < now
  {}

  /** A task whose lease was released can be claimed if it is active and due; a cancelled one never. */
  lemma ClaimableAfterReleaseAndCancel(tasks: map<int, Row>, task: int, now: int)
    requires task in tasks
    ensures Claimable(Release(tasks, task)[task], now) <==>
      tasks[task].status == Active && tasks[task].due.Some? && tasks[task].due.value <= now
    ensures !Claimable(Cancel(tasks, task)[task], now)
    ensures tasks[task].status != Cancelled ==> Cancel(tasks, task)[task].lease == None
  {}

  function WithLeases(tasks: map<int, Row>, ids: seq<int>, until: int): map<int, Row> {
    map id | id in tasks :: if id in ids then tasks[id].(lease := Some(until)) else tasks[id]
  }

  /** The row after its run finished; a task cancelled meanwhile stays cancelled. */
  function Finished(row: Row, next: Option<int>): Row {
    row.(status := if row.status == Cancelled then Cancelled else if next.None? then Completed else Active,
         due := next, lease := None)
  }

  /** Applies `f` to one row, if it is there. */
  function Update(tasks: map<int, Row>, task: int, f: Row -> Row): map<int, Row> {
    if task in tasks then tasks[task := f(tasks[task])] else tasks
  }

  function Touch(tasks: map<int, Row>, task: int, now: int): map<int, Row> {
    Update(tasks, task, (row: Row) => row.(lastRun := Some(now)))
  }

  function Finish(tasks: map<int, Row>, task: int, next: Option<int>): map<int, Row> {
    Update(tasks, task, (row: Row) => Finished(row, next))
  }

  function Release(tasks: map<int, Row>, task: int): map<int, Row> {
    Update(tasks, task, (row: Row) => row.(lease := None))
  }

  function Cancel(tasks: map<int, Row>, task: int): map<int, Row> {
    Update(tasks, task, (row: Row) => if row.status == Cancelled then row else row.(status := Cancelled, lease := None))
  }

  function RunNow(tasks: map<int, Row>, task: int, next: int): map<int, Row> {
    Update(tasks, task, (row: Row) => if row.status == Active then row.(due := Some(next)) else row)
  }

  /** The run's row after it ended, if it is there. */
  function Recorded(runs: map<int, Run>, run: int, ok: bool): map<int, Run> {
    if run in runs then runs[run := runs[run].(status := if ok then Success else Failed)] else runs
  }

  /** The table. Each method is one statement or one transaction. */
  class TaskStore {
    var tasks: map<int, Row>
    var runs: map<int, Run>
    var nextRun: int

    constructor ()
      ensures tasks == map[] && runs == map[] && nextRun == 1
    {
      tasks, runs, nextRun := map[], map[], 1;
    }

    method CreateTask(task: int, due: int)
      modifies this`tasks
      ensures tasks == old(tasks)[task := Row(Active, Some(due), None, None)]
    {
      tasks := tasks[task := Row(Active, Some(due), None, None)];
    }

    /** Claims the first due tasks. */
    method LeaseDueTasks(now: int, lease: int, limit: nat) returns (ids: seq<int>)
      modifies this`tasks
      ensures IsSelection(old(tasks), now, limit, ids) && AreMostOverdue(old(tasks), now, limit, ids)
      ensures tasks == WithLeases(old(tasks), ids, now + lease)
    {
      ids := SelectDue(tasks, now, limit);
      SelectionIsMostOverdue(tasks, now, limit, ids);
      ghost var before := tasks;
      var k := 0;
      while k < |ids|
        invariant 0 <= k <= |ids| && tasks == WithLeases(before, ids[..k], now + lease)
      {
        assert ids[k] in tasks;
        tasks := tasks[ids[k] := tasks[ids[k]].(lease := Some(now + lease))];
        assert ids[..k + 1] == ids[..k] + [ids[k]];
        k := k + 1;
      }
      assert ids[..|ids|] == ids;
    }

    /** The first of StartTaskRun's two statements. */
    method InsertRun(task: int) returns (run: int)
      modifies this`runs, this`nextRun
      ensures run == old(nextRun) && nextRun == run + 1 && runs == old(runs)[run := Run(task, Running)]
    {
      run := nextRun;
      runs, nextRun := runs[run := Run(task, Running)], run + 1;
    }

    /** The second: notes when the task last ran. */
    method TouchTask(task: int, now: int)
      modifies this`tasks
      ensures tasks == Touch(old(tasks), task, now)
    {
      if task in tasks {
        tasks := tasks[task := tasks[task].(lastRun := Some(now))];
      }
    }

    /** Records a run's outcome and the task's next run; without a next run the task is complete. */
    method FinishTaskRun(run: int, task: int, ok: bool, next: Option<int>)
      modifies this`tasks, this`runs
      ensures runs == Recorded(old(runs), run, ok)
      ensures tasks == Finish(old(tasks), task, next)
    {
      if run in runs {
        runs := runs[run := runs[run].(status := if ok then Success else Failed)];
      }
      if task in tasks {
        var row := tasks[task];
        var status := if next.None? then Completed else Active;
        if row.status == Cancelled {
          status := Cancelled;
        }
        tasks := tasks[task := Row(status, next, None, row.lastRun)];
      }
    }

    method ReleaseTaskLease(task: int)
      modifies this`tasks
      ensures tasks == Release(old(tasks), task)
    {
      if task in tasks {
        tasks := tasks[task := tasks[task].(lease := None)];
      }
    }

    /** Cancels a task unless it is missing or cancelled already. */
    method CancelTask(task: int) returns (found: bool)
      modifies this`tasks
      ensures found <==> task in old(tasks) && old(tasks)[task].status != Cancelled
      ensures tasks == Cancel(old(tasks), task)
    {
      found := task in tasks && tasks[task].status != Cancelled;
      if found {
        tasks := tasks[task := tasks[task].(status := Cancelled, lease := None)];
      }
    }

    /** Makes an active task due at `next`. */
    method SetTaskNextRun(task: int, next: int) returns (found: bool)
      modifies this`tasks
      ensures found <==> task in old(tasks) && old(tasks)[task].status == Active
      ensures tasks == RunNow(old(tasks), task, next)
    {
      found := task in tasks && tasks[task].status == Active;
      if found {
        tasks := tasks[task := tasks[task].(due := Some(next))];
      }
    }
  }

  /** The query: repeatedly the earliest claimable task not yet taken. */
  method SelectDue(tasks: map<int, Row>, now: int, limit: nat) returns (ids: seq<int>)
    ensures IsSelection(tasks, now, limit, ids)
  {
    ids := [];
    var left := set id | id in tasks && Claimable(tasks[id], now);
    while |ids| < limit && left != {}
      invariant |ids| <= limit
      invariant forall id :: id in left <==> id in tasks && Claimable(tasks[id], now) && id !in ids
      invariant AllClaimable(tasks, now, ids)
      invariant forall j, k | 0 <= j < k < |ids| :: Before(tasks, ids[j], ids[k])
      invariant forall id, k | id in left && 0 <= k < |ids| :: Before(tasks, ids[k], id)
      decreases left
    {
      var least := Earliest(tasks, now, left);
      left := left - {least};
      ids := ids + [least];
    }
  }

  lemma NonEmpty(s: set<int>)
    ensures s != {} <==> exists x :: x in s
  {
    if forall x :: x !in s {
      assert s == {};
    }
  }

  method Earliest(tasks: map<int, Row>, now: int, left: set<int>) returns (least: int)
    requires left != {}
    requires forall id | id in left :: id in tasks && Claimable(tasks[id], now)
    ensures least in left
    ensures forall id | id in left && id != least :: Before(tasks, least, id)
  {
    NonEmpty(left);
    least :| least in left;
    var others := left - {least};
    while others != {}
      invariant others <= left && least in left && least !in others
      invariant forall id | id in left && id !in others && id != least :: Before(tasks, least, id)
      decreases others
    {
      NonEmpty(others);
      var id :| id in others;
      others := others - {id};
      if Before(tasks, id, least) {
        least := id;
      }
    }
  }

  /** The query has one answer. */
  lemma SelectionIsUnique(tasks: map<int, Row>, now: int, limit: nat, xs: seq<int>, ys: seq<int>)
    requires IsSelection(tasks, now, limit, xs) && IsSelection(tasks, now, limit, ys)
    ensures xs == ys
  {
    SelectionPrefix(tasks, now, limit, xs, ys, |xs|);
    SelectionPrefix(tasks, now, limit, ys, xs, |ys|);
  }

  lemma {:induction false} SelectionPrefix(tasks: map<int, Row>, now: int, limit: nat, xs: seq<int>, ys: seq<int>,
                                           n: nat)
    requires IsSelection(tasks, now, limit, xs) && IsSelection(tasks, now, limit, ys) && n <= |xs|
    ensures n <= |ys| && forall k | 0 <= k < n :: xs[k] == ys[k]
  {
    if n > 0 {
      SelectionPrefix(tasks, now, limit, xs, ys, n - 1);
      var x := xs[n - 1];
      if n > |ys| {
        NotExhausted(tasks, now, limit, xs, ys, n - 1);
      } else if x != ys[n - 1] {
        NotEarlier(tasks, now, limit, xs, ys, n - 1);
        NotEarlier(tasks, now, limit, ys, xs, n - 1);
      }
    }
  }

  lemma NotExhausted(tasks: map<int, Row>, now: int, limit: nat, xs: seq<int>, ys: seq<int>, n: nat)
    requires IsSelection(tasks, now, limit, xs) && IsSelection(tasks, now, limit, ys)
    requires n < |xs| && n <= |ys| && forall k | 0 <= k < n :: xs[k] == ys[k]
    ensures |ys| > n
  {
    if |ys| == n {
      ClaimableAt(tasks, now, xs, n);
      NotAmongEarlier(tasks, xs, ys, n);
      LeftOut(tasks, now, limit, ys, xs[n]);
    }
  }

  /** A claimable task is left out only when the limit is reached. */
  lemma LeftOut(tasks: map<int, Row>, now: int, limit: nat, ids: seq<int>, id: int)
    requires IsSelection(tasks, now, limit, ids)
    requires id in tasks && Claimable(tasks[id], now) && id !in ids
    ensures |ids| == limit
  {}

  lemma ClaimableAt(tasks: map<int, Row>, now: int, xs: seq<int>, n: nat)
    requires AllClaimable(tasks, now, xs) && n < |xs|
    ensures xs[n] in tasks && Claimable(tasks[xs[n]], now)
  {}

  lemma NotAmongEarlier(tasks: map<int, Row>, xs: seq<int>, ys: seq<int>, n: nat)
    requires n < |xs| && |ys| == n && forall k | 0 <= k < n :: xs[k] == ys[k]
    requires forall k | 0 <= k < |xs| :: xs[k] in tasks
    requires forall j, k | 0 <= j < k < |xs| :: Before(tasks, xs[j], xs[k])
    ensures xs[n] !in ys
  {
    forall k | 0 <= k < |ys|
      ensures ys[k] != xs[n]
    {
      assert Before(tasks, xs[k], xs[n]);
    }
  }

  /** With the same predecessors, neither selection's next task comes before the other's. */
  lemma NotEarlier(tasks: map<int, Row>, now: int, limit: nat, xs: seq<int>, ys: seq<int>, n: nat)
    requires IsSelection(tasks, now, limit, xs) && IsSelection(tasks, now, limit, ys)
    requires n < |xs| && n < |ys| && forall k | 0 <= k < n :: xs[k] == ys[k]
    ensures !Before(tasks, xs[n], ys[n])
  {
    if xs[n] in ys {
      var k :| 0 <= k < |ys| && ys[k] == xs[n];
      assert k >= n;
    }
  }
}
