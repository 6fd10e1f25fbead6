/**
  Any number of schedulers over one task table and one clock (internal/tasks/scheduler.go): every
  interleaving of their statements, and what holds after each.
 */
module LeaseRuns {
  import opened Text
  import opened Leasing
  import LeapDay
  import Schedule

  /** How far the execution of a claimed task has come. */
  datatype Stage = Claimed | Inserted(run: int) | Started(run: int)

  /** An execution in flight: the task it runs and the lease it was given. */
  datatype Execution = Execution(task: int, lease: int, stage: Stage)

  /** What a task is to do when: its kind, its schedule and the offset of its zone. */
  datatype Job = Job(kind: Schedule.TaskType, plan: Schedule.Plan, off: int)

  datatype System = System(
    now: int, jobs: map<int, Job>, tasks: map<int, Row>, runs: map<int, Run>, nextRun: int, flying: seq<Execution>)

  /** One atomic step. An execution is named by its place in the list of those in flight. */
  datatype Step =
    | Tick(time: nat)                              // the clock moves on
    | Create(task: int, job: Job, due: int)
    | Lease(ids: seq<int>, limit: nat, lease: nat) // a scheduler claims what is due
    | InsertRun(e: nat)                            // StartTaskRun, first statement
    | MarkStarted(e: nat)                          // StartTaskRun, second statement
    | GiveUp(e: nat, released: bool)               // StartTaskRun failed; the release may fail too
    | Finish(e: nat, ok: bool, next: Option<int>)  // the run ended and was recorded
    | Vanish(e: nat)                               // recording failed, or the process died
    | Cancel(task: int)
    | RunNow(task: int)

  predicate Enabled(s: System, step: Step) {
    match step
    case Tick(_) => true
    case Create(task, _, _) => task !in s.tasks
    case Lease(_, _, _) => true
    case InsertRun(e) => e < |s.flying| && s.flying[e].stage == Claimed
    case MarkStarted(e) => e < |s.flying| && s.flying[e].stage.Inserted?
    case GiveUp(e, _) => e < |s.flying| && !s.flying[e].stage.Started?
    case Finish(e, _, _) => e < |s.flying| && s.flying[e].stage.Started?
    case Vanish(e) => e < |s.flying|
    case Cancel(_) => true
    case RunNow(_) => true
  }

  /** The next run after an execution: none for a one-time task, else what the schedule says now. */
  ghost predicate IsNextRun(j: Job, now: int, next: Option<int>) {
    if j.kind == Schedule.OneTime then next == None
    else
      exists a :: Schedule.IsNext(j.kind, j.plan, j.off, now * NANOS_IN_MICRO, true, a) && a != Schedule.Crash
                  && next == if a.At? then Some(a.instant / NANOS_IN_MICRO) else None
  }

  const NANOS_IN_MICRO := 1_000
  const MICROS_IN_SECOND := 1_000_000

  /** The due time of a new task: what the schedule says, if creation accepts it. */
  ghost predicate IsFirstDue(j: Job, now: int, due: int) {
    exists first ::
      Schedule.IsFirstRun(j.kind, j.plan, j.off, now * NANOS_IN_MICRO, first) && due == first / NANOS_IN_MICRO
  }

  /**
    A task is created with its first run; a lease step claims what the query selects; a finished
    execution asks the schedule for the next run.
   */
  ghost predicate Allowed(s: System, step: Step) {
    && Enabled(s, step)
    && (step.Create? ==> IsFirstDue(step.job, s.now, step.due))
    && (step.Lease? ==> IsSelection(s.tasks, s.now, step.limit, step.ids))
    && (step.Finish? ==>
        var task := s.flying[step.e].task;
        task in s.jobs && IsNextRun(s.jobs[task], s.now, step.next))
  }

  function Without<T>(xs: seq<T>, k: nat): seq<T>
    requires k < |xs|
  {
    xs[..k] + xs[k + 1..]
  }

  function Launched(ids: seq<int>, until: int): seq<Execution> {
    seq(|ids|, k requires 0 <= k < |ids| => Execution(ids[k], until, Claimed))
  }

  function Apply(s: System, step: Step): System
    requires Enabled(s, step)
  {
    match step
    case Tick(time) => s.(now := s.now + time)
    case Create(task, job, due) =>
      s.(jobs := s.jobs[task := job], tasks := s.tasks[task := Row(Active, Some(due), None, None)])
    case Lease(ids, _, lease) =>
      s.(tasks := WithLeases(s.tasks, ids, s.now + lease), flying := s.flying + Launched(ids, s.now + lease))
    case InsertRun(e) =>
      var x := s.flying[e];
      s.(runs := s.runs[s.nextRun := Run(x.task, Running)], nextRun := s.nextRun + 1,
         flying := s.flying[e := x.(stage := Inserted(s.nextRun))])
    case MarkStarted(e) =>
      var x := s.flying[e];
      s.(tasks := Touch(s.tasks, x.task, s.now), flying := s.flying[e := x.(stage := Started(x.stage.run))])
    case GiveUp(e, released) =>
      s.(tasks := if released then Release(s.tasks, s.flying[e].task) else s.tasks, flying := Without(s.flying, e))
    case Finish(e, ok, next) =>
      var x := s.flying[e];
      s.(runs := Recorded(s.runs, x.stage.run, ok),
         tasks := Leasing.Finish(s.tasks, x.task, next), flying := Without(s.flying, e))
    case Vanish(e) => s.(flying := Without(s.flying, e))
    case Cancel(task) => s.(tasks := Leasing.Cancel(s.tasks, task))
    case RunNow(task) => s.(tasks := Leasing.RunNow(s.tasks, task, s.now - MICROS_IN_SECOND))
  }

  /** All schedulers on one table and one clock. Each step is what its statements do. */
  class Schedulers {
    const store: TaskStore
    var now: int
    var jobs: map<int, Job>
    var flying: seq<Execution>

    function Value(): System
      reads this, store
    {
      System(now, jobs, store.tasks, store.runs, store.nextRun, flying)
    }

    constructor (now: int)
      ensures Fresh(Value()) && Value().now == now && Value().nextRun == 1 && fresh(store)
    {
      store := new TaskStore();
      this.now, jobs, flying := now, map[], [];
    }

    /** The query has one answer, so a claim takes what the step says. */
    method Perform(step: Step)
      requires Allowed(Value(), step)
      modifies this, store
      ensures Value() == Apply(old(Value()), step)
    {
      hide IsNextRun, IsFirstDue, IsSelection;
      match step {
        case Tick(time) =>
          now := now + time;
        case Create(task, job, due) =>
          jobs := jobs[task := job];
          store.CreateTask(task, due);
        case Lease(ids, limit, lease) =>
          var due := store.LeaseDueTasks(now, lease, limit);
          SelectionIsUnique(old(store.tasks), now, limit, due, ids);
          flying := flying + Launched(due, now + lease);
        case InsertRun(e) =>
          var run := store.InsertRun(flying[e].task);
          flying := flying[e := flying[e].(stage := Inserted(run))];
        case MarkStarted(e) =>
          store.TouchTask(flying[e].task, now);
          flying := flying[e := flying[e].(stage := Started(flying[e].stage.run))];
        case GiveUp(e, released) =>
          if released {
            store.ReleaseTaskLease(flying[e].task);
          }
          flying := Without(flying, e);
        case Finish(e, ok, next) =>
          store.FinishTaskRun(flying[e].stage.run, flying[e].task, ok, next);
          flying := Without(flying, e);
        case Vanish(e) =>
          flying := Without(flying, e);
        case Cancel(task) =>
          var _ := store.CancelTask(task);
        case RunNow(task) =>
          var _ := store.SetTaskNextRun(task, now - MICROS_IN_SECOND);
      }
    }
  }

  /** Every execution in flight is still within its lease. */
  ghost predicate InTime(s: System) {
    forall k | 0 <= k < |s.flying| :: s.now <= s.flying[k].lease
  }

  /** The steps lead from `s` to `t`. */
  ghost predicate Leads(s: System, steps: seq<Step>, t: System)
    decreases |steps|
  {
    if steps == [] then s == t
    else Allowed(s, steps[0]) && Leads(Apply(s, steps[0]), steps[1..], t)
  }

  /** The steps lead from `s` to `t`, and no execution outlives its lease on the way. */
  ghost predicate LeadsInTime(s: System, steps: seq<Step>, t: System)
    decreases |steps|
  {
    InTime(s) &&
    if steps == [] then s == t
    else Allowed(s, steps[0]) && LeadsInTime(Apply(s, steps[0]), steps[1..], t)
  }

  ghost predicate Fresh(s: System) {
    s.jobs == map[] && s.tasks == map[] && s.runs == map[] && s.flying == []
  }

  /** No task has two executions in flight. */
  ghost predicate Exclusive(s: System) {
    forall j, k | 0 <= j < k < |s.flying| :: s.flying[j].task != s.flying[k].task
  }

  /** The task of an execution in flight is still under that execution's lease, or cancelled. */
  ghost predicate HoldsLease(s: System, x: Execution) {
    && x.task in s.tasks
    && (s.tasks[x.task].status == Cancelled
        || (s.tasks[x.task].status == Active && s.tasks[x.task].lease == Some(x.lease)))
  }

  ghost predicate Inv(s: System) {
    Exclusive(s) && forall k | 0 <= k < |s.flying| :: HoldsLease(s, s.flying[k])
  }

  /** With the invariant, a task in flight can be claimed again exactly when its lease has run out. */
  lemma ClaimableInFlightIff(s: System, k: nat)
    requires Inv(s) && k < |s.flying|
    ensures
      var x := s.flying[k];
      Claimable(s.tasks[x.task], s.now) <==>
        && s.tasks[x.task].status == Active && s.tasks[x.task].due.Some? && s.tasks[x.task].due.value <= s.now
        && x.lease < s.now
  {
    assert HoldsLease(s, s.flying[k]);
  }

  /** A claim takes a task whose execution in flight has outlived its lease. */
  ghost predicate Reclaims(s: System, step: Step) {
    step.Lease? && exists k :: 0 <= k < |s.flying| && s.flying[k].task in step.ids && s.flying[k].lease < s.now
  }

  /** Every step but such a claim keeps the invariant, whether or not executions outlive their leases. */
  lemma StepKeepsInv(s: System, step: Step)
    requires Inv(s) && Allowed(s, step) && !Reclaims(s, step)
    ensures Inv(Apply(s, step))
  {
    hide IsNextRun, IsFirstDue;
    match step {
      case Tick(_) =>
      case Create(_, _, _) =>
      case Lease(_, _, _) => LeaseKeepsInv(s, step);
      case InsertRun(e) =>
      case MarkStarted(e) =>
      case GiveUp(e, _) => EndKeepsInv(s, Apply(s, step), e);
      case Finish(e, _, _) => EndKeepsInv(s, Apply(s, step), e);
      case Vanish(e) => EndKeepsInv(s, Apply(s, step), e);
      case Cancel(_) =>
      case RunNow(_) =>
    }
  }

  lemma LeaseKeepsInv(s: System, step: Step)
    requires Inv(s) && Allowed(s, step) && step.Lease? && !Reclaims(s, step)
    ensures Inv(Apply(s, step))
  {
    forall k | 0 <= k < |s.flying|
      ensures s.flying[k].task !in step.ids
    {
      ClaimableInFlightIff(s, k);
    }
    SelectedAreDistinct(s, step.ids, step.limit);
  }

  lemma SelectedAreDistinct(s: System, ids: seq<int>, limit: nat)
    requires IsSelection(s.tasks, s.now, limit, ids)
    ensures forall j, k | 0 <= j < k < |ids| :: ids[j] != ids[k]
  {
    forall j, k | 0 <= j < k < |ids|
      ensures ids[j] != ids[k]
    {
      assert Before(s.tasks, ids[j], ids[k]);
    }
  }

  /** Ending one execution touches no other task's row. */
  lemma EndKeepsInv(s: System, t: System, e: nat)
    requires Inv(s) && e < |s.flying| && t.flying == Without(s.flying, e)
    requires t.tasks.Keys == s.tasks.Keys
    requires forall id | id in s.tasks && id != s.flying[e].task :: t.tasks[id] == s.tasks[id]
    ensures Inv(t)
  {
    forall k | 0 <= k < |t.flying|
      ensures HoldsLease(t, t.flying[k])
    {
      var j := if k < e then k else k + 1;
      assert t.flying[k] == s.flying[j] && HoldsLease(s, s.flying[j]);
    }
  }

  /** No state on the way has a task twice in flight. */
  ghost predicate AlwaysExclusive(s: System, steps: seq<Step>)
    decreases |steps|
  {
    Exclusive(s) && (steps == [] || !Enabled(s, steps[0]) || AlwaysExclusive(Apply(s, steps[0]), steps[1..]))
  }

  /** No claim on the way takes a task whose execution has outlived its lease. */
  ghost predicate NeverReclaims(s: System, steps: seq<Step>)
    decreases |steps|
  {
    steps == [] || !Enabled(s, steps[0])
    || (!Reclaims(s, steps[0]) && NeverReclaims(Apply(s, steps[0]), steps[1..]))
  }

  /** Such a claim is the only way to execute a task twice at once. */
  lemma {:induction false} ExclusiveIff(s: System, steps: seq<Step>, t: System)
    requires Inv(s) && Leads(s, steps, t)
    ensures AlwaysExclusive(s, steps) <==> NeverReclaims(s, steps)
    ensures NeverReclaims(s, steps) ==> Inv(t)
    decreases |steps|
  {
    if steps != [] {
      hide Reclaims, Apply, Allowed, Exclusive;
      InvIsExclusive(s);
      if Reclaims(s, steps[0]) {
        ReclaimBreaksExclusivity(s, steps[0]);
      } else {
        AllowedIsEnabled(s, steps[0]);
        StepKeepsInv(s, steps[0]);
        ExclusiveIff(Apply(s, steps[0]), steps[1..], t);
      }
    } else {
      InvIsExclusive(s);
    }
  }

  lemma InvIsExclusive(s: System)
    requires Inv(s)
    ensures Exclusive(s)
  {}

  lemma AllowedIsEnabled(s: System, step: Step)
    requires Allowed(s, step)
    ensures Enabled(s, step)
  {}

  lemma ReclaimBreaksExclusivity(s: System, step: Step)
    requires Inv(s) && Allowed(s, step) && Reclaims(s, step)
    ensures Enabled(s, step) && !Exclusive(Apply(s, step))
  {
    ClaimDuplicatesIff(s, step.ids, step.limit, step.lease);
  }

  lemma FreshKeepsInv(s: System)
    requires Fresh(s)
    ensures Inv(s)
  {}

  /**
    Over every run from an empty table, with any number of schedulers: no task is ever in flight twice
    exactly if no claim takes a task whose execution has outlived its lease.
   */
  lemma NeverTwiceInFlightIff(s: System, steps: seq<Step>, t: System)
    requires Fresh(s) && Leads(s, steps, t)
    ensures AlwaysExclusive(s, steps) <==> NeverReclaims(s, steps)
  {
    FreshKeepsInv(s);
    ExclusiveIff(s, steps, t);
  }

  /** In particular no task is in flight twice if every execution ends before its lease. */
  lemma {:induction false} InTimeNeverReclaims(s: System, steps: seq<Step>, t: System)
    requires LeadsInTime(s, steps, t)
    ensures NeverReclaims(s, steps) && Leads(s, steps, t)
    decreases |steps|
  {
    if steps != [] {
      hide Apply, Allowed;
      AllowedIsEnabled(s, steps[0]);
      InTimeNeverReclaims(Apply(s, steps[0]), steps[1..], t);
    }
  }

  /** A cancelled task stays cancelled, and its row stays, whatever happens. */
  lemma {:induction false} CancelledStays(s: System, steps: seq<Step>, t: System, task: int)
    requires Leads(s, steps, t) && task in s.tasks && s.tasks[task].status == Cancelled
    ensures task in t.tasks && t.tasks[task].status == Cancelled
    decreases |steps|
  {
    if steps != [] {
      var u := Apply(s, steps[0]);
      if steps[0].Lease? {
        assert AllClaimable(s.tasks, s.now, steps[0].ids);
      }
      assert task in u.tasks && u.tasks[task].status == Cancelled;
      CancelledStays(u, steps[1..], t, task);
    }
  }

  /** A finishing execution makes its completed task active again. */
  ghost predicate Revives(s: System, step: Step, task: int) {
    && step.Finish? && step.e < |s.flying| && s.flying[step.e].task == task
    && task in s.tasks && s.tasks[task].status == Completed && step.next.Some?
  }

  /** Nothing else does, and nothing revives a cancelled task. */
  lemma RevivesIff(s: System, step: Step, task: int)
    requires Allowed(s, step) && task in s.tasks && s.tasks[task].status != Active
    ensures task in Apply(s, step).tasks
    ensures Apply(s, step).tasks[task].status == Active <==> Revives(s, step, task)
  {
    hide IsNextRun, IsFirstDue;
    if step.Lease? {
      assert AllClaimable(s.tasks, s.now, step.ids);
    }
  }

  ghost predicate NeverActive(s: System, steps: seq<Step>, task: int)
    decreases |steps|
  {
    && task in s.tasks && s.tasks[task].status != Active
    && (steps == [] || !Enabled(s, steps[0]) || NeverActive(Apply(s, steps[0]), steps[1..], task))
  }

  ghost predicate NeverRevived(s: System, steps: seq<Step>, task: int)
    decreases |steps|
  {
    steps == [] || !Enabled(s, steps[0])
    || (!Revives(s, steps[0], task) && NeverRevived(Apply(s, steps[0]), steps[1..], task))
  }

  /** A task that is over stays so, exactly if no execution of it finishes, after it completed, with a next run. */
  lemma {:induction false} StaysOverIff(s: System, steps: seq<Step>, t: System, task: int)
    requires Leads(s, steps, t) && task in s.tasks && s.tasks[task].status != Active
    ensures NeverActive(s, steps, task) <==> NeverRevived(s, steps, task)
    decreases |steps|
  {
    if steps != [] {
      hide Apply, Allowed, Revives;
      AllowedIsEnabled(s, steps[0]);
      RevivesIff(s, steps[0], task);
      if !Revives(s, steps[0], task) {
        StaysOverIff(Apply(s, steps[0]), steps[1..], t, task);
      }
    }
  }

  /** A one-time task that is over is never active again, whatever overruns: it has no next run. */
  lemma {:induction false} OneTimeStaysOver(s: System, steps: seq<Step>, t: System, task: int)
    requires Leads(s, steps, t) && task in s.tasks && s.tasks[task].status != Active
    requires task in s.jobs && s.jobs[task].kind == Schedule.OneTime
    ensures NeverActive(s, steps, task)
    decreases |steps|
  {
    if steps != [] {
      OneTimeStep(s, steps[0], task);
      hide Apply, Allowed;
      AllowedIsEnabled(s, steps[0]);
      OneTimeStaysOver(Apply(s, steps[0]), steps[1..], t, task);
    }
  }

  lemma OneTimeStep(s: System, step: Step, task: int)
    requires Allowed(s, step) && task in s.tasks && s.tasks[task].status != Active
    requires task in s.jobs && s.jobs[task].kind == Schedule.OneTime
    ensures
      var t := Apply(s, step);
      task in t.tasks && t.tasks[task].status != Active && task in t.jobs && t.jobs[task] == s.jobs[task]
  {
    RevivesIff(s, step, task);
    hide Schedule.IsNext, IsFirstDue;
  }

  /** A task in flight is not completed. */
  lemma InvRevivesNothing(s: System, step: Step, task: int)
    requires Inv(s) && Allowed(s, step)
    ensures !Revives(s, step, task)
  {
    if step.Finish? {
      assert HoldsLease(s, s.flying[step.e]);
    }
  }

  /** So nothing is revived as long as no claim takes a task whose execution has outlived its lease. */
  lemma {:induction false} NoReclaimNoRevival(s: System, steps: seq<Step>, t: System, task: int)
    requires Inv(s) && Leads(s, steps, t) && NeverReclaims(s, steps)
    ensures NeverRevived(s, steps, task)
    decreases |steps|
  {
    if steps != [] {
      hide Apply, Allowed, Revives, Reclaims, Inv;
      AllowedIsEnabled(s, steps[0]);
      InvRevivesNothing(s, steps[0], task);
      StepKeepsInv(s, steps[0]);
      NoReclaimNoRevival(Apply(s, steps[0]), steps[1..], t, task);
    }
  }

  /**
    From an empty table, a task that is over at some point of a run without such claims is never
    active again.
   */
  lemma CompletedNeverReactivates(s: System, before: seq<Step>, u: System, steps: seq<Step>, t: System, task: int)
    requires Fresh(s) && Leads(s, before, u) && NeverReclaims(s, before)
    requires Leads(u, steps, t) && NeverReclaims(u, steps)
    requires task in u.tasks && u.tasks[task].status != Active
    ensures NeverActive(u, steps, task)
  {
    FreshKeepsInv(s);
    ExclusiveIff(s, before, u);
    NoReclaimNoRevival(u, steps, t, task);
    StaysOverIff(u, steps, t, task);
  }

  /**
    A claim breaks exclusivity exactly when it takes a task in flight, and that task's execution
    has then outlived its lease.
   */
  lemma ClaimDuplicatesIff(s: System, ids: seq<int>, limit: nat, lease: nat)
    requires Inv(s) && IsSelection(s.tasks, s.now, limit, ids)
    ensures
      !Exclusive(Apply(s, Lease(ids, limit, lease))) <==>
        exists k :: 0 <= k < |s.flying| && s.flying[k].task in ids && s.flying[k].lease < s.now
  {
    var t := Apply(s, Lease(ids, limit, lease));
    SelectedAreDistinct(s, ids, limit);
    forall k | 0 <= k < |s.flying| && s.flying[k].task in ids
      ensures s.flying[k].lease < s.now && !Exclusive(t)
    {
      ClaimableInFlightIff(s, k);
      var i :| 0 <= i < |ids| && ids[i] == s.flying[k].task;
      assert t.flying[k] == s.flying[k] && t.flying[|s.flying| + i].task == ids[i];
    }
  }

  // Executions that outlive their leases

  const MICROS_IN_MINUTE := 60_000_000
  const HOUR := 60 * MICROS_IN_MINUTE

  /** Midnight of every 29 February, in the zone of UTC. */
  function LeapDays(): Job {
    Job(Schedule.Periodic, LeapDay.Midnights(), 0)
  }

  /** The day before 29 February 2096. */
  function Creation(): int {
    Moment(LeapDay.DayBefore())
  }

  /** The day after. */
  function FirstRun(): int {
    Moment(LeapDay.FirstLeapDay())
  }

  /** Two hours before the evening on which the schedule has no next run. */
  function Start(): int {
    Moment(LeapDay.Evening() - 120)
  }

  /** The moment at which a minute of UTC starts. */
  function Moment(minute: int): int {
    minute * MICROS_IN_MINUTE
  }

  function NextRun(): int {
    LeapDay.NextLeapDay() * MICROS_IN_MINUTE
  }

  /** Task 1, long due, in some state, with some executions in flight. */
  function One(now: int, row: Row, runs: map<int, Run>, nextRun: int, flying: seq<Execution>): System {
    System(now, map[1 := LeapDays()], map[1 := row], runs, nextRun, flying)
  }

  ghost predicate Moves(s: System, step: Step, t: System) {
    Allowed(s, step) && Apply(s, step) == t
  }

  lemma Ends(s: System)
    ensures Leads(s, [], s)
  {}

  lemma Follows(s: System, step: Step, u: System, rest: seq<Step>, t: System)
    requires Moves(s, step, u) && Leads(u, rest, t)
    ensures Leads(s, [step] + rest, t)
  {
    assert ([step] + rest)[1..] == rest;
    hide Apply;
  }

  lemma OnlyTaskSelected(row: Row, now: int)
    requires Claimable(row, now)
    ensures IsSelection(map[1 := row], now, 1, [1])
  {}

  /** A scheduler claims the task for an hour. */
  lemma LeaseMoves(now: int, row: Row, runs: map<int, Run>, n: int, flying: seq<Execution>)
    requires Claimable(row, now)
    ensures Moves(One(now, row, runs, n, flying), Lease([1], 1, HOUR),
                  One(now, row.(lease := Some(now + HOUR)), runs, n, flying + [Execution(1, now + HOUR, Claimed)]))
  {
    OnlyTaskSelected(row, now);
    assert Launched([1], now + HOUR) == [Execution(1, now + HOUR, Claimed)];
    assert WithLeases(map[1 := row], [1], now + HOUR) == map[1 := row.(lease := Some(now + HOUR))];
  }

  /** StartTaskRun, for the execution claimed last. */
  lemma InsertMoves(now: int, row: Row, runs: map<int, Run>, n: int, flying: seq<Execution>, lease: int)
    ensures Moves(One(now, row, runs, n, flying + [Execution(1, lease, Claimed)]), InsertRun(|flying|),
                  One(now, row, runs[n := Run(1, Running)], n + 1, flying + [Execution(1, lease, Inserted(n))]))
  {
    var x := flying + [Execution(1, lease, Claimed)];
    assert x[|flying| := Execution(1, lease, Inserted(n))] == flying + [Execution(1, lease, Inserted(n))];
  }

  lemma StartMoves(now: int, row: Row, runs: map<int, Run>, n: int, flying: seq<Execution>, lease: int, run: int)
    ensures Moves(One(now, row, runs, n, flying + [Execution(1, lease, Inserted(run))]), MarkStarted(|flying|),
                  One(now, row.(lastRun := Some(now)), runs, n, flying + [Execution(1, lease, Started(run))]))
  {
    var x := flying + [Execution(1, lease, Inserted(run))];
    assert x[|flying| := Execution(1, lease, Started(run))] == flying + [Execution(1, lease, Started(run))];
  }

  /** A claim and the start of its run. */
  function ClaimSteps(e: nat): seq<Step> {
    [Lease([1], 1, HOUR)] + ([InsertRun(e)] + ([MarkStarted(e)] + []))
  }

  function InHand(now: int, due: int, runs: map<int, Run>, n: int, flying: seq<Execution>): System {
    One(now, Row(Active, Some(due), Some(now + HOUR), Some(now)), runs, n, flying)
  }

  lemma ClaimAndStart(now: int, row: Row, due: int, runs: map<int, Run>, n: int, flying: seq<Execution>)
    requires Claimable(row, now) && row.due == Some(due)
    ensures Leads(One(now, row, runs, n, flying), ClaimSteps(|flying|),
                  InHand(now, due, runs[n := Run(1, Running)], n + 1, flying + [Execution(1, now + HOUR, Started(n))]))
  {
    var lease := now + HOUR;
    var leased := row.(lease := Some(lease));
    var more := runs[n := Run(1, Running)];
    var end := InHand(now, due, more, n + 1, flying + [Execution(1, lease, Started(n))]);
    LeaseMoves(now, row, runs, n, flying);
    InsertMoves(now, leased, runs, n, flying, lease);
    StartMoves(now, leased, more, n + 1, flying, lease, n);
    InHandIs(now, row, due, more, n + 1, flying + [Execution(1, lease, Started(n))]);
    hide *;
    Ends(end);
    var inserted := One(now, leased, more, n + 1, flying + [Execution(1, lease, Inserted(n))]);
    Follows(inserted, MarkStarted(|flying|), end, [], end);
    Follows(One(now, leased, runs, n, flying + [Execution(1, lease, Claimed)]), InsertRun(|flying|), inserted,
            [MarkStarted(|flying|)] + [], end);
    Follows(One(now, row, runs, n, flying), Lease([1], 1, HOUR),
            One(now, leased, runs, n, flying + [Execution(1, lease, Claimed)]),
            [InsertRun(|flying|)] + ([MarkStarted(|flying|)] + []), end);
    ClaimStepsAre(|flying|);
  }

  lemma InHandIs(now: int, row: Row, due: int, runs: map<int, Run>, n: int, flying: seq<Execution>)
    requires Claimable(row, now) && row.due == Some(due)
    ensures InHand(now, due, runs, n, flying)
         == One(now, row.(lease := Some(now + HOUR)).(lastRun := Some(now)), runs, n, flying)
  {}

  lemma ClaimStepsAre(e: nat)
    ensures ClaimSteps(e) == [Lease([1], 1, HOUR)] + ([InsertRun(e)] + ([MarkStarted(e)] + []))
  {}

  lemma TickMoves(now: int, time: nat, row: Row, runs: map<int, Run>, n: int, flying: seq<Execution>)
    ensures Moves(One(now, row, runs, n, flying), Tick(time), One(now + time, row, runs, n, flying))
  {}

  /** Creates the task, waits until long after its first run, and claims it. */
  function FirstSteps(wait: nat): seq<Step> {
    [Create(1, LeapDays(), FirstRun())] + ([Tick(wait)] + ClaimSteps(0))
  }

  function New(due: int): Row {
    Row(Active, Some(due), None, None)
  }

  lemma NewIsClaimable(due: int, now: int)
    requires due <= now
    ensures Claimable(New(due), now) && New(due).due == Some(due)
  {}

  function OneExecution(lease: int): seq<Execution> {
    [Execution(1, lease, Started(1))]
  }

  /** A new task is claimed and started once it is due. */
  lemma ClaimLater(now: int, wait: nat, due: int)
    requires due <= now + wait
    ensures Leads(One(now, New(due), map[], 1, []), [Tick(wait)] + ClaimSteps(0),
                  InHand(now + wait, due, map[1 := Run(1, Running)], 2, OneExecution(now + wait + HOUR)))
  {
    var later := now + wait;
    assert map[][1 := Run(1, Running)] == map[1 := Run(1, Running)];
    assert [] + [Execution(1, later + HOUR, Started(1))] == OneExecution(later + HOUR);
    hide *;
    NewIsClaimable(due, later);
    TickMoves(now, wait, New(due), map[], 1, []);
    ClaimAndStart(later, New(due), due, map[], 1, []);
    Follows(One(now, New(due), map[], 1, []), Tick(wait), One(later, New(due), map[], 1, []), ClaimSteps(0),
            InHand(later, due, map[1 := Run(1, Running)], 2, OneExecution(later + HOUR)));
  }

  lemma FirstStepsAre(wait: nat)
    ensures FirstSteps(wait) == [Create(1, LeapDays(), FirstRun())] + ([Tick(wait)] + ClaimSteps(0))
  {}

  /** A task that is created on an empty table, and claimed three years later. */
  lemma FirstClaim(s: System, wait: nat)
    requires Fresh(s) && s.nextRun == 1 && s.now == Creation() && s.now + wait == Start()
    ensures Leads(s, FirstSteps(wait),
                  InHand(Start(), FirstRun(), map[1 := Run(1, Running)], 2, OneExecution(Start() + HOUR)))
  {
    hide *;
    FirstStepsAre(wait);
    FirstRuns();
    CreateMoves(s);
    ClaimLater(s.now, wait, FirstRun());
    Follows(s, Create(1, LeapDays(), FirstRun()), One(s.now, New(FirstRun()), map[], 1, []),
            [Tick(wait)] + ClaimSteps(0),
            InHand(Start(), FirstRun(), map[1 := Run(1, Running)], 2, OneExecution(Start() + HOUR)));
  }

  lemma FirstRuns()
    ensures IsFirstDue(LeapDays(), Creation(), FirstRun())
    ensures Creation() < FirstRun() < Start()
  {
    LeapDay.CanBeCreated();
    var first := LeapDay.FirstLeapDay() * Schedule.MINUTE;
    assert Creation() * NANOS_IN_MICRO == LeapDay.DayBefore() * Schedule.MINUTE;
    assert first / NANOS_IN_MICRO == FirstRun();
    hide Schedule.IsFirstRun, LeapDay.Evening, LeapDay.DayBefore, LeapDay.FirstLeapDay, LeapDay.Midnights;
    assert Schedule.IsFirstRun(LeapDays().kind, LeapDays().plan, LeapDays().off, Creation() * NANOS_IN_MICRO, first);
  }

  lemma CreateMoves(s: System)
    requires Fresh(s) && s.nextRun == 1 && s.now == Creation()
    ensures Moves(s, Create(1, LeapDays(), FirstRun()), One(s.now, New(FirstRun()), map[], 1, []))
  {
    FirstRuns();
    hide IsFirstDue, Creation, FirstRun, Start, LeapDays;
  }

  /** Both executions in flight, at `now`; the second was claimed a microsecond after the first's lease. */
  function Both(claimed: int, now: int, due: int): System {
    One(now, Row(Active, Some(due), Some(claimed + HOUR), Some(claimed)),
        map[1 := Run(1, Running), 2 := Run(1, Running)], 3,
        [Execution(1, claimed - 1, Started(1)), Execution(1, claimed + HOUR, Started(2))])
  }

  /** An hour later the lease is over, and the task is claimed and started again. */
  lemma SecondClaim(now: int, due: int)
    requires due <= now
    ensures Leads(InHand(now, due, map[1 := Run(1, Running)], 2, OneExecution(now + HOUR)),
                  [Tick(HOUR + 1)] + ClaimSteps(1), Both(now + HOUR + 1, now + HOUR + 1, due))
  {
    var later := now + HOUR + 1;
    var row := Row(Active, Some(due), Some(now + HOUR), Some(now));
    var runs, first := map[1 := Run(1, Running)], [Execution(1, now + HOUR, Started(1))];
    TickMoves(now, HOUR + 1, row, runs, 2, first);
    ClaimAndStart(later, row, due, runs, 2, first);
    assert runs[2 := Run(1, Running)] == map[1 := Run(1, Running), 2 := Run(1, Running)];
    assert first + [Execution(1, later + HOUR, Started(2))]
        == [Execution(1, later - 1, Started(1)), Execution(1, later + HOUR, Started(2))];
    hide Moves, ClaimSteps;
    Follows(One(now, row, runs, 2, first), Tick(HOUR + 1), One(later, row, runs, 2, first), ClaimSteps(1),
            Both(later, later, due));
  }

  lemma BothAreNotExclusive(claimed: int, now: int, due: int)
    ensures !Exclusive(Both(claimed, now, due))
  {
    var s := Both(claimed, now, due);
    assert s.flying[0].task == s.flying[1].task;
  }

  // The schedule's answers

  lemma NextRuns()
    ensures IsNextRun(LeapDays(), Moment(LeapDay.Evening()), None)
    ensures IsNextRun(LeapDays(), Moment(LeapDay.NextMidnight()), Some(NextRun()))
    ensures LeapDay.NextMidnight() == LeapDay.Evening() + 120
  {
    LeapDay.NoNextRunThenOne();
    assert Moment(LeapDay.Evening()) * NANOS_IN_MICRO == LeapDay.Evening() * Schedule.MINUTE;
    assert Moment(LeapDay.NextMidnight()) * NANOS_IN_MICRO == LeapDay.NextMidnight() * Schedule.MINUTE;
    assert LeapDay.NextLeapDay() * Schedule.MINUTE / NANOS_IN_MICRO == NextRun();
    hide Schedule.IsNext, LeapDay.Evening, LeapDay.NextMidnight, LeapDay.NextLeapDay, LeapDay.Midnights;
  }

  /** The second execution ended and the task is completed; the first is still in flight. */
  function Completed1(claimed: int, now: int): System {
    One(now, Row(Completed, None, None, Some(claimed)), map[1 := Run(1, Running), 2 := Run(1, Success)], 3,
        [Execution(1, claimed - 1, Started(1))])
  }

  lemma CompletingMoves(claimed: int, now: int, due: int)
    requires IsNextRun(LeapDays(), now, None)
    ensures Moves(Both(claimed, now, due), Finish(1, true, None), Completed1(claimed, now))
  {
    hide IsNextRun, LeapDays;
    var x := Both(claimed, now, due).flying;
    assert Without(x, 1) == [x[0]];
    assert Both(claimed, now, due).runs[2 := Run(1, Success)] == map[1 := Run(1, Running), 2 := Run(1, Success)];
  }

  function Revived(claimed: int, now: int, next: int): System {
    One(now, Row(Active, Some(next), None, Some(claimed)), map[1 := Run(1, Success), 2 := Run(1, Success)], 3, [])
  }

  lemma RevivingMoves(claimed: int, now: int, next: int)
    requires IsNextRun(LeapDays(), now, Some(next))
    ensures Moves(Completed1(claimed, now), Finish(0, true, Some(next)), Revived(claimed, now, next))
  {
    hide IsNextRun, LeapDays;
    var s := Completed1(claimed, now);
    assert Without(s.flying, 0) == [];
    assert s.runs[1 := Run(1, Success)] == map[1 := Run(1, Success), 2 := Run(1, Success)];
  }

  /** The executions' ends: the second in the evening, the first two hours later. */
  function EndSteps(wait: nat): seq<Step> {
    [Tick(wait)] + ([Finish(1, true, None)] + ([Tick(2 * HOUR)] + ([Finish(0, true, Some(NextRun()))] + [])))
  }

  lemma LateFinishRevives(claimed: int, due: int, wait: nat)
    requires claimed + wait == Moment(LeapDay.Evening())
    ensures Leads(Both(claimed, claimed, due), EndSteps(wait),
                  Revived(claimed, Moment(LeapDay.NextMidnight()), NextRun()))
  {
    hide *;
    var evening, midnight := Moment(LeapDay.Evening()), Moment(LeapDay.NextMidnight());
    var end, last := Revived(claimed, midnight, NextRun()), [Finish(0, true, Some(NextRun()))] + [];
    NextRuns();
    TwoHoursApart();
    EndStepsAre(wait);
    BothTick(claimed, due, wait);
    CompletingMoves(claimed, evening, due);
    CompletedTick(claimed, evening);
    RevivingMoves(claimed, midnight, NextRun());
    Ends(end);
    Follows(Completed1(claimed, midnight), Finish(0, true, Some(NextRun())), end, [], end);
    Follows(Completed1(claimed, evening), Tick(2 * HOUR), Completed1(claimed, midnight), last, end);
    Follows(Both(claimed, evening, due), Finish(1, true, None), Completed1(claimed, evening),
            [Tick(2 * HOUR)] + last, end);
    Follows(Both(claimed, claimed, due), Tick(wait), Both(claimed, evening, due),
            [Finish(1, true, None)] + ([Tick(2 * HOUR)] + last), end);
  }

  lemma TwoHoursApart()
    ensures Moment(LeapDay.NextMidnight()) == Moment(LeapDay.Evening()) + 2 * HOUR && HOUR > 0
  {
    NextRuns();
    hide LeapDay.NextMidnight, LeapDay.Evening;
  }

  lemma EndStepsAre(wait: nat)
    ensures EndSteps(wait) ==
      [Tick(wait)] + ([Finish(1, true, None)] + ([Tick(2 * HOUR)] + ([Finish(0, true, Some(NextRun()))] + [])))
  {}

  lemma BothTick(claimed: int, due: int, wait: nat)
    ensures Moves(Both(claimed, claimed, due), Tick(wait), Both(claimed, claimed + wait, due))
  {}

  lemma CompletedTick(claimed: int, now: int)
    ensures Moves(Completed1(claimed, now), Tick(2 * HOUR), Completed1(claimed, now + 2 * HOUR))
  {}

  /**
    Three stretches of one run on an empty table: the task is created on the day before 29 February
    2096 and claimed two hours before the evening of 28 February 2099; it is claimed again after its
    lease and is then in flight twice; one execution ends in the evening, when the schedule has no next
    run, and completes the task; the other ends at midnight, when it has one, and makes the completed
    task active again.
   */
  lemma OverrunBreaksBoth(s: System, wait: nat)
    requires Fresh(s) && s.nextRun == 1 && s.now == Creation() && s.now + wait == Start()
    ensures
      var claimed, due := Start() + HOUR + 1, FirstRun();
      var evening, midnight := Moment(LeapDay.Evening()), Moment(LeapDay.NextMidnight());
      var first := InHand(Start(), due, map[1 := Run(1, Running)], 2, OneExecution(Start() + HOUR));
      var both, end := Both(claimed, claimed, due), Revived(claimed, midnight, NextRun());
      && Leads(s, FirstSteps(wait), first)
      && Leads(first, [Tick(HOUR + 1)] + ClaimSteps(1), both) && !Exclusive(both)
      && Leads(both, EndSteps(HOUR - 1), end)
      && Moves(Both(claimed, evening, due), Finish(1, true, None), Completed1(claimed, evening))
      && Revives(Completed1(claimed, midnight), Finish(0, true, Some(NextRun())), 1)
      && Moves(Completed1(claimed, midnight), Finish(0, true, Some(NextRun())), end)
  {
    hide *;
    var claimed, due := Start() + HOUR + 1, FirstRun();
    SecondClaimTime();
    FirstRuns();
    FirstClaim(s, wait);
    SecondClaim(Start(), due);
    BothAreNotExclusive(claimed, claimed, due);
    LateFinishRevives(claimed, due, HOUR - 1);
    NextRuns();
    CompletingMoves(claimed, Moment(LeapDay.Evening()), due);
    RevivingMoves(claimed, Moment(LeapDay.NextMidnight()), NextRun());
    FinishRevives(claimed, Moment(LeapDay.NextMidnight()), NextRun());
  }

  lemma SecondClaimTime()
    ensures HOUR > 0 && Start() + HOUR + 1 + (HOUR - 1) == Moment(LeapDay.Evening())
  {
    hide LeapDay.Evening;
  }

  lemma FinishRevives(claimed: int, now: int, next: int)
    ensures Revives(Completed1(claimed, now), Finish(0, true, Some(next)), 1)
  {}
}
