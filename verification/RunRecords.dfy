/**
  The rows that executions leave behind (internal/store/tasks.go, StartTaskRun and FinishTaskRun), over
  every run of the schedulers, also where leases run out.
 */
module RunRecords {
  import opened Text
  import opened Leasing
  import opened LeaseRuns
  import Schedule

  predicate HasRun(x: Execution) {
    x.stage.Inserted? || x.stage.Started?
  }

  /** The execution's row is that of its task, and still open. */
  predicate RowIsOpen(s: System, x: Execution) {
    HasRun(x) ==> x.stage.run in s.runs && s.runs[x.stage.run] == Run(x.task, Running)
  }

  predicate RowsDiffer(x: Execution, y: Execution) {
    HasRun(x) && HasRun(y) ==> x.stage.run != y.stage.run
  }

  /** Numbers are not used again, and each execution that has begun has an open row of its own. */
  ghost predicate RecordsOk(s: System) {
    && (forall run | run in s.runs :: run < s.nextRun)
    && (forall k | 0 <= k < |s.flying| :: RowIsOpen(s, s.flying[k]))
    && (forall j, k | 0 <= j < k < |s.flying| :: RowsDiffer(s.flying[j], s.flying[k]))
  }

  lemma RecordsAt(s: System, j: nat, k: nat)
    requires RecordsOk(s) && j < |s.flying| && k < |s.flying|
    ensures RowIsOpen(s, s.flying[j]) && (j != k ==> RowsDiffer(s.flying[j], s.flying[k]))
    ensures HasRun(s.flying[j]) ==> s.flying[j].stage.run < s.nextRun
  {
    assert j < k || j == k || RowsDiffer(s.flying[k], s.flying[j]);
  }

  /** What a step does to the executions: one may end, one may move on, and some may begin. */
  function Was(s: System, step: Step, k: nat): nat {
    if (step.GiveUp? || step.Finish? || step.Vanish?) && k >= step.e then k + 1 else k
  }

  lemma FlyingAfter(s: System, step: Step, k: nat)
    requires Enabled(s, step) && k < |Apply(s, step).flying|
    ensures
      var (x, j) := (Apply(s, step).flying[k], Was(s, step, k));
      && (j >= |s.flying| ==> x.stage == Claimed)
      && (j < |s.flying| ==> x.task == s.flying[j].task)
      && (j < |s.flying| && !(step == InsertRun(j)) && HasRun(x) ==>
            HasRun(s.flying[j]) && x.stage.run == s.flying[j].stage.run)
      && (j < |s.flying| && step == InsertRun(j) ==> x.stage == Inserted(s.nextRun))
      && (step.Finish? ==> j != step.e)
  {}

  lemma RunsAfter(s: System, step: Step)
    requires Enabled(s, step)
    ensures step.InsertRun? ==>
      && Apply(s, step).runs == s.runs[s.nextRun := Run(s.flying[step.e].task, Running)]
      && Apply(s, step).nextRun == s.nextRun + 1
    ensures step.Finish? ==>
      Apply(s, step).runs == Recorded(s.runs, s.flying[step.e].stage.run, step.ok)
    ensures !step.InsertRun? ==> Apply(s, step).nextRun == s.nextRun
    ensures !step.InsertRun? && !step.Finish? ==> Apply(s, step).runs == s.runs
  {}

  lemma StepKeepsRecords(s: System, step: Step)
    requires RecordsOk(s) && Enabled(s, step)
    ensures RecordsOk(Apply(s, step))
  {
    hide Apply, Enabled, RecordsOk;
    var t := Apply(s, step);
    RunsAfter(s, step);
    forall run | run in t.runs ensures run < t.nextRun {
      if run in s.runs {
        NumbersBelow(s, run);
      }
    }
    forall k | 0 <= k < |t.flying| ensures RowIsOpen(t, t.flying[k]) {
      RowStaysOpen(s, step, k);
    }
    forall j, k | 0 <= j < k < |t.flying| ensures RowsDiffer(t.flying[j], t.flying[k]) {
      RowsStayApart(s, step, j, k);
    }
    RecordsIntro(t);
  }

  lemma NumbersBelow(s: System, run: int)
    requires RecordsOk(s) && run in s.runs
    ensures run < s.nextRun
  {}

  lemma RecordsIntro(s: System)
    requires forall run | run in s.runs :: run < s.nextRun
    requires forall k | 0 <= k < |s.flying| :: RowIsOpen(s, s.flying[k])
    requires forall j, k | 0 <= j < k < |s.flying| :: RowsDiffer(s.flying[j], s.flying[k])
    ensures RecordsOk(s)
  {}

  lemma RowStaysOpen(s: System, step: Step, k: nat)
    requires RecordsOk(s) && Enabled(s, step) && k < |Apply(s, step).flying|
    ensures RowIsOpen(Apply(s, step), Apply(s, step).flying[k])
  {
    hide Apply, Enabled, RecordsOk;
    RunsAfter(s, step);
    FlyingAfter(s, step, k);
    var j := Was(s, step, k);
    if j < |s.flying| {
      RecordsAt(s, j, if step.Finish? && step.e < |s.flying| then step.e else j);
      StepIsPlaced(s, step);
    }
  }

  lemma StepIsPlaced(s: System, step: Step)
    requires Enabled(s, step)
    ensures step.Finish? || step.InsertRun? ==> step.e < |s.flying|
    ensures step.Finish? ==> HasRun(s.flying[step.e])
  {}

  lemma RowsStayApart(s: System, step: Step, j: nat, k: nat)
    requires RecordsOk(s) && Enabled(s, step) && j < k < |Apply(s, step).flying|
    ensures RowsDiffer(Apply(s, step).flying[j], Apply(s, step).flying[k])
  {
    hide Apply, Enabled, RecordsOk;
    FlyingAfter(s, step, j);
    FlyingAfter(s, step, k);
    var (x, y) := (Was(s, step, j), Was(s, step, k));
    if x < |s.flying| && y < |s.flying| {
      RecordsAt(s, x, y);
      RecordsAt(s, y, x);
    }
  }

  lemma {:induction false} RunKeepsRecords(s: System, steps: seq<Step>, t: System)
    requires RecordsOk(s) && Leads(s, steps, t)
    ensures RecordsOk(t)
    decreases |steps|
  {
    hide RecordsOk, Apply;
    if steps != [] {
      AllowedIsEnabled(s, steps[0]);
      StepKeepsRecords(s, steps[0]);
      hide Allowed, Enabled;
      RunKeepsRecords(Apply(s, steps[0]), steps[1..], t);
    }
  }

  /** Over every run, every execution that has begun has a row of its own, of its own task, still open. */
  lemma ExecutionsHaveTheirRows(s: System, steps: seq<Step>, t: System, j: nat, k: nat)
    requires Fresh(s) && Leads(s, steps, t) && j < |t.flying| && k < |t.flying|
    ensures HasRun(t.flying[j]) ==>
      t.flying[j].stage.run in t.runs && t.runs[t.flying[j].stage.run] == Run(t.flying[j].task, Running)
    ensures j != k && HasRun(t.flying[j]) && HasRun(t.flying[k]) ==> t.flying[j].stage.run != t.flying[k].stage.run
  {
    assert RecordsOk(s);
    RunKeepsRecords(s, steps, t);
    RecordsAt(t, j, k);
    hide RecordsOk, Leads;
  }

  /** A run that ended well is recorded as a success, any other as a failure, and no other row changes. */
  lemma FinishRecordsItsOwn(s: System, e: nat, ok: bool, next: Option<int>, run: int)
    requires RecordsOk(s) && Enabled(s, LeaseRuns.Step.Finish(e, ok, next)) && run in s.runs
    ensures
      var t := Apply(s, LeaseRuns.Step.Finish(e, ok, next));
      && t.runs.Keys == s.runs.Keys
      && t.runs[run] == if run != s.flying[e].stage.run then s.runs[run]
                        else if ok then Run(s.flying[e].task, Success) else Run(s.flying[e].task, Failed)
  {
    RecordsAt(s, e, e);
    hide RecordsOk;
  }

  lemma OutcomeStays(s: System, step: Step, run: int)
    requires RecordsOk(s) && Enabled(s, step) && run in s.runs && s.runs[run].status != Running
    ensures run in Apply(s, step).runs && Apply(s, step).runs[run] == s.runs[run]
  {
    RunsAfter(s, step);
    StepIsPlaced(s, step);
    NumbersBelow(s, run);
    if step.Finish? {
      RecordsAt(s, step.e, step.e);
    }
    hide RecordsOk, Apply, Enabled;
  }

  /** An outcome is recorded once: whatever happens afterwards, also a second execution, it stays. */
  lemma {:induction false} RecordedOnce(s: System, steps: seq<Step>, t: System, run: int)
    requires RecordsOk(s) && Leads(s, steps, t) && run in s.runs && s.runs[run].status != Running
    ensures run in t.runs && t.runs[run] == s.runs[run]
    decreases |steps|
  {
    hide RecordsOk, Apply;
    if steps != [] {
      AllowedIsEnabled(s, steps[0]);
      StepKeepsRecords(s, steps[0]);
      OutcomeStays(s, steps[0], run);
      hide Allowed, Enabled;
      RecordedOnce(Apply(s, steps[0]), steps[1..], t, run);
    }
  }

  /** A new task is active, free, and due no more than a minute ago. */
  lemma CreatedIsDue(s: System, task: int, job: Job, due: int)
    requires Allowed(s, Create(task, job, due))
    ensures
      var t := Apply(s, Create(task, job, due));
      && task in t.tasks && t.tasks[task] == Row(Active, Some(due), None, None)
      && Schedule.IsValid(job.kind, job.plan) && due >= s.now - 60_000_000
  {
    hide Schedule.IsFirstRun;
    var first :| Schedule.IsFirstRun(job.kind, job.plan, job.off, s.now * NANOS_IN_MICRO, first)
                 && due == first / NANOS_IN_MICRO;
    Schedule.FirstRunIsRecent(job.kind, job.plan, job.off, s.now * NANOS_IN_MICRO, first);
    CreatedIsValid(job, s.now, first);
  }

  lemma CreatedIsValid(job: Job, now: int, first: int)
    requires Schedule.IsFirstRun(job.kind, job.plan, job.off, now * NANOS_IN_MICRO, first)
    ensures Schedule.IsValid(job.kind, job.plan)
  {}

  /** An active task that is asked to run now can be claimed at once, unless it is leased. */
  lemma RunNowIsNow(s: System, task: int)
    requires task in s.tasks && s.tasks[task].status == Active
    ensures Claimable(Apply(s, LeaseRuns.Step.RunNow(task)).tasks[task], s.now) <==>
      s.tasks[task].lease.None? || s.tasks[task].lease.value < s.now
  {}

  /** A claimed task can be claimed again only once its lease has passed, if nothing else happens to it. */
  lemma LeasedUntil(s: System, ids: seq<int>, limit: nat, lease: nat, id: int, later: int)
    requires Allowed(s, LeaseRuns.Step.Lease(ids, limit, lease)) && id in ids && later >= s.now
    ensures
      var t := Apply(s, LeaseRuns.Step.Lease(ids, limit, lease));
      && id in t.tasks && (Claimable(t.tasks[id], later) <==> later > s.now + lease)
      && exists k :: |s.flying| <= k < |t.flying| && t.flying[k] == Execution(id, s.now + lease, Claimed)
  {
    var k :| 0 <= k < |ids| && ids[k] == id;
    var t := Apply(s, LeaseRuns.Step.Lease(ids, limit, lease));
    assert t.flying[|s.flying| + k] == Execution(id, s.now + lease, Claimed);
  }

  /** Starting an execution notes when its task last ran, and changes nothing else of any task. */
  lemma StartIsNoted(s: System, e: nat, id: int)
    requires Enabled(s, MarkStarted(e)) && id in s.tasks
    ensures
      var t := Apply(s, MarkStarted(e));
      && t.tasks.Keys == s.tasks.Keys && t.flying[e].stage == Started(s.flying[e].stage.run)
      && t.tasks[id].(lastRun := None) == s.tasks[id].(lastRun := None)
      && t.tasks[id].lastRun == if id == s.flying[e].task then Some(s.now) else s.tasks[id].lastRun
  {}
}
