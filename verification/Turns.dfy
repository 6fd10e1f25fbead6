/**
  The life of a turn (internal/engine/turn.go) and the lock it shares with compaction
  (internal/engine/compaction.go): at most one holder per thread, a release that happens once, and a
  waiter that is told exactly once.
 */
module Turns {
  type Thread = int
  type TurnId = int

  datatype Holder = Turn(id: TurnId) | Compaction

  /** The engine's maps. `active` says whether a running turn was cancelled; `sent` counts deliveries. */
  datatype Table = Table(
    threads: map<Thread, Holder>, active: map<TurnId, bool>, waiters: set<TurnId>, sent: map<TurnId, nat>)

  function Claimed(t: Table, thread: Thread, id: TurnId, wait: bool): Table {
    Table(t.threads[thread := Turn(id)], t.active[id := false], if wait then t.waiters + {id} else t.waiters, t.sent)
  }

  function Freed(t: Table, thread: Thread, id: TurnId): Table {
    t.(threads := t.threads - {thread}, active := t.active - {id})
  }

  function SentTo(t: Table, id: TurnId): nat {
    if id in t.sent then t.sent[id] else 0
  }

  function Told(t: Table, id: TurnId): Table {
    if id in t.waiters then t.(waiters := t.waiters - {id}, sent := t.sent[id := SentTo(t, id) + 1]) else t
  }

  function Unlocked(t: Table, thread: Thread): Table {
    if thread in t.threads && t.threads[thread] == Compaction then t.(threads := t.threads - {thread}) else t
  }

  function Cancelled(t: Table, id: TurnId): Table {
    if id in t.active then t.(active := t.active[id := true]) else t
  }

  /** Each method is one region under the engine's lock. */
  class TurnTable {
    var threadTurns: map<Thread, Holder>
    var activeTurns: map<TurnId, bool>
    var turnWaiters: set<TurnId>
    var sent: map<TurnId, nat>

    function Value(): Table
      reads this
    {
      Table(threadTurns, activeTurns, turnWaiters, sent)
    }

    constructor ()
      ensures Value() == Table(map[], map[], {}, map[])
    {
      threadTurns, activeTurns, turnWaiters, sent := map[], map[], {}, map[];
    }

    /** The first region of startTurn. */
    method Claim(thread: Thread, id: TurnId, wait: bool) returns (claimed: bool)
      modifies this
      ensures claimed <==> thread !in old(threadTurns)
      ensures Value() == if claimed then Claimed(old(Value()), thread, id, wait) else old(Value())
    {
      if thread in threadTurns {
        return false;
      }
      threadTurns := threadTurns[thread := Turn(id)];
      activeTurns := activeTurns[id := false];
      if wait {
        turnWaiters := turnWaiters + {id};
      }
      return true;
    }

    /** The body of release. */
    method Free(thread: Thread, id: TurnId)
      modifies this
      ensures Value() == Freed(old(Value()), thread, id)
    {
      threadTurns := threadTurns - {thread};
      activeTurns := activeTurns - {id};
    }

    method Abort(id: TurnId)
      modifies this
      ensures Value() == old(Value()).(waiters := old(turnWaiters) - {id})
    {
      turnWaiters := turnWaiters - {id};
    }

    /** The last region of finishTurn: the channel has room for one value. */
    method Tell(id: TurnId)
      requires id in turnWaiters ==> SentTo(Value(), id) == 0
      modifies this
      ensures Value() == Told(old(Value()), id)
    {
      if id in turnWaiters {
        sent := sent[id := SentTo(Value(), id) + 1];
        turnWaiters := turnWaiters - {id};
      }
    }

    method Lock(thread: Thread) returns (locked: bool)
      modifies this
      ensures locked <==> thread !in old(threadTurns)
      ensures Value() ==
        if locked then old(Value()).(threads := old(threadTurns)[thread := Compaction]) else old(Value())
    {
      if thread in threadTurns {
        return false;
      }
      threadTurns := threadTurns[thread := Compaction];
      return true;
    }

    method Unlock(thread: Thread)
      modifies this
      ensures Value() == Unlocked(old(Value()), thread)
    {
      if thread in threadTurns && threadTurns[thread] == Compaction {
        threadTurns := threadTurns - {thread};
      }
    }

    method Interrupt(id: TurnId) returns (found: bool)
      modifies this
      ensures found <==> id in old(activeTurns)
      ensures Value() == Cancelled(old(Value()), id)
    {
      found := id in activeTurns;
      if found {
        activeTurns := activeTurns[id := true];
      }
    }
  }

  // All interleavings

  /** How far a turn is. */
  datatype Stage =
    | Opening(stored: nat)  // holds the thread; this many of its three first writes are done
    | Undoing               // a write failed
    | Aborting              // released
    | Failed                // startTurn returned the error
    | Running
    | Finishing             // finishTurn, before its release
    | Telling               // finishTurn, after its release
    | Leaving               // only the deferred release is left
    | Done

  const WRITES := 3

  /** `released` is the state of the turn's releaseOnce. */
  datatype Run = Run(thread: Thread, wait: bool, stage: Stage, released: bool)

  datatype State = State(table: Table, runs: map<TurnId, Run>, compactions: map<int, Thread>)

  datatype Step =
    | Start(id: TurnId, thread: Thread, wait: bool)
    | Write(id: TurnId, ok: bool)
    | Undo(id: TurnId)
    | Abort(id: TurnId)
    | End(id: TurnId)
    | Free(id: TurnId)
    | Tell(id: TurnId)
    | Defer(id: TurnId)
    | Lock(c: int, thread: Thread)
    | Unlock(c: int)
    | Interrupt(id: TurnId)

  predicate Is(s: State, id: TurnId, stage: Stage) {
    id in s.runs && s.runs[id].stage == stage
  }

  predicate Enabled(s: State, step: Step) {
    match step
    case Start(id, _, _) => id !in s.runs && id !in s.table.active
    case Write(id, _) => id in s.runs && s.runs[id].stage.Opening?
    case Undo(id) => Is(s, id, Undoing)
    case Abort(id) => Is(s, id, Aborting)
    case End(id) => Is(s, id, Running)
    case Free(id) => Is(s, id, Finishing)
    case Tell(id) => Is(s, id, Telling)
    case Defer(id) => Is(s, id, Leaving)
    case Lock(c, _) => c !in s.compactions
    case Unlock(c) => c in s.compactions
    case Interrupt(_) => true
  }

  function At(s: State, id: TurnId, stage: Stage): State
    requires id in s.runs
  {
    s.(runs := s.runs[id := s.runs[id].(stage := stage)])
  }

  /** A call of release: only the first does anything. */
  function Release(s: State, id: TurnId): State
    requires id in s.runs
  {
    var r := s.runs[id];
    if r.released then s
    else s.(table := Freed(s.table, r.thread, id), runs := s.runs[id := r.(released := true)])
  }

  function Apply(s: State, step: Step): State
    requires Enabled(s, step)
  {
    match step
    case Start(id, thread, wait) =>
      if thread in s.table.threads then s
      else s.(table := Claimed(s.table, thread, id, wait),
              runs := s.runs[id := Run(thread, wait, Opening(0), false)])
    case Write(id, ok) =>
      var n := s.runs[id].stage.stored;
      At(s, id, if !ok then Undoing else if n + 1 < WRITES then Opening(n + 1) else Running)
    case Undo(id) => At(Release(s, id), id, Aborting)
    case Abort(id) => At(s.(table := s.table.(waiters := s.table.waiters - {id})), id, Failed)
    case End(id) => At(s, id, Finishing)
    case Free(id) => At(Release(s, id), id, Telling)
    case Tell(id) => At(s.(table := Told(s.table, id)), id, Leaving)
    case Defer(id) => At(Release(s, id), id, Done)
    case Lock(c, thread) =>
      if thread in s.table.threads then s
      else s.(table := s.table.(threads := s.table.threads[thread := Compaction]),
              compactions := s.compactions[c := thread])
    case Unlock(c) =>
      s.(table := Unlocked(s.table, s.compactions[c]), compactions := s.compactions - {c})
    case Interrupt(id) => s.(table := Cancelled(s.table, id))
  }

  ghost predicate Leads(s: State, steps: seq<Step>, t: State)
    decreases |steps|
  {
    if steps == [] then s == t
    else Enabled(s, steps[0]) && Leads(Apply(s, steps[0]), steps[1..], t)
  }

  function Start0(): State {
    State(Table(map[], map[], {}, map[]), map[], map[])
  }

  // What holds at every step

  predicate BeforeRelease(stage: Stage) {
    stage.Opening? || stage.Undoing? || stage.Running? || stage.Finishing?
  }

  predicate BeforeTelling(stage: Stage) {
    BeforeRelease(stage) || stage.Aborting? || stage.Telling?
  }

  /** The turn has its thread, or has given it back for good. */
  ghost predicate HoldsOk(s: State, id: TurnId) {
    id in s.runs ==>
      var r := s.runs[id];
      && r.released == !BeforeRelease(r.stage)
      && (!r.released ==> r.thread in s.table.threads && s.table.threads[r.thread] == Turn(id) && id in s.table.active)
      && (r.released ==> id !in s.table.active)
  }

  /** The waiter is in the map until it is told or the start fails, and it is told once. */
  ghost predicate WaiterOk(s: State, id: TurnId) {
    && (id !in s.runs ==> id !in s.table.waiters && SentTo(s.table, id) == 0 && id !in s.table.active)
    && (id in s.runs ==>
        var r := s.runs[id];
        && (id in s.table.waiters <==> r.wait && BeforeTelling(r.stage))
        && SentTo(s.table, id) == if r.wait && (r.stage == Leaving || r.stage == Done) then 1 else 0)
  }

  /** Whoever the map names does hold the thread. */
  ghost predicate ThreadOk(s: State, thread: Thread) {
    thread in s.table.threads ==>
      match s.table.threads[thread]
      case Turn(id) => id in s.runs && s.runs[id].thread == thread && !s.runs[id].released
      case Compaction => exists c :: c in s.compactions && s.compactions[c] == thread
  }

  ghost predicate CompactionOk(s: State, c: int, d: int) {
    && (c in s.compactions ==>
        s.compactions[c] in s.table.threads && s.table.threads[s.compactions[c]] == Compaction)
    && (c in s.compactions && d in s.compactions && s.compactions[c] == s.compactions[d] ==> c == d)
  }

  ghost predicate Inv(s: State) {
    && (forall id :: HoldsOk(s, id))
    && (forall id :: WaiterOk(s, id))
    && (forall thread :: ThreadOk(s, thread))
    && (forall c, d :: CompactionOk(s, c, d))
  }

  lemma StartKeepsInv()
    ensures Inv(Start0())
  {}

  lemma InvAt(s: State, id: TurnId, thread: Thread, c: int, d: int)
    requires Inv(s)
    ensures HoldsOk(s, id) && WaiterOk(s, id) && ThreadOk(s, thread) && CompactionOk(s, c, d)
  {}

  lemma InvIntro(s: State)
    requires forall id :: HoldsOk(s, id)
    requires forall id :: WaiterOk(s, id)
    requires forall thread :: ThreadOk(s, thread)
    requires forall c, d :: CompactionOk(s, c, d)
    ensures Inv(s)
  {}

  lemma ClaimKeepsInv(s: State, step: Step, me: TurnId)
    requires Inv(s) && Enabled(s, step)
    requires (step.Start? || step.Interrupt?) && step.id == me
    ensures Inv(Apply(s, step))
  {
    hide Inv;
    var t := Apply(s, step);
    var mine := if step.Start? then step.thread else 0;
    InvAt(s, me, mine, 0, 0);
    forall id ensures HoldsOk(t, id) { InvAt(s, id, mine, 0, 0); }
    forall id ensures WaiterOk(t, id) { InvAt(s, id, 0, 0, 0); }
    forall thread ensures ThreadOk(t, thread) { InvAt(s, me, thread, 0, 0); }
    forall c, d ensures CompactionOk(t, c, d) { InvAt(s, me, 0, c, d); }
    InvIntro(t);
  }

  lemma ReleaseKeepsInv(s: State, step: Step, me: TurnId)
    requires Inv(s) && Enabled(s, step)
    requires (step.Undo? || step.Free? || step.Defer?) && step.id == me
    ensures Inv(Apply(s, step))
  {
    hide Inv;
    var t := Apply(s, step);
    var mine := s.runs[me].thread;
    InvAt(s, me, mine, 0, 0);
    forall id ensures HoldsOk(t, id) { InvAt(s, id, mine, 0, 0); }
    forall id ensures WaiterOk(t, id) { InvAt(s, id, 0, 0, 0); }
    forall thread ensures ThreadOk(t, thread) { InvAt(s, me, thread, 0, 0); }
    forall c, d ensures CompactionOk(t, c, d) { InvAt(s, me, 0, c, d); }
    InvIntro(t);
  }

  lemma MoveKeepsInv(s: State, step: Step, me: TurnId)
    requires Inv(s) && Enabled(s, step)
    requires (step.Write? || step.Abort? || step.End? || step.Tell?) && step.id == me
    ensures Inv(Apply(s, step))
  {
    hide Inv;
    var t := Apply(s, step);
    var mine := s.runs[me].thread;
    InvAt(s, me, mine, 0, 0);
    forall id ensures HoldsOk(t, id) { InvAt(s, id, mine, 0, 0); }
    forall id ensures WaiterOk(t, id) { InvAt(s, id, 0, 0, 0); }
    forall thread ensures ThreadOk(t, thread) { InvAt(s, me, thread, 0, 0); }
    forall c, d ensures CompactionOk(t, c, d) { InvAt(s, me, 0, c, d); }
    InvIntro(t);
  }

  lemma CompactionStepKeepsInv(s: State, step: Step)
    requires Inv(s) && Enabled(s, step) && (step.Lock? || step.Unlock?)
    ensures Inv(Apply(s, step))
  {
    hide Inv;
    var t := Apply(s, step);
    var mine := if step.Lock? then step.thread else s.compactions[step.c];
    forall id ensures HoldsOk(t, id) { InvAt(s, id, mine, step.c, step.c); }
    forall id ensures WaiterOk(t, id) { InvAt(s, id, 0, 0, 0); }
    forall thread ensures ThreadOk(t, thread) {
      InvAt(s, 0, thread, step.c, step.c);
      if thread in t.table.threads && t.table.threads[thread] == Compaction && thread != mine {
        var c :| c in s.compactions && s.compactions[c] == thread;
        assert c in t.compactions && t.compactions[c] == thread;
      } else if step.Lock? && t != s {
        assert step.c in t.compactions && t.compactions[step.c] == mine;
      }
    }
    forall c, d ensures CompactionOk(t, c, d) {
      InvAt(s, 0, mine, c, d);
      InvAt(s, 0, mine, d, c);
      InvAt(s, 0, mine, c, step.c);
    }
    InvIntro(t);
  }

  lemma StepKeepsInv(s: State, step: Step)
    requires Inv(s) && Enabled(s, step)
    ensures Inv(Apply(s, step))
  {
    hide Inv, Enabled, Apply;
    match step {
      case Start(id, _, _) => ClaimKeepsInv(s, step, id);
      case Interrupt(id) => ClaimKeepsInv(s, step, id);
      case Undo(id) => ReleaseKeepsInv(s, step, id);
      case Free(id) => ReleaseKeepsInv(s, step, id);
      case Defer(id) => ReleaseKeepsInv(s, step, id);
      case Lock(_, _) => CompactionStepKeepsInv(s, step);
      case Unlock(_) => CompactionStepKeepsInv(s, step);
      case Write(id, _) => MoveKeepsInv(s, step, id);
      case Abort(id) => MoveKeepsInv(s, step, id);
      case End(id) => MoveKeepsInv(s, step, id);
      case Tell(id) => MoveKeepsInv(s, step, id);
    }
  }

  /** The engine with its turns and compactions. Each step is what its regions do. */
  class Engine {
    const table: TurnTable
    var runs: map<TurnId, Run>
    var compactions: map<int, Thread>

    function Value(): State
      reads this, table
    {
      State(table.Value(), runs, compactions)
    }

    constructor ()
      ensures Value() == Start0() && fresh(table)
    {
      table := new TurnTable();
      runs, compactions := map[], map[];
    }

    method Perform(step: Step)
      requires Inv(Value()) && Enabled(Value(), step)
      modifies this, table
      ensures Value() == Apply(old(Value()), step) && Inv(Value())
    {
      StepKeepsInv(Value(), step);
      if step.Tell? {
        InvAt(Value(), step.id, 0, 0, 0);
      }
      hide Inv;
      match step {
        case Start(id, thread, wait) =>
          var claimed := table.Claim(thread, id, wait);
          if claimed {
            runs := runs[id := Run(thread, wait, Opening(0), false)];
          }
        case Write(id, ok) =>
          var n := runs[id].stage.stored;
          Move(id, if !ok then Undoing else if n + 1 < WRITES then Opening(n + 1) else Running);
        case Undo(id) =>
          ReleaseOnce(id);
          Move(id, Aborting);
        case Abort(id) =>
          table.Abort(id);
          Move(id, Failed);
        case End(id) =>
          Move(id, Finishing);
        case Free(id) =>
          ReleaseOnce(id);
          Move(id, Telling);
        case Tell(id) =>
          table.Tell(id);
          Move(id, Leaving);
        case Defer(id) =>
          ReleaseOnce(id);
          Move(id, Done);
        case Lock(c, thread) =>
          var locked := table.Lock(thread);
          if locked {
            compactions := compactions[c := thread];
          }
        case Unlock(c) =>
          table.Unlock(compactions[c]);
          compactions := compactions - {c};
        case Interrupt(id) =>
          var _ := table.Interrupt(id);
      }
    }

    method Move(id: TurnId, stage: Stage)
      requires id in runs
      modifies this`runs
      ensures Value() == At(old(Value()), id, stage)
    {
      runs := runs[id := runs[id].(stage := stage)];
    }

    /** release: the first call frees the thread, any other does nothing. */
    method ReleaseOnce(id: TurnId)
      requires id in runs
      modifies this`runs, table
      ensures Value() == Release(old(Value()), id)
    {
      if !runs[id].released {
        table.Free(runs[id].thread, id);
        runs := runs[id := runs[id].(released := true)];
      }
    }
  }

  lemma {:induction false} RunKeepsInv(s: State, steps: seq<Step>, t: State)
    requires Inv(s) && Leads(s, steps, t)
    ensures Inv(t)
    decreases |steps|
  {
    hide Inv, Enabled, Apply;
    if steps != [] {
      StepKeepsInv(s, steps[0]);
      RunKeepsInv(Apply(s, steps[0]), steps[1..], t);
    }
  }

  // The thread lock

  /** A turn between its claim and its release, or a compaction between its lock and its unlock. */
  datatype Owner = TurnOwner(id: TurnId) | CompactionOwner(c: int)

  predicate Holds(s: State, o: Owner, thread: Thread) {
    match o
    case TurnOwner(id) => id in s.runs && s.runs[id].thread == thread && BeforeRelease(s.runs[id].stage)
    case CompactionOwner(c) => c in s.compactions && s.compactions[c] == thread
  }

  /** Mutual exclusion: a thread has at most one holder, turn or compaction. */
  lemma OneHolder(steps: seq<Step>, s: State, thread: Thread, o: Owner, p: Owner)
    requires Leads(Start0(), steps, s) && Holds(s, o, thread) && Holds(s, p, thread)
    ensures o == p
  {
    StartKeepsInv();
    RunKeepsInv(Start0(), steps, s);
    InvAt(s, if o.TurnOwner? then o.id else 0, thread,
          if o.CompactionOwner? then o.c else 0, if p.CompactionOwner? then p.c else 0);
    InvAt(s, if p.TurnOwner? then p.id else 0, thread,
          if p.CompactionOwner? then p.c else 0, if p.CompactionOwner? then p.c else 0);
  }

  /** The two maps agree: a turn is active exactly while some thread names it, and that is its own. */
  lemma MapsAgree(steps: seq<Step>, s: State, id: TurnId, thread: Thread)
    requires Leads(Start0(), steps, s)
    ensures id in s.table.active <==> id in s.runs && BeforeRelease(s.runs[id].stage)
    ensures (thread in s.table.threads && s.table.threads[thread] == Turn(id)) <==>
            (id in s.table.active && s.runs[id].thread == thread)
    ensures thread in s.table.threads <==> exists o :: Holds(s, o, thread)
  {
    StartKeepsInv();
    RunKeepsInv(Start0(), steps, s);
    InvAt(s, id, thread, 0, 0);
    if thread in s.table.threads {
      match s.table.threads[thread] {
        case Turn(other) =>
          InvAt(s, other, thread, 0, 0);
          assert Holds(s, TurnOwner(other), thread);
        case Compaction =>
          var c :| c in s.compactions && s.compactions[c] == thread;
          assert Holds(s, CompactionOwner(c), thread);
      }
    } else if o :| Holds(s, o, thread) {
      InvAt(s, if o.TurnOwner? then o.id else 0, thread, if o.CompactionOwner? then o.c else 0, 0);
    }
  }

  /**
    The deferred release changes no map, so it never frees the lock of a later turn or of a
    compaction; and a compaction always finds its own lock, so its check always succeeds.
   */
  lemma LaterLocksAreSafe(steps: seq<Step>, s: State, id: TurnId, c: int)
    requires Leads(Start0(), steps, s)
    ensures Is(s, id, Leaving) ==> Apply(s, Defer(id)).table == s.table
    ensures c in s.compactions ==>
      && s.compactions[c] in s.table.threads
      && s.table.threads - {s.compactions[c]} == Apply(s, Unlock(c)).table.threads
      && s.compactions[c] !in Apply(s, Unlock(c)).table.threads
  {
    StartKeepsInv();
    RunKeepsInv(Start0(), steps, s);
    InvAt(s, id, 0, c, c);
  }

  lemma {:induction false} Then(s: State, steps: seq<Step>, t: State, step: Step)
    requires Leads(s, steps, t) && Enabled(t, step)
    ensures Leads(s, steps + [step], Apply(t, step))
    decreases |steps|
  {
    hide Enabled, Apply;
    if steps == [] {
      assert (steps + [step])[1..] == [];
    } else {
      assert (steps + [step])[1..] == steps[1..] + [step];
      Then(Apply(s, steps[0]), steps[1..], t, step);
    }
  }

  ghost predicate Reachable(s: State) {
    exists steps :: Leads(Start0(), steps, s)
  }

  lemma ReachableThen(s: State, step: Step, t: State)
    requires Reachable(s) && Enabled(s, step) && Apply(s, step) == t
    ensures Reachable(t)
  {
    hide Enabled, Apply, Leads;
    var steps :| Leads(Start0(), steps, s);
    Then(Start0(), steps, s, step);
  }

  /** One turn, numbered 1, on thread 0. */
  function Lone(stage: Stage): State {
    State(Table(map[0 := Turn(1)], map[1 := false], {}, map[]), map[1 := Run(0, false, stage, false)], map[])
  }

  function LoneReleased(stage: Stage): State {
    State(Table(map[], map[], {}, map[]), map[1 := Run(0, false, stage, true)], map[])
  }

  lemma LoneStart()
    ensures Enabled(Start0(), Start(1, 0, false)) && Apply(Start0(), Start(1, 0, false)) == Lone(Opening(0))
  {}

  lemma LoneMoves(n: nat)
    requires n < WRITES
    ensures Enabled(Lone(Opening(n)), Write(1, true))
    ensures Apply(Lone(Opening(n)), Write(1, true)) == Lone(if n + 1 < WRITES then Opening(n + 1) else Running)
  {}

  lemma LoneEnds()
    ensures Enabled(Lone(Running), End(1)) && Apply(Lone(Running), End(1)) == Lone(Finishing)
    ensures Enabled(Lone(Finishing), Free(1)) && Apply(Lone(Finishing), Free(1)) == LoneReleased(Telling)
    ensures Enabled(LoneReleased(Telling), Tell(1)) && Apply(LoneReleased(Telling), Tell(1)) == LoneReleased(Leaving)
  {}

  lemma LoneIsReachable()
    ensures Reachable(LoneReleased(Leaving))
  {
    assert Leads(Start0(), [], Start0());
    hide Apply, Enabled, Leads, Lone, LoneReleased, Start0;
    LoneStart();
    ReachableThen(Start0(), Start(1, 0, false), Lone(Opening(0)));
    LoneMoves(0);
    ReachableThen(Lone(Opening(0)), Write(1, true), Lone(Opening(1)));
    LoneMoves(1);
    ReachableThen(Lone(Opening(1)), Write(1, true), Lone(Opening(2)));
    LoneMoves(2);
    ReachableThen(Lone(Opening(2)), Write(1, true), Lone(Running));
    LoneEnds();
    ReachableThen(Lone(Running), End(1), Lone(Finishing));
    ReachableThen(Lone(Finishing), Free(1), LoneReleased(Telling));
    ReachableThen(LoneReleased(Telling), Tell(1), LoneReleased(Leaving));
  }

  /**
    Without releaseOnce it would: the first turn has told its waiter, the next turn has the thread,
    and releasing once more would take the thread from it.
   */
  lemma SecondReleaseWouldFreeTheNextTurn()
    ensures exists s ::
      && Reachable(s) && Is(s, 1, Leaving) && Is(s, 2, Opening(0)) && Holds(s, TurnOwner(2), 0)
      && 0 in s.table.threads && 0 !in Freed(s.table, 0, 1).threads
  {
    var s := Apply(LoneReleased(Leaving), Start(2, 0, false));
    LoneIsReachable();
    ReachableThen(LoneReleased(Leaving), Start(2, 0, false), s);
    assert Is(s, 1, Leaving) && Is(s, 2, Opening(0)) && Holds(s, TurnOwner(2), 0);
  }

  // Completion

  /** How many steps of its own a turn has left, at most. */
  function StepsLeft(stage: Stage): nat {
    match stage
    case Opening(n) => 4 + (if n < WRITES then WRITES - n else 1)
    case Running => 4
    case Finishing => 3
    case Telling => 2
    case Leaving => 1
    case Undoing => 2
    case Aborting => 1
    case Failed => 0
    case Done => 0
  }

  predicate IsOwn(step: Step, id: TurnId) {
    && (step.Write? || step.Undo? || step.Abort? || step.End? || step.Free? || step.Tell? || step.Defer?)
    && step.id == id
  }

  function OwnStep(id: TurnId, stage: Stage): Step
    requires StepsLeft(stage) > 0
  {
    match stage
    case Opening(_) => Write(id, true)
    case Running => End(id)
    case Finishing => Free(id)
    case Telling => Tell(id)
    case Leaving => Defer(id)
    case Undoing => Undo(id)
    case Aborting => Abort(id)
  }

  /** A turn is never stuck, each of its steps brings it closer to its end, and nobody else moves it. */
  lemma TurnsMoveForward(s: State, step: Step, id: TurnId)
    requires Enabled(s, step) && id in s.runs
    ensures id in Apply(s, step).runs && Apply(s, step).runs[id].wait == s.runs[id].wait
    ensures IsOwn(step, id) ==> StepsLeft(Apply(s, step).runs[id].stage) < StepsLeft(s.runs[id].stage)
    ensures !IsOwn(step, id) ==> Apply(s, step).runs[id] == s.runs[id]
    ensures StepsLeft(s.runs[id].stage) > 0 ==> Enabled(s, OwnStep(id, s.runs[id].stage))
  {}

  function OwnSteps(steps: seq<Step>, id: TurnId): nat {
    if steps == [] then 0 else (if IsOwn(steps[0], id) then 1 else 0) + OwnSteps(steps[1..], id)
  }

  /** So a turn ends after a bounded number of steps of its own, however the others interleave. */
  lemma {:induction false} TurnEndsInBoundedSteps(s: State, steps: seq<Step>, t: State, id: TurnId)
    requires Leads(s, steps, t) && id in s.runs
    ensures id in t.runs && OwnSteps(steps, id) + StepsLeft(t.runs[id].stage) <= StepsLeft(s.runs[id].stage)
    decreases |steps|
  {
    hide Enabled, Apply, StepsLeft, IsOwn;
    if steps != [] {
      TurnsMoveForward(s, steps[0], id);
      TurnEndsInBoundedSteps(Apply(s, steps[0]), steps[1..], t, id);
    }
  }

  /** How many values a run puts on the turn's channel. */
  function Deliveries(s: State, steps: seq<Step>, id: TurnId): nat
    decreases |steps|
  {
    if steps == [] || !Enabled(s, steps[0]) then 0
    else
      (if steps[0] == Tell(id) && id in s.table.waiters then 1 else 0) + Deliveries(Apply(s, steps[0]), steps[1..], id)
  }

  lemma {:induction false} DeliveriesAreCounted(s: State, steps: seq<Step>, t: State, id: TurnId)
    requires Leads(s, steps, t)
    ensures SentTo(t.table, id) == SentTo(s.table, id) + Deliveries(s, steps, id)
    decreases |steps|
  {
    if steps != [] {
      DeliveriesAreCounted(Apply(s, steps[0]), steps[1..], t, id);
      assert SentTo(Apply(s, steps[0]).table, id)
        == SentTo(s.table, id) + if steps[0] == Tell(id) && id in s.table.waiters then 1 else 0;
    }
  }

  /**
    Exactly once: when a turn is over its waiter has been told once, if it has one; a turn that
    failed to start tells nobody and leaves no waiter behind. The send never has to wait.
   */
  lemma WaiterIsToldExactlyOnce(steps: seq<Step>, s: State, id: TurnId)
    requires Leads(Start0(), steps, s)
    ensures Deliveries(Start0(), steps, id) <= 1
    ensures Is(s, id, Done) ==> Deliveries(Start0(), steps, id) == if s.runs[id].wait then 1 else 0
    ensures Is(s, id, Failed) ==> Deliveries(Start0(), steps, id) == 0
    ensures Is(s, id, Done) || Is(s, id, Failed) ==> id !in s.table.waiters && id !in s.table.active
    ensures Is(s, id, Telling) ==> SentTo(s.table, id) == 0
  {
    StartKeepsInv();
    RunKeepsInv(Start0(), steps, s);
    InvAt(s, id, 0, 0, 0);
    DeliveriesAreCounted(Start0(), steps, s, id);
    hide Inv, Leads, Deliveries;
  }

  /** A thread can be taken, by a turn or by a compaction, exactly if nobody holds it; else nothing changes. */
  lemma TakenIffFree(steps: seq<Step>, s: State, thread: Thread, id: TurnId, wait: bool, c: int)
    requires Leads(Start0(), steps, s)
    ensures Enabled(s, Start(id, thread, wait)) ==>
      var t := Apply(s, Start(id, thread, wait));
      if exists o :: Holds(s, o, thread) then t == s else Holds(t, TurnOwner(id), thread)
    ensures Enabled(s, Lock(c, thread)) ==>
      var t := Apply(s, Lock(c, thread));
      if exists o :: Holds(s, o, thread) then t == s else Holds(t, CompactionOwner(c), thread)
  {
    MapsAgree(steps, s, 0, thread);
  }

  // Interruption

  /** Somebody interrupts the turn while it is active. */
  ghost predicate IsInterrupted(s: State, steps: seq<Step>, id: TurnId)
    decreases |steps|
  {
    && steps != [] && Enabled(s, steps[0])
    && ((steps[0] == Interrupt(id) && id in s.table.active) || IsInterrupted(Apply(s, steps[0]), steps[1..], id))
  }

  predicate IsCancelled(s: State, id: TurnId) {
    id in s.table.active && s.table.active[id]
  }

  lemma StepCancelsIff(s: State, step: Step, id: TurnId)
    requires Inv(s) && Enabled(s, step) && id in Apply(s, step).table.active
    ensures IsCancelled(Apply(s, step), id) <==>
      IsCancelled(s, id) || (step == Interrupt(id) && id in s.table.active)
    ensures id !in s.table.active ==> step.Start? && step.id == id
  {
    hide Inv;
    InvAt(s, id, 0, 0, 0);
  }

  /** A turn that is over is never active again. */
  lemma {:induction false} OverStaysOver(s: State, steps: seq<Step>, t: State, id: TurnId)
    requires Inv(s) && Leads(s, steps, t) && id in s.runs && id !in s.table.active
    ensures id in t.runs && id !in t.table.active
    decreases |steps|
  {
    if steps != [] {
      StepKeepsInv(s, steps[0]);
      TurnsMoveForward(s, steps[0], id);
      if id in Apply(s, steps[0]).table.active {
        StepCancelsIff(s, steps[0], id);
      }
      hide Inv, Apply, Enabled;
      OverStaysOver(Apply(s, steps[0]), steps[1..], t, id);
    }
  }

  lemma {:induction false} RunCancelsIff(s: State, steps: seq<Step>, t: State, id: TurnId)
    requires Inv(s) && Leads(s, steps, t) && id in t.table.active
    ensures IsCancelled(t, id) <==> IsCancelled(s, id) || IsInterrupted(s, steps, id)
    decreases |steps|
  {
    if steps != [] {
      var u := Apply(s, steps[0]);
      StepKeepsInv(s, steps[0]);
      hide Inv, Apply, Enabled;
      RunCancelsIff(u, steps[1..], t, id);
      if id in u.table.active {
        StepCancelsIff(s, steps[0], id);
      } else {
        NotActiveYet(s, steps[0], id);
        if id in u.runs {
          OverStaysOver(u, steps[1..], t, id);
        }
      }
    }
  }

  /** A turn that is not active, and has not been, was not interrupted. */
  lemma NotActiveYet(s: State, step: Step, id: TurnId)
    requires Inv(s) && Enabled(s, step) && id !in Apply(s, step).table.active
    ensures id in s.table.active ==> id in Apply(s, step).runs
    ensures step == Interrupt(id) ==> id !in s.table.active
    ensures !IsCancelled(Apply(s, step), id)
  {
    hide Inv;
    InvAt(s, id, 0, 0, 0);
  }

  /** A turn under way is cancelled exactly if somebody interrupted it: no other turn and no compaction does. */
  lemma CancelledIffInterrupted(steps: seq<Step>, s: State, id: TurnId)
    requires Leads(Start0(), steps, s) && id in s.table.active
    ensures IsCancelled(s, id) <==> IsInterrupted(Start0(), steps, id)
  {
    StartKeepsInv();
    RunCancelsIff(Start0(), steps, s, id);
    hide Inv;
  }

  // The first writes

  /** How many of the turn's writes succeed, or fail. */
  function Writes(steps: seq<Step>, id: TurnId, ok: bool): nat {
    if steps == [] then 0 else (if steps[0] == Write(id, ok) then 1 else 0) + Writes(steps[1..], id, ok)
  }

  /** Some write of the turn has failed. */
  predicate IsBroken(s: State, id: TurnId) {
    Is(s, id, Undoing) || Is(s, id, Aborting) || Is(s, id, Failed)
  }

  /** How many have succeeded; of a broken turn this does not matter. */
  function Stored(s: State, id: TurnId): int {
    if id !in s.runs || IsBroken(s, id) then 0
    else if s.runs[id].stage.Opening? then s.runs[id].stage.stored
    else 3
  }

  predicate HasLeft(s: State, id: TurnId) {
    id in s.runs && s.runs[id].stage.Opening? ==> s.runs[id].stage.stored < 3
  }

  lemma StepStores(s: State, step: Step, id: TurnId)
    requires Enabled(s, step) && HasLeft(s, id)
    ensures HasLeft(Apply(s, step), id)
    ensures !IsBroken(Apply(s, step), id) ==>
      Stored(Apply(s, step), id) == Stored(s, id) + if step == Write(id, true) then 1 else 0
    ensures IsBroken(Apply(s, step), id) <==> IsBroken(s, id) || step == Write(id, false)
  {}

  lemma {:induction false} RunStores(s: State, steps: seq<Step>, t: State, id: TurnId)
    requires Leads(s, steps, t) && HasLeft(s, id)
    ensures IsBroken(t, id) <==> IsBroken(s, id) || Writes(steps, id, false) > 0
    ensures !IsBroken(t, id) ==> Stored(t, id) == Stored(s, id) + Writes(steps, id, true)
    decreases |steps|
  {
    if steps != [] {
      StepStores(s, steps[0], id);
      hide Apply, Enabled, IsBroken, Stored, HasLeft;
      RunStores(Apply(s, steps[0]), steps[1..], t, id);
    }
  }

  /**
    A turn fails exactly if one of its writes does; otherwise it is under way once three of them
    succeeded, and not before.
   */
  lemma WritesDecide(steps: seq<Step>, s: State, id: TurnId)
    requires Leads(Start0(), steps, s) && id in s.runs
    ensures IsBroken(s, id) <==> Writes(steps, id, false) > 0
    ensures !IsBroken(s, id) ==>
      (if s.runs[id].stage.Opening? then s.runs[id].stage.stored else 3) == Writes(steps, id, true)
  {
    RunStores(Start0(), steps, s, id);
  }
}
