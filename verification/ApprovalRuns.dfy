/**
  Every interleaving of waiting turns, people answering, timers, interruptions and restarts around
  one approvals table (internal/engine/approvals.go). A step is one statement on the table, one
  region under the engine's lock, or one channel operation.
 */
module ApprovalRuns {
  import opened Text
  import opened Approvals

  /** How a request ended. */
  datatype Result =
    | Remembered(allow: bool)  // an earlier answer was remembered for the project
    | Answered(approve: bool)  // a value arrived on the channel
    | TimedOut
    | Interrupted
    | NotStored                // the row could not be written

  /** Where a waiting turn is. */
  datatype Waiter =
    | Asked            // no remembered answer
    | Created          // the row is stored
    | Waiting          // the channel is in the map
    | LastLook         // the timer fired, but the row could not be expired
    | Leaving(result: Result)
    | Left(result: Result)

  /** Where a person's answer is. `id` is the request it won. */
  datatype Responder =
    | Won(id: Id, approve: bool, remember: bool)                   // the row is decided
    | Holding(id: Id, approve: bool, remember: bool, found: bool)  // the map has been looked up
    | Delivered(id: Id, approve: bool, remember: bool)
    | Lost                                                         // decided by another, or not stored

  /**
    `keys` says what each request would be remembered as: its project, tool and signature, if it has
    a project. `lasting` are the requests decided by somebody who asked for the answer to be remembered.
    `faulty` says that some statement on the approvals table has failed.
   */
  datatype State = State(
    desk: Desk, waiters: map<Id, Waiter>, responders: map<int, Responder>,
    keys: map<Id, Option<string>>, memory: map<string, bool>, lasting: set<Id>, faulty: bool)

  /** `ok` is false where the statement itself fails. */
  datatype Step =
    | Ask(id: Id, key: Option<string>)
    | Create(id: Id, ok: bool)
    | Register(id: Id)
    | Receive(id: Id)
    | Timer(id: Id, ok: bool)
    | Look(id: Id)
    | Interrupt(id: Id, ok: bool)
    | Unregister(id: Id)
    | Respond(r: int, id: Id, approve: bool, remember: bool, ok: bool)
    | Lookup(r: int)
    | Deliver(r: int)
    | Remember(r: int)
    | Forget(forgotten: string)
    | Restart

  predicate At(s: State, id: Id, w: Waiter) {
    id in s.waiters && s.waiters[id] == w
  }

  function RememberedFor(s: State, key: Option<string>): Option<bool> {
    match key
    case Some(k) => if k in s.memory then Some(s.memory[k]) else None
    case None => None
  }

  /** When a step can be taken. A send on a full channel waits, so it is not a step. */
  predicate Enabled(s: State, step: Step) {
    match step
    case Ask(id, _) => id !in s.waiters && id !in s.keys
    case Create(id, _) => At(s, id, Asked)
    case Register(id) => At(s, id, Created)
    case Receive(id) => At(s, id, Waiting) && HasAnswer(s.desk, id)
    case Timer(id, _) => At(s, id, Waiting)
    case Look(id) => At(s, id, LastLook)
    case Interrupt(id, _) => At(s, id, Waiting)
    case Unregister(id) => id in s.waiters && s.waiters[id].Leaving?
    case Respond(r, _, _, _, _) => r !in s.responders
    case Lookup(r) => r in s.responders && s.responders[r].Won?
    case Deliver(r) =>
      && r in s.responders && s.responders[r].Holding?
      && (s.responders[r].found ==> s.responders[r].id in s.desk.buffers && !WouldBlock(s.desk, s.responders[r].id))
    case Remember(r) => r in s.responders && s.responders[r].Delivered? && s.responders[r].id in s.keys
    case Forget(_) => true
    case Restart => true
  }

  function Ends(s: State, id: Id, result: Result): State {
    s.(waiters := s.waiters[id := Leaving(result)])
  }

  /** Takes the value that is on the channel. */
  function Takes(s: State, id: Id): State
    requires HasAnswer(s.desk, id)
  {
    Ends(s, id, Answered(s.desk.buffers[id][0])).(desk := Taken(s.desk, id))
  }

  function Expires(s: State, id: Id, ok: bool): State {
    s.(desk := if ok then Decide(s.desk, id, Expired) else s.desk, faulty := s.faulty || !ok)
  }

  function Wins(s: State, r: int, id: Id, approve: bool, remember: bool): State {
    s.(desk := Decide(s.desk, id, Decision(approve)), responders := s.responders[r := Won(id, approve, remember)],
       lasting := s.lasting + if remember then {id} else {})
  }

  /** Turns, answers and channels live in the engine's memory; only finished turns are kept here. */
  function Restarted(s: State): State {
    s.(desk := ExpireAll(Desk(s.desk.rows, {}, map[])),
       waiters := map id | id in s.waiters && s.waiters[id].Left? :: s.waiters[id],
       responders := map[])
  }

  function Apply(s: State, step: Step): State
    requires Enabled(s, step)
  {
    match step
    case Ask(id, key) =>
      var remembered := RememberedFor(s, key);
      s.(keys := s.keys[id := key],
         waiters := s.waiters[id := if remembered.Some? then Left(Remembered(remembered.value)) else Asked])
    case Create(id, ok) =>
      if ok then s.(desk := s.desk.(rows := s.desk.rows[id := Pending]), waiters := s.waiters[id := Created])
      else s.(waiters := s.waiters[id := Left(NotStored)], faulty := true)
    case Register(id) => s.(desk := Opened(s.desk, id), waiters := s.waiters[id := Waiting])
    case Receive(id) => Takes(s, id)
    case Timer(id, ok) =>
      if ok && IsPending(s.desk, id) then Ends(Expires(s, id, ok), id, TimedOut)
      else Expires(s, id, ok).(waiters := s.waiters[id := LastLook])
    case Look(id) => if HasAnswer(s.desk, id) then Takes(s, id) else Ends(s, id, TimedOut)
    case Interrupt(id, ok) => Ends(Expires(s, id, ok), id, Interrupted)
    case Unregister(id) =>
      s.(desk := s.desk.(registered := s.desk.registered - {id}),
         waiters := s.waiters[id := Left(s.waiters[id].result)])
    case Respond(r, id, approve, remember, ok) =>
      if ok && IsPending(s.desk, id) then
        Wins(s, r, id, approve, remember)
      else s.(responders := s.responders[r := Lost], faulty := s.faulty || !ok)
    case Lookup(r) =>
      var x := s.responders[r];
      s.(responders := s.responders[r := Holding(x.id, x.approve, x.remember, x.id in s.desk.registered)])
    case Deliver(r) =>
      var x := s.responders[r];
      s.(desk := if x.found then Sent(s.desk, x.id, x.approve) else s.desk,
         responders := s.responders[r := Delivered(x.id, x.approve, x.remember)])
    case Remember(r) =>
      var x := s.responders[r];
      var after := s.(responders := s.responders[r := Delivered(x.id, x.approve, false)]);
      if x.remember && s.keys[x.id].Some? then after.(memory := s.memory[s.keys[x.id].value := x.approve]) else after
    case Forget(key) => s.(memory := s.memory - {key})
    case Restart => Restarted(s)
  }

  /** The engine's memory beside the desk. Each step is what its statements, regions and operations do. */
  class Engine {
    const desk: ApprovalDesk
    var waiters: map<Id, Waiter>
    var responders: map<int, Responder>
    var keys: map<Id, Option<string>>
    var memory: map<string, bool>
    ghost var lasting: set<Id>
    ghost var faulty: bool

    ghost function Value(): State
      reads this, desk
    {
      State(desk.Value(), waiters, responders, keys, memory, lasting, faulty)
    }

    constructor (memory: map<string, bool>)
      ensures Initial(Value()) && this.memory == memory && fresh(desk)
    {
      desk := new ApprovalDesk();
      waiters, responders, keys, this.memory, lasting, faulty := map[], map[], map[], memory, {}, false;
    }

    method Perform(step: Step)
      requires Enabled(Value(), step)
      modifies this, desk
      ensures Value() == Apply(old(Value()), step)
    {
      match step {
        case Ask(id, key) =>
          var remembered := if key.Some? && key.value in memory then Some(memory[key.value]) else None;
          keys := keys[id := key];
          waiters := waiters[id := if remembered.Some? then Left(Remembered(remembered.value)) else Asked];
        case Create(id, ok) =>
          if ok {
            desk.CreateApproval(id);
          }
          waiters, faulty := waiters[id := if ok then Created else Left(NotStored)], faulty || !ok;
        case Register(id) =>
          desk.Register(id);
          waiters := waiters[id := Waiting];
        case Receive(id) =>
          var answer := desk.TryReceive(id);
          waiters := waiters[id := Leaving(Answered(answer.value))];
        case Timer(id, ok) =>
          var expired := Expire(id, ok);
          waiters := waiters[id := if expired then Leaving(TimedOut) else LastLook];
        case Look(id) =>
          var answer := desk.TryReceive(id);
          waiters := waiters[id := Leaving(if answer.Some? then Answered(answer.value) else TimedOut)];
        case Interrupt(id, ok) =>
          var _ := Expire(id, ok);
          waiters := waiters[id := Leaving(Interrupted)];
        case Unregister(id) =>
          desk.Unregister(id);
          waiters := waiters[id := Left(waiters[id].result)];
        case Respond(r, id, approve, remember, ok) =>
          Answer(r, id, approve, remember, ok);
        case Lookup(r) =>
          var x := responders[r];
          responders := responders[r := Holding(x.id, x.approve, x.remember, x.id in desk.registered)];
        case Deliver(r) =>
          var x := responders[r];
          if x.found {
            desk.Send(x.id, x.approve);
          }
          responders := responders[r := Delivered(x.id, x.approve, x.remember)];
        case Remember(r) =>
          var x := responders[r];
          if x.remember && keys[x.id].Some? {
            memory := memory[keys[x.id].value := x.approve];
          }
          responders := responders[r := Delivered(x.id, x.approve, false)];
        case Forget(key) =>
          memory := memory - {key};
        case Restart =>
          waiters, responders := map id | id in waiters && waiters[id].Left? :: waiters[id], map[];
          desk.registered, desk.buffers := {}, map[];
          desk.ExpirePendingApprovals();
      }
    }

    /** Tries to expire a row; the statement may fail. */
    method Expire(id: Id, ok: bool) returns (expired: bool)
      modifies this`faulty, desk
      ensures Value() == Expires(old(Value()), id, ok) && (expired <==> ok && IsPending(old(desk.Value()), id))
    {
      expired := false;
      if ok {
        expired := desk.DecideApproval(id, Expired);
      }
      faulty := faulty || !ok;
    }

    /** A person's answer, first of all, is an update of the row. */
    method Answer(r: int, id: Id, approve: bool, remember: bool, ok: bool)
      requires Enabled(Value(), Respond(r, id, approve, remember, ok))
      modifies this, desk
      ensures Value() == Apply(old(Value()), Respond(r, id, approve, remember, ok))
    {
      var won := false;
      if ok {
        won := desk.DecideApproval(id, Decision(approve));
      }
      responders := responders[r := if won then Won(id, approve, remember) else Lost];
      lasting, faulty := lasting + (if won && remember then {id} else {}), faulty || !ok;
    }
  }

  ghost predicate Leads(s: State, steps: seq<Step>, t: State)
    decreases |steps|
  {
    if steps == [] then s == t
    else Enabled(s, steps[0]) && Leads(Apply(s, steps[0]), steps[1..], t)
  }

  /** Nothing has been asked yet; answers may be remembered from before. */
  ghost predicate Initial(s: State) {
    && s.desk == Desk(map[], {}, map[]) && s.waiters == map[] && s.responders == map[]
    && s.keys == map[] && s.lasting == {} && !s.faulty
  }

  // What holds at every step

  /** The row of a request has the status that goes with an answer. */
  predicate RowIs(s: State, id: Id, approve: bool) {
    id in s.desk.rows && s.desk.rows[id] == if approve then Approved else Denied
  }

  predicate RowDecided(s: State, id: Id) {
    id in s.desk.rows && s.desk.rows[id] != Pending
  }

  predicate OnItsWay(x: Responder, id: Id) {
    (x.Won? || x.Holding?) && x.id == id
  }

  /** No answer to this request is still on its way. */
  ghost predicate NoneToCome(s: State, id: Id) {
    forall r | r in s.responders :: !OnItsWay(s.responders[r], id)
  }

  /** What a result says about the row. */
  ghost predicate ResultOk(s: State, id: Id, result: Result) {
    match result
    case Answered(approve) => RowIs(s, id, approve) && !HasAnswer(s.desk, id) && NoneToCome(s, id)
    case TimedOut => id in s.desk.rows && (RowDecided(s, id) || s.faulty)
    case Interrupted => id in s.desk.rows && (RowDecided(s, id) || s.faulty)
    case NotStored => id !in s.desk.rows
    case Remembered(_) => id !in s.desk.rows
  }

  /** The channel is in the map from the registration until the turn goes on. */
  predicate IsListening(w: Waiter) {
    w == Waiting || w == LastLook || w.Leaving?
  }

  /** What a waiter's position says about the desk. */
  ghost predicate PositionOk(s: State, id: Id, w: Waiter) {
    (id in s.desk.registered <==> IsListening(w)) &&
    match w
    case Asked => id !in s.desk.rows && id !in s.desk.buffers
    case Created => id in s.desk.rows && id !in s.desk.buffers
    case Waiting => id in s.desk.rows
    case LastLook => id in s.desk.rows && (RowDecided(s, id) || s.faulty)
    case Leaving(result) => ResultOk(s, id, result)
    case Left(result) => ResultOk(s, id, result)
  }

  ghost predicate WaiterOk(s: State, id: Id) {
    id in s.waiters ==> PositionOk(s, id, s.waiters[id])
  }

  /** At most one value is on a channel, it is the row's, and no other will come. */
  ghost predicate BufferOk(s: State, id: Id) {
    id in s.desk.buffers ==>
      var b := s.desk.buffers[id];
      |b| <= 1 && (b != [] ==> RowIs(s, id, b[0]) && NoneToCome(s, id))
  }

  ghost predicate ResponderOk(s: State, r: int) {
    r in s.responders && s.responders[r] != Lost ==>
      var x := s.responders[r];
      && RowIs(s, x.id, x.approve) && (x.remember ==> x.id in s.lasting)
      && (x.Holding? && x.found ==> x.id in s.desk.buffers)
  }

  /** A request is won by at most one answer. */
  ghost predicate OneWinner(s: State, q: int, r: int) {
    (&& q in s.responders && r in s.responders && s.responders[q] != Lost && s.responders[r] != Lost
     && s.responders[q].id == s.responders[r].id) ==> q == r
  }

  /** Everything is about requests that were asked. */
  ghost predicate Known(s: State) {
    && s.waiters.Keys <= s.keys.Keys && s.desk.rows.Keys <= s.keys.Keys
    && s.desk.buffers.Keys <= s.waiters.Keys && s.desk.registered <= s.desk.buffers.Keys
  }

  ghost predicate RequestOk(s: State, id: Id) {
    WaiterOk(s, id) && BufferOk(s, id)
  }

  ghost predicate AnswersOk(s: State, q: int, r: int) {
    ResponderOk(s, q) && OneWinner(s, q, r)
  }

  ghost predicate Inv(s: State) {
    Known(s) && (forall id :: RequestOk(s, id)) && (forall q, r :: AnswersOk(s, q, r))
  }

  lemma InitialKeepsInv(s: State)
    requires Initial(s)
    ensures Inv(s)
  {}

  /** What the invariant says about the requests `id`, `at` and the answers `q`, `r`. */
  lemma InvAt(s: State, id: Id, at: Id, q: int, r: int)
    requires Inv(s)
    ensures Known(s) && WaiterOk(s, id) && BufferOk(s, id) && WaiterOk(s, at) && BufferOk(s, at)
    ensures ResponderOk(s, q) && ResponderOk(s, r) && OneWinner(s, q, r)
  {
    assert RequestOk(s, id) && RequestOk(s, at) && AnswersOk(s, q, r) && AnswersOk(s, r, q);
  }

  lemma InvIntro(s: State)
    requires Known(s) && (forall id :: RequestOk(s, id)) && (forall q, r :: AnswersOk(s, q, r))
    ensures Inv(s)
  {}

  /** What steps are made of. */
  datatype Part =
    | Admit(me: Id, key: Option<string>, w: Waiter)
    | Store(me: Id)
    | List(me: Id)
    | Unlist(me: Id)
    | Move(me: Id, w: Waiter)
    | Take(me: Id)
    | Expire(me: Id, ok: bool)
    | Win(r: int, me: Id, approve: bool, remember: bool)
    | Lose(r: int)
    | Recall(memory: map<string, bool>)
    | Fail(fault: bool)
    | Put(me: Id, approve: bool)

  /** The request a part is about, if any. */
  function About(part: Part): Id {
    if part.Lose? || part.Recall? || part.Fail? then 0 else part.me
  }

  predicate ResultIsAnswer(w: Waiter) {
    (w.Leaving? || w.Left?) && w.result.Answered?
  }

  /** When a part keeps the invariant: a waiter may take any position that agrees with the desk, and so on. */
  ghost predicate Fits(s: State, part: Part) {
    match part
    case Admit(me, _, w) =>
      me !in s.waiters && me !in s.keys && (w == Asked || (w.Left? && w.result.Remembered?))
    case Store(me) => At(s, me, Asked)
    case List(me) => At(s, me, Created)
    case Unlist(me) => me in s.waiters && s.waiters[me].Leaving?
    case Move(me, w) => me in s.waiters && PositionOk(s, me, w)
    case Take(me) => HasAnswer(s.desk, me) && me in s.waiters && IsListening(s.waiters[me])
    case Expire(me, _) => At(s, me, Waiting)
    case Win(r, me, _, _) => r !in s.responders && IsPending(s.desk, me)
    case Lose(r) => r !in s.responders
    case Recall(_) => true
    case Fail(_) => true
    case Put(me, approve) =>
      && me in s.desk.buffers && s.desk.buffers[me] == [] && RowIs(s, me, approve) && NoneToCome(s, me)
      && me in s.waiters && !ResultIsAnswer(s.waiters[me])
  }

  ghost function Done(s: State, part: Part): State
    requires Fits(s, part)
  {
    match part
    case Admit(me, key, w) => s.(keys := s.keys[me := key], waiters := s.waiters[me := w])
    case Store(me) =>
      s.(desk := s.desk.(rows := s.desk.rows[me := Pending]), waiters := s.waiters[me := Created])
    case List(me) => s.(desk := Opened(s.desk, me), waiters := s.waiters[me := Waiting])
    case Unlist(me) =>
      s.(desk := s.desk.(registered := s.desk.registered - {me}),
         waiters := s.waiters[me := Left(s.waiters[me].result)])
    case Move(me, w) => s.(waiters := s.waiters[me := w])
    case Take(me) => Takes(s, me)
    case Expire(me, ok) => Expires(s, me, ok)
    case Win(r, me, approve, remember) => Wins(s, r, me, approve, remember)
    case Lose(r) => s.(responders := s.responders[r := Lost])
    case Recall(memory) => s.(memory := memory)
    case Fail(fault) => s.(faulty := s.faulty || fault)
    case Put(me, approve) => s.(desk := Sent(s.desk, me, approve))
  }

  lemma PartKeepsKnown(s: State, part: Part)
    requires Inv(s) && Fits(s, part)
    ensures Known(Done(s, part))
  {
    InvAt(s, About(part), About(part), 0, 0);
    hide Inv, WaiterOk, ResponderOk;
  }

  lemma PartKeepsOwnWaiter(s: State, part: Part)
    requires Inv(s) && Fits(s, part)
    ensures WaiterOk(Done(s, part), About(part))
  {
    InvAt(s, About(part), About(part), 0, 0);
    hide Inv, ResponderOk;
  }

  /** Nothing that the position of one waiter is about has changed. */
  ghost predicate Unmoved(s: State, t: State, id: Id) {
    && (id in s.waiters <==> id in t.waiters) && (id in s.waiters ==> s.waiters[id] == t.waiters[id])
    && (id in s.desk.registered <==> id in t.desk.registered)
    && (id in s.desk.rows <==> id in t.desk.rows) && (id in s.desk.rows ==> s.desk.rows[id] == t.desk.rows[id])
    && (id in s.desk.buffers <==> id in t.desk.buffers)
    && (id in s.desk.buffers ==> s.desk.buffers[id] == t.desk.buffers[id])
    && (s.faulty ==> t.faulty) && (NoneToCome(s, id) ==> NoneToCome(t, id))
  }

  lemma UnmovedKeepsWaiter(s: State, t: State, id: Id)
    requires WaiterOk(s, id) && Unmoved(s, t, id)
    ensures WaiterOk(t, id)
  {
    hide NoneToCome;
  }

  lemma OthersAreUnmoved(s: State, part: Part, id: Id)
    requires Fits(s, part) && id != About(part)
    ensures Unmoved(s, Done(s, part), id)
  {
    hide PositionOk;
  }

  lemma PartKeepsOtherWaiter(s: State, part: Part, id: Id)
    requires Inv(s) && Fits(s, part) && id != About(part)
    ensures WaiterOk(Done(s, part), id)
  {
    InvAt(s, id, id, 0, 0);
    OthersAreUnmoved(s, part, id);
    hide *;
    UnmovedKeepsWaiter(s, Done(s, part), id);
  }

  lemma PartKeepsBuffer(s: State, part: Part, id: Id)
    requires Inv(s) && Fits(s, part)
    ensures BufferOk(Done(s, part), id)
  {
    InvAt(s, id, About(part), 0, 0);
    hide Inv, ResponderOk;
  }

  lemma PartKeepsResponder(s: State, part: Part, r: int)
    requires Inv(s) && Fits(s, part)
    ensures ResponderOk(Done(s, part), r)
  {
    InvAt(s, About(part), About(part), r, r);
    hide Inv, NoneToCome, OneWinner, PositionOk, Known;
  }

  lemma PartKeepsWinner(s: State, part: Part, q: int, r: int)
    requires Inv(s) && Fits(s, part)
    ensures OneWinner(Done(s, part), q, r)
  {
    InvAt(s, About(part), About(part), q, r);
    hide Inv, NoneToCome, PositionOk, Known;
  }

  lemma WaiterAndBuffer(s: State, id: Id)
    requires WaiterOk(s, id) && BufferOk(s, id)
    ensures RequestOk(s, id)
  {}

  lemma ResponderAndWinner(s: State, q: int, r: int)
    requires ResponderOk(s, q) && OneWinner(s, q, r)
    ensures AnswersOk(s, q, r)
  {}

  /** Every part keeps the invariant, request by request and answer by answer. */
  lemma PartKeepsInv(s: State, part: Part)
    requires Inv(s) && Fits(s, part)
    ensures Inv(Done(s, part))
  {
    hide *;
    var t := Done(s, part);
    PartKeepsKnown(s, part);
    forall id ensures RequestOk(t, id) {
      if id == About(part) {
        PartKeepsOwnWaiter(s, part);
      } else {
        PartKeepsOtherWaiter(s, part, id);
      }
      PartKeepsBuffer(s, part, id);
      WaiterAndBuffer(t, id);
    }
    forall q, r ensures AnswersOk(t, q, r) {
      PartKeepsResponder(s, part, q);
      PartKeepsWinner(s, part, q, r);
      ResponderAndWinner(t, q, r);
    }
    InvIntro(t);
  }

  lemma RestartKeepsInv(s: State)
    requires Inv(s)
    ensures Inv(Restarted(s))
  {
    hide Inv;
    var t := Restarted(s);
    assert Known(t) by { InvAt(s, 0, 0, 0, 0); }
    forall id ensures RequestOk(t, id) { InvAt(s, id, id, 0, 0); }
    forall q, r ensures AnswersOk(t, q, r) { InvAt(s, 0, 0, q, r); }
    InvIntro(t);
  }

  /** An answer moves forward. */
  lemma AdvanceKeepsInv(s: State, w: int, x: Responder)
    requires Inv(s)
    requires w in s.responders && s.responders[w] != Lost && x != Lost
    requires x.id == s.responders[w].id && x.approve == s.responders[w].approve
    requires x.remember ==> s.responders[w].remember
    requires OnItsWay(x, x.id) ==> OnItsWay(s.responders[w], x.id)
    requires x.Holding? && x.found ==> x.id in s.desk.buffers
    ensures Inv(s.(responders := s.responders[w := x]))
  {
    hide Inv;
    var t := s.(responders := s.responders[w := x]);
    assert Known(t) by { InvAt(s, 0, 0, w, w); }
    forall id ensures RequestOk(t, id) { InvAt(s, id, id, w, w); }
    forall q, r ensures AnswersOk(t, q, r) {
      InvAt(s, x.id, x.id, q, r);
      InvAt(s, x.id, x.id, w, r);
      InvAt(s, x.id, x.id, q, w);
    }
    InvIntro(t);
  }

  lemma AskKeepsInv(s: State, me: Id, key: Option<string>)
    requires Inv(s) && Enabled(s, Ask(me, key))
    ensures Inv(Apply(s, Ask(me, key)))
  {
    var remembered := RememberedFor(s, key);
    PartKeepsInv(s, Admit(me, key, if remembered.Some? then Left(Remembered(remembered.value)) else Asked));
    hide Inv;
  }

  lemma NotStoredKeepsInv(s: State, me: Id)
    requires Inv(s) && Enabled(s, Create(me, false))
    ensures Inv(Apply(s, Create(me, false)))
  {
    hide Inv;
    InvAt(s, me, me, 0, 0);
    PartKeepsInv(s, Move(me, Left(NotStored)));
    PartKeepsInv(Done(s, Move(me, Left(NotStored))), Fail(true));
  }

  lemma TimerKeepsInv(s: State, me: Id, ok: bool)
    requires Inv(s) && Enabled(s, Timer(me, ok))
    ensures Inv(Apply(s, Timer(me, ok)))
  {
    hide Inv;
    InvAt(s, me, me, 0, 0);
    PartKeepsInv(s, Expire(me, ok));
    var w := if ok && IsPending(s.desk, me) then Leaving(TimedOut) else LastLook;
    PartKeepsInv(Expires(s, me, ok), Move(me, w));
  }

  lemma InterruptKeepsInv(s: State, me: Id, ok: bool)
    requires Inv(s) && Enabled(s, Interrupt(me, ok))
    ensures Inv(Apply(s, Interrupt(me, ok)))
  {
    hide Inv;
    InvAt(s, me, me, 0, 0);
    PartKeepsInv(s, Expire(me, ok));
    PartKeepsInv(Expires(s, me, ok), Move(me, Leaving(Interrupted)));
  }

  lemma LookKeepsInv(s: State, me: Id)
    requires Inv(s) && Enabled(s, Look(me))
    ensures Inv(Apply(s, Look(me)))
  {
    hide Inv;
    InvAt(s, me, me, 0, 0);
    if HasAnswer(s.desk, me) {
      PartKeepsInv(s, Take(me));
    } else {
      PartKeepsInv(s, Move(me, Leaving(TimedOut)));
    }
  }

  lemma RespondKeepsInv(s: State, w: int, me: Id, approve: bool, remember: bool, ok: bool)
    requires Inv(s) && Enabled(s, Respond(w, me, approve, remember, ok))
    ensures Inv(Apply(s, Respond(w, me, approve, remember, ok)))
  {
    hide Inv;
    if ok && IsPending(s.desk, me) {
      PartKeepsInv(s, Win(w, me, approve, remember));
    } else {
      PartKeepsInv(s, Lose(w));
      PartKeepsInv(s.(responders := s.responders[w := Lost]), Fail(!ok));
    }
  }

  lemma LookupKeepsInv(s: State, w: int)
    requires Inv(s) && Enabled(s, Lookup(w))
    ensures Inv(Apply(s, Lookup(w)))
  {
    hide Inv;
    var x := s.responders[w];
    InvAt(s, x.id, x.id, w, w);
    AdvanceKeepsInv(s, w, Holding(x.id, x.approve, x.remember, x.id in s.desk.registered));
  }

  /** Once the one answer on its way has been handed over, no other is on its way. */
  lemma LastOnItsWay(s: State, w: int, x: Responder)
    requires Inv(s) && x.Delivered? && w in s.responders && OnItsWay(s.responders[w], x.id)
    ensures NoneToCome(s.(responders := s.responders[w := x]), x.id)
  {
    hide Inv;
    var t := s.(responders := s.responders[w := x]);
    forall r | r in t.responders ensures !OnItsWay(t.responders[r], x.id) { InvAt(s, x.id, x.id, w, r); }
  }

  lemma DeliverKeepsInv(s: State, w: int)
    requires Inv(s) && Enabled(s, Deliver(w))
    ensures Inv(Apply(s, Deliver(w)))
  {
    hide Inv;
    var h := s.responders[w];
    var x := Delivered(h.id, h.approve, h.remember);
    var t := s.(responders := s.responders[w := x]);
    InvAt(s, x.id, x.id, w, w);
    AdvanceKeepsInv(s, w, x);
    if h.found {
      LastOnItsWay(s, w, x);
      PartKeepsInv(t, Put(x.id, x.approve));
    }
  }

  lemma RememberKeepsInv(s: State, w: int)
    requires Inv(s) && Enabled(s, Remember(w))
    ensures Inv(Apply(s, Remember(w)))
  {
    hide Inv;
    var x := s.responders[w];
    var after := s.(responders := s.responders[w := Delivered(x.id, x.approve, false)]);
    AdvanceKeepsInv(s, w, Delivered(x.id, x.approve, false));
    if x.remember && s.keys[x.id].Some? {
      PartKeepsInv(after, Recall(s.memory[s.keys[x.id].value := x.approve]));
    }
  }

  lemma StepKeepsInv(s: State, step: Step)
    requires Inv(s) && Enabled(s, step)
    ensures Inv(Apply(s, step))
  {
    hide Inv;
    match step
    case Receive(id) =>
      InvAt(s, id, id, 0, 0);
      PartKeepsInv(s, Take(id));
    case Timer(id, ok) => TimerKeepsInv(s, id, ok);
    case Look(id) => LookKeepsInv(s, id);
    case Interrupt(id, ok) => InterruptKeepsInv(s, id, ok);
    case Respond(r, id, approve, remember, ok) => RespondKeepsInv(s, r, id, approve, remember, ok);
    case Lookup(r) => LookupKeepsInv(s, r);
    case Deliver(r) => DeliverKeepsInv(s, r);
    case Remember(r) => RememberKeepsInv(s, r);
    case Ask(id, key) => AskKeepsInv(s, id, key);
    case Create(id, ok) =>
      if ok {
        PartKeepsInv(s, Store(id));
      } else {
        NotStoredKeepsInv(s, id);
      }
    case Register(id) => PartKeepsInv(s, List(id));
    case Unregister(id) => PartKeepsInv(s, Unlist(id));
    case Forget(key) => PartKeepsInv(s, Recall(s.memory - {key}));
    case Restart => RestartKeepsInv(s);
  }

  // Whole runs

  lemma {:induction false} RunKeepsInv(s: State, steps: seq<Step>, t: State)
    requires Inv(s) && Leads(s, steps, t)
    ensures Inv(t)
    decreases |steps|
  {
    hide Inv, Enabled, Apply;
    if steps != [] {
      StepKeepsInv(s, steps[0]);
      RunKeepsInv(Apply(s, steps[0]), steps[1..], t);
    }
  }

  /** One step never changes a row that is no longer pending, and never makes one pending again. */
  lemma StepKeepsDecidedRow(s: State, step: Step, id: Id)
    requires Inv(s) && Enabled(s, step) && RowDecided(s, id)
    ensures RowDecided(Apply(s, step), id) && Apply(s, step).desk.rows[id] == s.desk.rows[id]
  {
    hide BufferOk, ResponderOk, OneWinner, Known, ResultOk;
    InvAt(s, id, id, 0, 0);
    hide Inv;
  }

  /** A row leaves pending once: whatever happens afterwards, it keeps its status. */
  lemma {:induction false} DecidedOnce(s: State, steps: seq<Step>, t: State, id: Id)
    requires Inv(s) && Leads(s, steps, t) && RowDecided(s, id)
    ensures RowDecided(t, id) && t.desk.rows[id] == s.desk.rows[id]
    decreases |steps|
  {
    hide Inv, Enabled, Apply;
    if steps != [] {
      StepKeepsInv(s, steps[0]);
      StepKeepsDecidedRow(s, steps[0], id);
      DecidedOnce(Apply(s, steps[0]), steps[1..], t, id);
    }
  }

  /** The step puts a value on the request's channel. */
  predicate IsSend(s: State, step: Step, id: Id) {
    && step.Deliver? && step.r in s.responders && s.responders[step.r].Holding?
    && s.responders[step.r].found && s.responders[step.r].id == id
  }

  /** How many values a run puts on the request's channel. */
  function Sends(s: State, steps: seq<Step>, id: Id): (n: nat)
    decreases |steps|
  {
    if steps == [] || !Enabled(s, steps[0]) then 0
    else (if IsSend(s, steps[0], id) then 1 else 0) + Sends(Apply(s, steps[0]), steps[1..], id)
  }

  /** The request has been decided and its answer is not on its way any more. */
  ghost predicate Sealed(s: State, id: Id) {
    RowDecided(s, id) && NoneToCome(s, id)
  }

  lemma NoneComesLater(s: State, step: Step, id: Id)
    requires Enabled(s, step) && RowDecided(s, id) && NoneToCome(s, id)
    ensures !IsSend(s, step, id) && NoneToCome(Apply(s, step), id)
  {
    var t := Apply(s, step);
    forall r | r in t.responders ensures !OnItsWay(t.responders[r], id) {
      assert r in s.responders ==> !OnItsWay(s.responders[r], id);
    }
  }

  lemma SealedStays(s: State, step: Step, id: Id)
    requires Inv(s) && Enabled(s, step) && Sealed(s, id)
    ensures !IsSend(s, step, id) && Sealed(Apply(s, step), id)
  {
    StepKeepsDecidedRow(s, step, id);
    NoneComesLater(s, step, id);
    hide Inv, Apply, Enabled, RowDecided, NoneToCome, IsSend;
  }

  lemma SendSeals(s: State, step: Step, id: Id)
    requires Inv(s) && Enabled(s, step) && IsSend(s, step, id)
    ensures Sealed(Apply(s, step), id)
  {
    hide Inv;
    var h := s.responders[step.r];
    InvAt(s, id, id, step.r, step.r);
    LastOnItsWay(s, step.r, Delivered(h.id, h.approve, h.remember));
  }

  /** Over any run at most one value is sent on a request's channel. */
  lemma {:induction false} SentAtMostOnce(s: State, steps: seq<Step>, t: State, id: Id)
    requires Inv(s) && Leads(s, steps, t)
    ensures Sends(s, steps, id) <= 1
    ensures Sealed(s, id) ==> Sends(s, steps, id) == 0
    decreases |steps|
  {
    hide Inv, Enabled, Apply, IsSend, Sealed;
    if steps != [] {
      var u := Apply(s, steps[0]);
      StepKeepsInv(s, steps[0]);
      SentAtMostOnce(u, steps[1..], t, id);
      if Sealed(s, id) {
        SealedStays(s, steps[0], id);
      } else if IsSend(s, steps[0], id) {
        SendSeals(s, steps[0], id);
      }
    }
  }

  /** While a turn listens, an answer that looks finds its channel; once the turn goes on, the map has forgotten it. */
  lemma ChannelIsListedWhileListening(s: State, steps: seq<Step>, t: State, id: Id)
    requires Initial(s) && Leads(s, steps, t)
    ensures id in t.desk.registered <==> id in t.waiters && IsListening(t.waiters[id])
    ensures forall r | r in t.responders && t.responders[r].Won? ::
      Apply(t, Lookup(r)).responders[r].found <==>
        t.responders[r].id in t.waiters && IsListening(t.waiters[t.responders[r].id])
  {
    InitialKeepsInv(s);
    RunKeepsInv(s, steps, t);
    InvAt(t, id, id, 0, 0);
    forall r | r in t.responders && t.responders[r].Won?
      ensures Apply(t, Lookup(r)).responders[r].found <==>
        t.responders[r].id in t.waiters && IsListening(t.waiters[t.responders[r].id])
    {
      InvAt(t, t.responders[r].id, t.responders[r].id, r, r);
    }
    hide Inv;
  }

  /** A person answering never waits: whenever the answer is about to be sent, the channel is empty. */
  lemma SendNeverWaits(s: State, steps: seq<Step>, t: State, r: int)
    requires Initial(s) && Leads(s, steps, t)
    requires r in t.responders && t.responders[r].Holding? && t.responders[r].found
    ensures Enabled(t, Deliver(r)) && !WouldBlock(t.desk, t.responders[r].id)
  {
    InitialKeepsInv(s);
    RunKeepsInv(s, steps, t);
    InvAt(t, t.responders[r].id, t.responders[r].id, r, r);
    hide Inv;
    var x := t.responders[r];
    assert OnItsWay(x, x.id);
  }

  // Where an answer comes from

  /** A person answered the request like this and asked for that to be remembered under the key. */
  predicate IsLasting(s: State, id: Id, key: string, allow: bool) {
    id in s.keys && s.keys[id] == Some(key) && RowIs(s, id, allow) && id in s.lasting
  }

  ghost predicate AnsweredBefore(s: State, key: string, allow: bool) {
    exists id :: IsLasting(s, id, key, allow)
  }

  /** The key had this answer from the beginning, or a person gave it since, to be remembered. */
  ghost predicate Grounded(s: State, before: map<string, bool>, key: string, allow: bool) {
    (key in before && before[key] == allow) || AnsweredBefore(s, key, allow)
  }

  predicate IsTold(w: Waiter, allow: bool) {
    (w.Leaving? || w.Left?) && (w.result == Answered(allow) || w.result == Remembered(allow))
  }

  /** Where the answer to one request comes from. */
  ghost predicate HasGround(s: State, before: map<string, bool>, id: Id, allow: bool) {
    || RowIs(s, id, allow)
    || (id in s.keys && s.keys[id].Some? && Grounded(s, before, s.keys[id].value, allow))
  }

  ghost predicate MemoryGrounded(s: State, before: map<string, bool>) {
    forall key | key in s.memory :: Grounded(s, before, key, s.memory[key])
  }

  ghost predicate WaitersGrounded(s: State, before: map<string, bool>) {
    forall id, allow | id in s.waiters && IsTold(s.waiters[id], allow) :: HasGround(s, before, id, allow)
  }

  lemma StepKeepsQuestion(s: State, step: Step, id: Id)
    requires Enabled(s, step) && id in s.keys
    ensures id in Apply(s, step).keys && Apply(s, step).keys[id] == s.keys[id]
    ensures id in s.lasting ==> id in Apply(s, step).lasting
  {}

  /** Grounds are never lost. */
  lemma GroundStays(s: State, step: Step, before: map<string, bool>, key: string, allow: bool)
    requires Inv(s) && Enabled(s, step) && Grounded(s, before, key, allow)
    ensures Grounded(Apply(s, step), before, key, allow)
  {
    hide Inv, Apply, Enabled;
    if !(key in before && before[key] == allow) {
      var id :| IsLasting(s, id, key, allow);
      StepKeepsDecidedRow(s, step, id);
      StepKeepsQuestion(s, step, id);
      assert IsLasting(Apply(s, step), id, key, allow);
    }
  }

  lemma MemoryStaysGrounded(s: State, step: Step, before: map<string, bool>)
    requires Inv(s) && Enabled(s, step) && MemoryGrounded(s, before)
    ensures MemoryGrounded(Apply(s, step), before)
  {
    hide Inv;
    var t := Apply(s, step);
    forall key | key in t.memory ensures Grounded(t, before, key, t.memory[key]) {
      if key in s.memory && s.memory[key] == t.memory[key] {
        GroundStays(s, step, before, key, t.memory[key]);
      } else {
        var x := s.responders[step.r];
        InvAt(s, x.id, x.id, step.r, step.r);
        assert IsLasting(t, x.id, key, x.approve);
      }
    }
  }

  lemma GroundOfOneStays(s: State, step: Step, before: map<string, bool>, id: Id, allow: bool)
    requires Inv(s) && Enabled(s, step) && HasGround(s, before, id, allow)
    ensures HasGround(Apply(s, step), before, id, allow)
  {
    hide Inv, Grounded;
    if RowIs(s, id, allow) {
      StepKeepsDecidedRow(s, step, id);
    } else {
      InvAt(s, id, id, 0, 0);
      GroundStays(s, step, before, s.keys[id].value, allow);
    }
  }

  predicate HasResult(s: State, id: Id, result: Result) {
    id in s.waiters && (s.waiters[id] == Leaving(result) || s.waiters[id] == Left(result))
  }

  lemma OnlyAskRemembers(s: State, step: Step, id: Id, allow: bool)
    requires Enabled(s, step) && HasResult(Apply(s, step), id, Remembered(allow))
    requires !HasResult(s, id, Remembered(allow))
    ensures step.Ask? && step.id == id && RememberedFor(s, step.key) == Some(allow)
  {}

  /** An answer is new either because it was remembered or because the row says so. */
  lemma NewAnswer(s: State, step: Step, id: Id, allow: bool)
    requires Inv(s) && Enabled(s, step)
    requires id in Apply(s, step).waiters && IsTold(Apply(s, step).waiters[id], allow)
    ensures
      || (id in s.waiters && IsTold(s.waiters[id], allow))
      || (step.Ask? && step.id == id && RememberedFor(s, step.key) == Some(allow))
      || RowIs(Apply(s, step), id, allow)
  {
    hide Inv, Enabled, Apply, Known, BufferOk, ResponderOk, OneWinner;
    var t := Apply(s, step);
    if HasResult(t, id, Remembered(allow)) {
      if !HasResult(s, id, Remembered(allow)) {
        OnlyAskRemembers(s, step, id, allow);
      }
    } else {
      StepKeepsInv(s, step);
      InvAt(t, id, id, 0, 0);
    }
  }

  lemma WaitersStayGrounded(s: State, step: Step, before: map<string, bool>)
    requires Inv(s) && Enabled(s, step) && MemoryGrounded(s, before) && WaitersGrounded(s, before)
    ensures WaitersGrounded(Apply(s, step), before)
  {
    hide Inv, Grounded, RowIs, Enabled, IsTold, WaiterOk, BufferOk, ResponderOk, OneWinner, Known;
    var t := Apply(s, step);
    forall id, allow | id in t.waiters && IsTold(t.waiters[id], allow) ensures HasGround(t, before, id, allow) {
      NewAnswer(s, step, id, allow);
      if id in s.waiters && IsTold(s.waiters[id], allow) {
        GroundOfOneStays(s, step, before, id, allow);
      } else if step.Ask? && step.id == id && RememberedFor(s, step.key) == Some(allow) {
        GroundStays(s, step, before, step.key.value, allow);
      }
    }
  }

  lemma {:induction false} RunStaysGrounded(s: State, steps: seq<Step>, t: State, before: map<string, bool>)
    requires Inv(s) && Leads(s, steps, t) && MemoryGrounded(s, before) && WaitersGrounded(s, before)
    ensures Inv(t) && MemoryGrounded(t, before) && WaitersGrounded(t, before)
    decreases |steps|
  {
    hide Inv, Enabled, Apply, MemoryGrounded, WaitersGrounded;
    if steps != [] {
      StepKeepsInv(s, steps[0]);
      MemoryStaysGrounded(s, steps[0], before);
      WaitersStayGrounded(s, steps[0], before);
      RunStaysGrounded(Apply(s, steps[0]), steps[1..], t, before);
    }
  }

  /**
    A request is allowed, or denied, only if a person answered it like that, or if the same action of
    the same project had this answer remembered before the run began, or got it during the run from a
    person who asked for that to be remembered. A request answered by a person ends as its row says.
   */
  lemma AllowedOnlyByAPerson(s: State, steps: seq<Step>, t: State, id: Id)
    requires Initial(s) && Leads(s, steps, t) && id in t.waiters
    ensures forall allow | IsTold(t.waiters[id], allow) :: HasGround(t, s.memory, id, allow)
    ensures forall approve :: t.waiters[id] == Left(Answered(approve)) ==> RowIs(t, id, approve)
  {
    InitialKeepsInv(s);
    assert MemoryGrounded(s, s.memory) && WaitersGrounded(s, s.memory);
    RunStaysGrounded(s, steps, t, s.memory);
    InvAt(t, id, id, 0, 0);
    hide Inv;
  }

  /** The step remembers another answer under the key, or forgets the one there is. */
  predicate ChangesMemory(s: State, step: Step, key: string) {
    || step == Forget(key)
    || (step.Remember? && step.r in s.responders && s.responders[step.r].Delivered? && s.responders[step.r].remember
        && s.responders[step.r].id in s.keys && s.keys[s.responders[step.r].id] == Some(key))
  }

  ghost predicate LeavesMemory(s: State, steps: seq<Step>, key: string)
    decreases |steps|
  {
    steps == [] ||
      (!ChangesMemory(s, steps[0], key) && Enabled(s, steps[0]) && LeavesMemory(Apply(s, steps[0]), steps[1..], key))
  }

  lemma {:induction false} MemoryStays(s: State, steps: seq<Step>, t: State, key: string)
    requires Leads(s, steps, t) && LeavesMemory(s, steps, key) && key in s.memory
    ensures key in t.memory && t.memory[key] == s.memory[key]
    decreases |steps|
  {
    if steps != [] {
      StepKeepsMemory(s, steps[0], key);
      hide Apply, Enabled, ChangesMemory;
      MemoryStays(Apply(s, steps[0]), steps[1..], t, key);
    }
  }

  lemma StepKeepsMemory(s: State, step: Step, key: string)
    requires Enabled(s, step) && !ChangesMemory(s, step, key) && key in s.memory
    ensures key in Apply(s, step).memory && Apply(s, step).memory[key] == s.memory[key]
  {}

  /**
    What a person asked to be remembered is what every later request for the same action of the same
    project is told at once, also after a restart, until it is forgotten or another answer is remembered.
   */
  lemma RememberedAnswersAreUsed(s: State, steps: seq<Step>, t: State, r: int, id: Id, key: string)
    requires r in s.responders && s.responders[r].Delivered? && s.responders[r].remember
    requires s.responders[r].id in s.keys && s.keys[s.responders[r].id] == Some(key) && Enabled(s, Remember(r))
    requires Leads(Apply(s, Remember(r)), steps, t) && LeavesMemory(Apply(s, Remember(r)), steps, key)
    requires Enabled(t, Ask(id, Some(key)))
    ensures At(Apply(t, Ask(id, Some(key))), id, Left(Remembered(s.responders[r].approve)))
  {
    MemoryStays(Apply(s, Remember(r)), steps, t, key);
    hide Leads, LeavesMemory;
  }

  /** What has been forgotten is asked again; so is an action that has no key. */
  lemma ForgottenIsAsked(s: State, id: Id, key: string)
    requires Enabled(s, Ask(id, None))
    ensures At(Apply(Apply(s, Forget(key)), Ask(id, Some(key))), id, Asked)
    ensures At(Apply(s, Ask(id, None)), id, Asked)
  {}

  /** An answer that found its channel is what the turn receives next, if it still waits. */
  lemma AnswerArrives(s: State, r: int)
    requires r in s.responders && s.responders[r].Holding? && s.responders[r].found && Enabled(s, Deliver(r))
    ensures
      var (x, t) := (s.responders[r], Apply(s, Deliver(r)));
      && (At(s, x.id, Waiting) ==>
            Enabled(t, Receive(x.id)) && At(Apply(t, Receive(x.id)), x.id, Leaving(Answered(x.approve))))
      && (At(s, x.id, LastLook) ==> At(Apply(t, Look(x.id)), x.id, Leaving(Answered(x.approve))))
  {}

  /** When its time is up, its turn is interrupted or the program restarts, a pending row expires. */
  lemma PendingExpires(s: State, id: Id)
    requires id in s.desk.rows
    ensures
      var last := if s.desk.rows[id] == Pending then Expired else s.desk.rows[id];
      && (id in Apply(s, Restart).desk.rows && Apply(s, Restart).desk.rows[id] == last)
      && (At(s, id, Waiting) ==>
            && id in Apply(s, Timer(id, true)).desk.rows && Apply(s, Timer(id, true)).desk.rows[id] == last
            && id in Apply(s, Interrupt(id, true)).desk.rows && Apply(s, Interrupt(id, true)).desk.rows[id] == last)
  {}

  /** A request that timed out or was interrupted cannot be answered any more, unless a statement failed. */
  lemma ExpiredRequestsAreDecided(s: State, steps: seq<Step>, t: State, id: Id)
    requires Initial(s) && Leads(s, steps, t) && id in t.waiters && !t.faulty
    requires t.waiters[id] == Left(TimedOut) || t.waiters[id] == Left(Interrupted)
    ensures RowDecided(t, id)
  {
    InitialKeepsInv(s);
    RunKeepsInv(s, steps, t);
    InvAt(t, id, id, 0, 0);
    hide Inv;
  }

  // What is not kept

  /**
    An approved request goes on, once its timer has fired, exactly if the answer is on the channel by
    then; otherwise its turn is told that nobody answered, although the row says approved.
   */
  lemma ApprovedGoesOnIff(s: State, steps: seq<Step>, t: State, id: Id)
    requires Initial(s) && Leads(s, steps, t) && RowIs(t, id, true)
    ensures At(t, id, Waiting) ==> forall ok :: At(Apply(t, Timer(id, ok)), id, LastLook)
    ensures At(t, id, LastLook) ==>
      && (At(Apply(t, Look(id)), id, Leaving(Answered(true))) <==> HasAnswer(t.desk, id))
      && (At(Apply(t, Look(id)), id, Leaving(TimedOut)) <==> !HasAnswer(t.desk, id))
  {
    InitialKeepsInv(s);
    RunKeepsInv(s, steps, t);
    InvAt(t, id, id, 0, 0);
    hide Inv;
  }

  /** The state of a run with one request, numbered 0, and at most one person answering. */
  function One(row: Status, registered: bool, buffer: Option<seq<bool>>, w: Waiter, x: Option<Responder>): State {
    State(
      Desk(map[0 := row], if registered then {0} else {}, if buffer.Some? then map[0 := buffer.value] else map[]),
      map[0 := w], if x.Some? then map[0 := x.value] else map[], map[0 := None], map[], {}, false)
  }

  predicate Moves(s: State, step: Step, t: State) {
    Enabled(s, step) && Apply(s, step) == t
  }

  lemma Follows(s: State, steps: seq<Step>, k: nat, u: State, t: State)
    requires k < |steps| && Moves(s, steps[k], u) && Leads(u, steps[k + 1..], t)
    ensures Leads(s, steps[k..], t)
  {
    assert steps[k..][1..] == steps[k + 1..];
  }

  function Start(): State {
    State(Desk(map[], {}, map[]), map[], map[], map[], map[], {}, false)
  }

  /** A run in which nothing fails, the row ends approved, and the turn is told that nobody answered. */
  ghost predicate LosesTheAnswer(steps: seq<Step>) {
    exists t :: Leads(Start(), steps, t) && RowIs(t, 0, true) && At(t, 0, Leaving(TimedOut)) && !t.faulty
  }

  lemma Opening(steps: seq<Step>, t: State)
    requires |steps| > 2 && steps[0] == Ask(0, None) && steps[1] == Create(0, true)
    requires Leads(One(Pending, false, None, Created, None), steps[2..], t)
    requires RowIs(t, 0, true) && At(t, 0, Leaving(TimedOut)) && !t.faulty
    ensures LosesTheAnswer(steps)
  {
    var asked := State(Desk(map[], {}, map[]), map[0 := Asked], map[], map[0 := None], map[], {}, false);
    Follows(asked, steps, 1, One(Pending, false, None, Created, None), t);
    Follows(Start(), steps, 0, asked, t);
    assert steps[0..] == steps;
  }

  lemma RegisterMoves(row: Status, x: Option<Responder>)
    ensures Moves(One(row, false, None, Created, x), Register(0), One(row, true, Some([]), Waiting, x))
  {}

  lemma RespondMoves(registered: bool, buffer: Option<seq<bool>>, w: Waiter)
    ensures Moves(One(Pending, registered, buffer, w, None), Respond(0, 0, true, false, true),
                  One(Approved, registered, buffer, w, Some(Won(0, true, false))))
  {}

  lemma LookupMoves(registered: bool, buffer: Option<seq<bool>>, w: Waiter)
    ensures Moves(One(Approved, registered, buffer, w, Some(Won(0, true, false))), Lookup(0),
                  One(Approved, registered, buffer, w, Some(Holding(0, true, false, registered))))
  {}

  /** The deadline passes with an approved row and an empty channel. */
  lemma DeadlineMoves(x: Option<Responder>)
    ensures Moves(One(Approved, true, Some([]), Waiting, x), Timer(0, true), One(Approved, true, Some([]), LastLook, x))
    ensures Moves(One(Approved, true, Some([]), LastLook, x), Look(0),
                  One(Approved, true, Some([]), Leaving(TimedOut), x))
  {}

  /** The last five steps of both runs. */
  lemma Finish(steps: seq<Step>, a: State, b: State, x: Option<Responder>, end: State)
    requires |steps| == 7 && steps[0] == Ask(0, None) && steps[1] == Create(0, true)
    requires end == One(Approved, true, Some([]), Leaving(TimedOut), x)
    requires Moves(One(Pending, false, None, Created, None), steps[2], a) && Moves(a, steps[3], b)
    requires Moves(b, steps[4], One(Approved, true, Some([]), Waiting, x))
    requires Moves(One(Approved, true, Some([]), Waiting, x), steps[5], One(Approved, true, Some([]), LastLook, x))
    requires Moves(One(Approved, true, Some([]), LastLook, x), steps[6], end)
    ensures LosesTheAnswer(steps)
  {
    hide Moves, Enabled, Apply;
    Follows(One(Approved, true, Some([]), LastLook, x), steps, 6, end, end);
    Follows(One(Approved, true, Some([]), Waiting, x), steps, 5, One(Approved, true, Some([]), LastLook, x), end);
    Follows(b, steps, 4, One(Approved, true, Some([]), Waiting, x), end);
    Follows(a, steps, 3, b, end);
    Follows(One(Pending, false, None, Created, None), steps, 2, a, end);
    Opening(steps, end);
  }

  /** An answer that looks for the channel before it is in the map. */
  function EarlyAnswer(): seq<Step> {
    [Ask(0, None), Create(0, true), Respond(0, 0, true, false, true), Lookup(0), Register(0), Timer(0, true), Look(0)]
  }

  /** An answer whose row is approved before the deadline and whose value is not sent until after it. */
  function LateSend(): seq<Step> {
    [Ask(0, None), Create(0, true), Register(0), Respond(0, 0, true, false, true), Lookup(0), Timer(0, true), Look(0)]
  }

  /**
    Approval does not imply that the turn goes on: an answer is lost when it lands before the channel
    is in the map, and when the deadline passes between the update of the row and the send.
   */
  lemma ApprovedTurnMayExpire(early: bool)
    ensures LosesTheAnswer(if early then EarlyAnswer() else LateSend())
  {
    hide Moves, One;
    var x := Some(Holding(0, true, false, !early));
    var end := One(Approved, true, Some([]), Leaving(TimedOut), x);
    DeadlineMoves(x);
    if early {
      RegisterMoves(Approved, x);
      LookupMoves(false, None, Created);
      RespondMoves(false, None, Created);
      Finish(EarlyAnswer(), One(Approved, false, None, Created, Some(Won(0, true, false))),
             One(Approved, false, None, Created, x), x, end);
    } else {
      RegisterMoves(Pending, None);
      RespondMoves(true, Some([]), Waiting);
      LookupMoves(true, Some([]), Waiting);
      Finish(LateSend(), One(Pending, true, Some([]), Waiting, None),
             One(Approved, true, Some([]), Waiting, Some(Won(0, true, false))), x, end);
    }
  }
}
