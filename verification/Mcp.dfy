/**
  Calls to an MCP server over its standard input and output (internal/mcp/transport.go): callers, one
  reader, time-outs and the server's death meet in a map of pending calls.
 */
module Mcp {
  import opened Text

  type Id = nat

  datatype Message = Message(id: Id, body: string)

  /** A channel with room for one value. */
  datatype Channel = Channel(buffer: seq<Message>, closed: bool)

  datatype Death = OutputClosed | Exited

  /** The transport's fields, and the channel made for each call. */
  datatype Wire = Wire(nextID: nat, pending: set<Id>, err: Option<Death>, channels: map<Id, Channel>)

  function Registered(w: Wire, id: Id): Wire {
    w.(pending := w.pending + {id}, channels := w.channels[id := Channel([], false)])
  }

  function Forgotten(w: Wire, id: Id): Wire {
    w.(pending := w.pending - {id})
  }

  function Dead(w: Wire, death: Death): Wire {
    if w.err == None then w.(err := Some(death)) else w
  }

  /** The reader's last region: every pending call is told that there is nothing to wait for. */
  function Shut(w: Wire): Wire {
    Dead(w, OutputClosed).(
      pending := {},
      channels := map id | id in w.channels ::
        if id in w.pending then w.channels[id].(closed := true) else w.channels[id])
  }

  function Sent(w: Wire, id: Id, m: Message): Wire
    requires id in w.channels
  {
    w.(channels := w.channels[id := w.channels[id].(buffer := w.channels[id].buffer + [m])])
  }

  function Taken(w: Wire, id: Id): Wire
    requires id in w.channels && w.channels[id].buffer != []
  {
    w.(channels := w.channels[id := w.channels[id].(buffer := w.channels[id].buffer[1..])])
  }

  /** Each method is one region under the mutex, or one operation on a channel. */
  class StdioTransport {
    var nextID: nat
    var pending: set<Id>
    var err: Option<Death>
    var channels: map<Id, Channel>

    function Value(): Wire
      reads this
    {
      Wire(nextID, pending, err, channels)
    }

    constructor ()
      ensures Value() == Wire(0, {}, None, map[])
    {
      nextID, pending, err, channels := 0, {}, None, map[];
    }

    method TakeId() returns (id: Id)
      modifies this`nextID
      ensures id == old(nextID) + 1 && Value() == old(Value()).(nextID := id)
    {
      nextID := nextID + 1;
      return nextID;
    }

    method Register(id: Id) returns (failure: Option<Death>)
      modifies this
      ensures failure == old(err)
      ensures Value() == if failure == None then Registered(old(Value()), id) else old(Value())
    {
      if err != None {
        return err;
      }
      channels := channels[id := Channel([], false)];
      pending := pending + {id};
      return None;
    }

    /** After a failed write, and after a time-out. */
    method Forget(id: Id)
      modifies this`pending
      ensures Value() == Forgotten(old(Value()), id)
    {
      pending := pending - {id};
    }

    /** dispatch, for an answer: is anybody waiting for it? */
    method Claim(id: Id) returns (found: bool)
      modifies this`pending
      ensures found <==> id in old(pending)
      ensures Value() == Forgotten(old(Value()), id)
    {
      found := id in pending;
      pending := pending - {id};
    }

    method Send(id: Id, m: Message)
      requires id in channels && !channels[id].closed && channels[id].buffer == []
      modifies this`channels
      ensures Value() == Sent(old(Value()), id, m)
    {
      channels := channels[id := channels[id].(buffer := channels[id].buffer + [m])];
    }

    method Receive(id: Id) returns (m: Message)
      requires id in channels && channels[id].buffer != []
      modifies this`channels
      ensures m == old(channels)[id].buffer[0] && Value() == Taken(old(Value()), id)
    {
      m := channels[id].buffer[0];
      channels := channels[id := channels[id].(buffer := channels[id].buffer[1..])];
    }

    /** The goroutine that waits for the process. */
    method ProcessExited()
      modifies this`err
      ensures Value() == Dead(old(Value()), Exited)
    {
      if err == None {
        err := Some(Exited);
      }
    }

    /** What the reader does when the server's output ends. */
    method CloseAll()
      requires pending <= channels.Keys
      modifies this
      ensures Value() == Shut(old(Value()))
    {
      if err == None {
        err := Some(OutputClosed);
      }
      while pending != {}
        invariant pending <= old(pending) <= channels.Keys == old(channels).Keys
        invariant err == Dead(old(Value()), OutputClosed).err && nextID == old(nextID)
        invariant forall id | id in channels ::
          channels[id] ==
          if id in old(pending) && id !in pending then old(channels)[id].(closed := true) else old(channels)[id]
        decreases pending
      {
        var id :| id in pending;
        channels := channels[id := channels[id].(closed := true)];
        pending := pending - {id};
      }
    }
  }

  // All interleavings

  datatype Result = Answer(m: Message) | ServerGone(why: Option<Death>) | WriteFailed | TimedOut

  /** Where a call is. */
  datatype Call = Numbered | Writing | Waiting | Ended(result: Result)

  /** Where the reader is: it alone sends and closes. */
  datatype Reader = Reading | Holding(m: Message) | Finished | Gone

  datatype State = State(wire: Wire, calls: map<Id, Call>, reader: Reader)

  datatype Step =
    | Begin
    | Register(id: Id)
    | Write(id: Id, ok: bool)
    | Receive(id: Id)
    | SeeClosed(id: Id)
    | TimeOut(id: Id)
    | Read(m: Message)      // an answer from the server, asked for or not
    | Send
    | EndOfOutput
    | CloseDone             // closes the channel that Alive looks at
    | ProcessExit

  predicate At(s: State, id: Id, c: Call) {
    id in s.calls && s.calls[id] == c
  }

  predicate Enabled(s: State, step: Step) {
    match step
    case Begin => true
    case Register(id) => At(s, id, Numbered)
    case Write(id, _) => At(s, id, Writing)
    case Receive(id) => At(s, id, Waiting) && id in s.wire.channels && s.wire.channels[id].buffer != []
    case SeeClosed(id) =>
      At(s, id, Waiting) && id in s.wire.channels && s.wire.channels[id].buffer == [] && s.wire.channels[id].closed
    case TimeOut(id) => At(s, id, Waiting)
    case Read(_) => s.reader == Reading
    case Send => s.reader.Holding? && s.reader.m.id in s.wire.channels && CanSend(s.wire.channels[s.reader.m.id])
    case EndOfOutput => s.reader == Reading
    case CloseDone => s.reader == Finished
    case ProcessExit => true
  }

  /** A send on a closed channel would panic, and one on a full channel would wait. */
  predicate CanSend(c: Channel) {
    !c.closed && c.buffer == []
  }

  function Ends(s: State, id: Id, wire: Wire, result: Result): State {
    s.(wire := wire, calls := s.calls[id := Ended(result)])
  }

  function Apply(s: State, step: Step): State
    requires Enabled(s, step)
  {
    var w := s.wire;
    match step
    case Begin => s.(wire := w.(nextID := w.nextID + 1), calls := s.calls[w.nextID + 1 := Numbered])
    case Register(id) =>
      if w.err != None then Ends(s, id, w, ServerGone(w.err))
      else s.(wire := Registered(w, id), calls := s.calls[id := Writing])
    case Write(id, ok) =>
      if ok then s.(calls := s.calls[id := Waiting]) else Ends(s, id, Forgotten(w, id), WriteFailed)
    case Receive(id) => Ends(s, id, Taken(w, id), Answer(w.channels[id].buffer[0]))
    case SeeClosed(id) => Ends(s, id, w, ServerGone(w.err))
    case TimeOut(id) => Ends(s, id, Forgotten(w, id), TimedOut)
    case Read(m) => s.(wire := Forgotten(w, m.id), reader := if m.id in w.pending then Holding(m) else Reading)
    case Send => s.(wire := Sent(w, s.reader.m.id, s.reader.m), reader := Reading)
    case EndOfOutput => s.(wire := Shut(w), reader := Finished)
    case CloseDone => s.(reader := Gone)
    case ProcessExit => s.(wire := Dead(w, Exited))
  }

  ghost predicate Leads(s: State, steps: seq<Step>, t: State)
    decreases |steps|
  {
    if steps == [] then s == t
    else Enabled(s, steps[0]) && Leads(Apply(s, steps[0]), steps[1..], t)
  }

  function Start(): State {
    State(Wire(0, {}, None, map[]), map[], Reading)
  }

  // What holds at every step

  predicate IsOpen(c: Call) {
    c == Writing || c == Waiting
  }

  predicate HeldFor(s: State, id: Id) {
    s.reader.Holding? && s.reader.m.id == id
  }

  /**
    A pending call has an open, empty channel. A call that is no longer pending but not over has
    exactly one thing coming: a value on its channel, a closed channel, or the reader about to send.
   */
  ghost predicate CallOk(s: State, id: Id) {
    && (id in s.calls <==> 1 <= id <= s.wire.nextID)
    && (id in s.wire.pending ==> id in s.calls && IsOpen(s.calls[id]) && id in s.wire.channels)
    && (id in s.wire.channels ==> id in s.calls && s.calls[id] != Numbered)
    && (HeldFor(s, id) ==> id !in s.wire.pending && id in s.wire.channels)
    && (id in s.wire.channels ==> ChannelOk(s, id, s.wire.channels[id]))
    && (id in s.calls && IsOpen(s.calls[id]) ==> id in s.wire.channels)
    && (id in s.calls && s.calls[id].Ended? ==> ResultOk(s, id, s.calls[id].result))
  }

  ghost predicate ChannelOk(s: State, id: Id, c: Channel) {
    && (id in s.wire.pending || HeldFor(s, id) ==> CanSend(c))
    && |c.buffer| <= 1 && (c.closed ==> c.buffer == [] && s.wire.err != None)
    && (forall m | m in c.buffer :: m.id == id)
    && (id in s.calls && IsOpen(s.calls[id]) && id !in s.wire.pending && !HeldFor(s, id) ==> !CanSend(c))
  }

  ghost predicate ResultOk(s: State, id: Id, r: Result) {
    match r
    case Answer(m) => m.id == id && !HeldFor(s, id)
    case ServerGone(why) => why != None && !HeldFor(s, id)
    case WriteFailed => true
    case TimedOut => true
  }

  ghost predicate ReaderOk(s: State) {
    s.reader == Finished || s.reader == Gone ==> s.wire.pending == {} && s.wire.err != None
  }

  ghost predicate Inv(s: State) {
    ReaderOk(s) && forall id :: CallOk(s, id)
  }

  lemma StartKeepsInv()
    ensures Inv(Start())
  {}

  lemma StepKeepsInv(s: State, step: Step)
    requires Inv(s) && Enabled(s, step)
    ensures Inv(Apply(s, step))
  {
    var t := Apply(s, step);
    forall id ensures CallOk(t, id) {
      assert CallOk(s, id);
    }
  }

  lemma {:induction false} RunKeepsInv(s: State, steps: seq<Step>, t: State)
    requires Inv(s) && Leads(s, steps, t)
    ensures Inv(t)
    decreases |steps|
  {
    hide Inv, Enabled, Apply;
    if steps != [] {
      StepKeepsInv(s, steps[0]);
      RunKeepsInv(Apply(s, steps[0]), steps[1..], t);
    }
  }

  /** The transport with its callers and its reader. Each step is what its regions and operations do. */
  class Session {
    const transport: StdioTransport
    var calls: map<Id, Call>
    var reader: Reader

    function Value(): State
      reads this, transport
    {
      State(transport.Value(), calls, reader)
    }

    constructor ()
      ensures Value() == Start() && fresh(transport)
    {
      transport := new StdioTransport();
      calls, reader := map[], Reading;
    }

    method Perform(step: Step)
      requires Inv(Value()) && Enabled(Value(), step)
      modifies this, transport
      ensures Value() == Apply(old(Value()), step) && Inv(Value())
    {
      StepKeepsInv(Value(), step);
      PendingHaveChannels(Value());
      hide Inv;
      match step {
        case Begin =>
          var id := transport.TakeId();
          calls := calls[id := Numbered];
        case Register(id) =>
          var failure := transport.Register(id);
          calls := calls[id := if failure.Some? then Ended(ServerGone(failure)) else Writing];
        case Write(id, ok) =>
          if !ok {
            transport.Forget(id);
          }
          calls := calls[id := if ok then Waiting else Ended(WriteFailed)];
        case Receive(id) =>
          var m := transport.Receive(id);
          calls := calls[id := Ended(Answer(m))];
        case SeeClosed(id) =>
          calls := calls[id := Ended(ServerGone(transport.err))];
        case TimeOut(id) =>
          transport.Forget(id);
          calls := calls[id := Ended(TimedOut)];
        case Read(m) =>
          var found := transport.Claim(m.id);
          reader := if found then Holding(m) else Reading;
        case Send =>
          transport.Send(reader.m.id, reader.m);
          reader := Reading;
        case EndOfOutput =>
          transport.CloseAll();
          reader := Finished;
        case CloseDone =>
          reader := Gone;
        case ProcessExit =>
          transport.ProcessExited();
      }
    }
  }

  lemma PendingHaveChannels(s: State)
    requires Inv(s)
    ensures s.wire.pending <= s.wire.channels.Keys
  {
    forall id | id in s.wire.pending ensures id in s.wire.channels {
      assert CallOk(s, id);
    }
  }

  lemma InvAt(steps: seq<Step>, s: State, id: Id)
    requires Leads(Start(), steps, s)
    ensures Inv(s) && CallOk(s, id) && ReaderOk(s)
  {
    StartKeepsInv();
    RunKeepsInv(Start(), steps, s);
  }

  /** An answer reaches only the call with its number; and a call told that the server is gone is told why. */
  lemma AnswersReachTheirCall(steps: seq<Step>, s: State, id: Id)
    requires Leads(Start(), steps, s) && id in s.calls
    ensures forall m :: s.calls[id] == Ended(Answer(m)) ==> m.id == id
    ensures s.calls[id] != Ended(ServerGone(None))
  {
    InvAt(steps, s, id);
  }

  /**
    Whatever the server sends and however calls end meanwhile, the reader's send of an answer never
    meets a closed or full channel. (Its other writes, to the server itself, are not modelled.)
   */
  lemma AnswerCanBeSent(steps: seq<Step>, s: State)
    requires Leads(Start(), steps, s) && s.reader.Holding?
    ensures Enabled(s, Send)
  {
    InvAt(steps, s, s.reader.m.id);
  }

  /** The reader tells a call something: a value or the end. */
  predicate Signals(s: State, step: Step, id: Id) {
    || (step == Send && HeldFor(s, id))
    || (step == EndOfOutput && id in s.wire.pending)
  }

  function SignalCount(s: State, steps: seq<Step>, id: Id): nat
    decreases |steps|
  {
    if steps == [] || !Enabled(s, steps[0]) then 0
    else (if Signals(s, steps[0], id) then 1 else 0) + SignalCount(Apply(s, steps[0]), steps[1..], id)
  }

  /** Nothing more will come for the call: it was made, and nobody is about to tell it anything. */
  predicate Settled(s: State, id: Id) {
    id in s.calls && s.calls[id] != Numbered && id !in s.wire.pending && !HeldFor(s, id)
  }

  lemma SettledStays(s: State, step: Step, id: Id)
    requires Inv(s) && Enabled(s, step) && Settled(s, id)
    ensures !Signals(s, step, id) && Settled(Apply(s, step), id)
  {
    assert CallOk(s, id);
  }

  lemma SignalSettles(s: State, step: Step, id: Id)
    requires Inv(s) && Enabled(s, step) && Signals(s, step, id)
    ensures Settled(Apply(s, step), id)
  {
    assert CallOk(s, id);
  }

  /** Over any run a call is sent at most one answer or closed once, never both. */
  lemma {:induction false} SignalledAtMostOnce(s: State, steps: seq<Step>, t: State, id: Id)
    requires Inv(s) && Leads(s, steps, t)
    ensures SignalCount(s, steps, id) <= 1
    ensures Settled(s, id) ==> SignalCount(s, steps, id) == 0
    decreases |steps|
  {
    hide Inv, Enabled, Apply, Signals, Settled;
    if steps != [] {
      StepKeepsInv(s, steps[0]);
      SignalledAtMostOnce(Apply(s, steps[0]), steps[1..], t, id);
      if Settled(s, id) {
        SettledStays(s, steps[0], id);
      } else if Signals(s, steps[0], id) {
        SignalSettles(s, steps[0], id);
      }
    }
  }

  predicate ReaderIsOver(s: State) {
    s.reader == Finished || s.reader == Gone
  }

  /** Once the reader is over it stays over, and no call is ever pending again. */
  lemma {:induction false} NothingPendsOnADeadServer(s: State, steps: seq<Step>, t: State)
    requires Inv(s) && Leads(s, steps, t) && ReaderIsOver(s)
    ensures ReaderIsOver(t) && t.wire.pending == {} && t.wire.err != None
    decreases |steps|
  {
    if steps != [] {
      StepKeepsInv(s, steps[0]);
      NothingPendsOnADeadServer(Apply(s, steps[0]), steps[1..], t);
    }
    hide Enabled, Apply;
  }

  /**
    Once the reader is over, every call can go on without the server and without a time-out: a call
    that waits has its answer or finds its channel closed, and one that has not begun to wait is
    refused or only writes.
   */
  lemma DeadServerLeavesNobodyWaiting(steps: seq<Step>, s: State, id: Id)
    requires Leads(Start(), steps, s) && ReaderIsOver(s) && id in s.calls
    ensures s.calls[id] == Waiting ==> Enabled(s, Receive(id)) || Enabled(s, SeeClosed(id))
    ensures s.calls[id] == Numbered ==> Apply(s, Register(id)).calls[id].Ended?
  {
    InvAt(steps, s, id);
  }

  /** Alive says no only after every pending call was told. */
  lemma DeadMeansEveryoneWasTold(steps: seq<Step>, s: State, id: Id)
    requires Leads(Start(), steps, s) && s.reader == Gone
    ensures id !in s.wire.pending && s.wire.err != None
  {
    InvAt(steps, s, id);
  }

  /**
    The first reason is kept: what a call learns about the server's death does not change afterwards.
   */
  lemma {:induction false} FirstDeathIsKept(s: State, steps: seq<Step>, t: State)
    requires Leads(s, steps, t) && s.wire.err != None
    ensures t.wire.err == s.wire.err
    decreases |steps|
  {
    if steps != [] {
      assert Apply(s, steps[0]).wire.err == s.wire.err;
      FirstDeathIsKept(Apply(s, steps[0]), steps[1..], t);
    }
  }

  /** What the steps say about why the server is gone: whichever came first. */
  function Cause(steps: seq<Step>): Option<Death> {
    if steps == [] then None
    else if steps[0] == ProcessExit then Some(Exited)
    else if steps[0] == EndOfOutput then Some(OutputClosed)
    else Cause(steps[1..])
  }

  lemma {:induction false} DeathHasItsCause(s: State, steps: seq<Step>, t: State)
    requires Leads(s, steps, t)
    ensures t.wire.err == if s.wire.err != None then s.wire.err else Cause(steps)
    decreases |steps|
  {
    if steps != [] {
      var u := Apply(s, steps[0]);
      assert u.wire.err == if s.wire.err != None then s.wire.err else Cause([steps[0]]);
      DeathHasItsCause(u, steps[1..], t);
    }
  }

  // Which answer a call gets

  /** The first answer with the call's number that is read while the call is pending. */
  function FirstAnswer(s: State, steps: seq<Step>, id: Id): Option<Message>
    decreases |steps|
  {
    if steps == [] || !Enabled(s, steps[0]) then None
    else if steps[0].Read? && steps[0].m.id == id && id in s.wire.pending then Some(steps[0].m)
    else FirstAnswer(Apply(s, steps[0]), steps[1..], id)
  }

  /** The answer that the call has, or will have. */
  function Coming(s: State, id: Id): Option<Message> {
    if id in s.calls && s.calls[id].Ended? && s.calls[id].result.Answer? then Some(s.calls[id].result.m)
    else if id in s.wire.channels && s.wire.channels[id].buffer != [] then Some(s.wire.channels[id].buffer[0])
    else if HeldFor(s, id) then Some(s.reader.m)
    else None
  }

  lemma StepKeepsComing(s: State, step: Step, id: Id)
    requires Inv(s) && Enabled(s, step)
    ensures Coming(s, id).Some? ==> Coming(Apply(s, step), id) == Coming(s, id)
    ensures Coming(s, id) == None ==>
      Coming(Apply(s, step), id)
      == if step.Read? && step.m.id == id && id in s.wire.pending then Some(step.m) else None
  {
    assert CallOk(s, id);
    if step == Send {
      assert CallOk(s, s.reader.m.id);
    }
    hide Inv;
  }

  lemma {:induction false} RunKeepsComing(s: State, steps: seq<Step>, t: State, id: Id)
    requires Inv(s) && Leads(s, steps, t)
    ensures Coming(t, id) == if Coming(s, id).Some? then Coming(s, id) else FirstAnswer(s, steps, id)
    decreases |steps|
  {
    if steps != [] {
      StepKeepsInv(s, steps[0]);
      StepKeepsComing(s, steps[0], id);
      hide Inv, Enabled, Apply, Coming;
      RunKeepsComing(Apply(s, steps[0]), steps[1..], t, id);
    }
  }

  /** A call is answered with the first answer the server sent for it, word by word. */
  lemma AnsweredWithTheFirst(steps: seq<Step>, s: State, id: Id)
    requires Leads(Start(), steps, s) && id in s.calls
    ensures forall m :: s.calls[id] == Ended(Answer(m)) ==> FirstAnswer(Start(), steps, id) == Some(m)
    ensures At(s, id, Waiting) && Enabled(s, Receive(id)) ==>
      FirstAnswer(Start(), steps, id).Some?
      && At(Apply(s, Receive(id)), id, Ended(Answer(FirstAnswer(Start(), steps, id).value)))
  {
    StartKeepsInv();
    RunKeepsComing(Start(), steps, s, id);
    hide Inv, FirstAnswer;
  }
}
