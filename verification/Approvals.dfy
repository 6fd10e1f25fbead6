/**
  Asking a person for approval (internal/engine/approvals.go, internal/store/records.go): a waiting
  turn, any number of people answering, a timer and an interruption, interleaved step by step.
 */
module Approvals {
  import opened Text

  type Id = int

  datatype Status = Pending | Approved | Denied | Expired

  function Decision(approve: bool): Status {
    if approve then Approved else Denied
  }

  /** The approvals table, the engine's map of waiting channels, and every channel's buffer. */
  datatype Desk = Desk(rows: map<Id, Status>, registered: set<Id>, buffers: map<Id, seq<bool>>)

  predicate IsPending(d: Desk, id: Id) {
    id in d.rows && d.rows[id] == Pending
  }

  /** The conditional update: only a pending row changes. */
  function Decide(d: Desk, id: Id, status: Status): Desk {
    if IsPending(d, id) then d.(rows := d.rows[id := status]) else d
  }

  function ExpireAll(d: Desk): Desk {
    d.(rows := map id | id in d.rows :: if d.rows[id] == Pending then Expired else d.rows[id])
  }

  function Opened(d: Desk, id: Id): Desk {
    d.(registered := d.registered + {id}, buffers := d.buffers[id := []])
  }

  predicate HasAnswer(d: Desk, id: Id) {
    id in d.buffers && d.buffers[id] != []
  }

  function Taken(d: Desk, id: Id): Desk
    requires HasAnswer(d, id)
  {
    d.(buffers := d.buffers[id := d.buffers[id][1..]])
  }

  /** A send on the one-place channel would have to wait. */
  predicate WouldBlock(d: Desk, id: Id) {
    HasAnswer(d, id)
  }

  function Sent(d: Desk, id: Id, approve: bool): Desk
    requires id in d.buffers
  {
    d.(buffers := d.buffers[id := d.buffers[id] + [approve]])
  }

  /** The shared state; each method is one statement or one region under the engine's lock. */
  class ApprovalDesk {
    var rows: map<Id, Status>
    var registered: set<Id>
    var buffers: map<Id, seq<bool>>

    function Value(): Desk
      reads this
    {
      Desk(rows, registered, buffers)
    }

    constructor ()
      ensures Value() == Desk(map[], {}, map[])
    {
      rows, registered, buffers := map[], {}, map[];
    }

    method CreateApproval(id: Id)
      modifies this
      ensures Value() == old(Value()).(rows := old(rows)[id := Pending])
    {
      rows := rows[id := Pending];
    }

    method DecideApproval(id: Id, status: Status) returns (found: bool)
      modifies this
      ensures found <==> IsPending(old(Value()), id)
      ensures Value() == Decide(old(Value()), id, status)
    {
      found := id in rows && rows[id] == Pending;
      if found {
        rows := rows[id := status];
      }
    }

    /** At startup: the turns that were waiting no longer exist. */
    method ExpirePendingApprovals()
      modifies this
      ensures Value() == ExpireAll(old(Value()))
    {
      rows := map id | id in rows :: if rows[id] == Pending then Expired else rows[id];
    }

    /** Makes the channel and puts it in the map. */
    method Register(id: Id)
      modifies this
      ensures Value() == Opened(old(Value()), id)
    {
      buffers := buffers[id := []];
      registered := registered + {id};
    }

    method Unregister(id: Id)
      modifies this
      ensures Value() == old(Value()).(registered := old(registered) - {id})
    {
      registered := registered - {id};
    }

    /** A receive that does not wait. */
    method TryReceive(id: Id) returns (answer: Option<bool>)
      modifies this
      ensures HasAnswer(old(Value()), id) ==>
        answer == Some(old(buffers)[id][0]) && Value() == Taken(old(Value()), id)
      ensures !HasAnswer(old(Value()), id) ==> answer == None && Value() == old(Value())
    {
      if id in buffers && buffers[id] != [] {
        answer := Some(buffers[id][0]);
        buffers := buffers[id := buffers[id][1..]];
      } else {
        answer := None;
      }
    }

    method Send(id: Id, approve: bool)
      requires id in buffers && !WouldBlock(Value(), id)
      modifies this
      ensures Value() == Sent(old(Value()), id, approve)
    {
      buffers := buffers[id := buffers[id] + [approve]];
    }
  }
}
