// The sections of conn.go under c.mu, as updates of the connection's own fields. Each one
// performs the matching step of the multiplexer.
module ConnTable {
  import opened Multiplexer

  datatype AddResult = Added | ConnectionClosed | StreamInUse(existing: nat)
  datatype LookupResult = Taken(call: nat) | LookupClosed | NoHandler

  class Conn {
    var calls: map<nat, nat>
    var closed: bool

    constructor ()
      ensures forall n, deadline :: Represents(Init(n, deadline))
    {
      calls := map[];
      closed := false;
    }

    ghost predicate Represents(s: State)
      reads this
    {
      closed == s.IsClosed() && calls == s.table
    }

    /** addCall */
    method AddCall(ghost s: State, c: nat, stream: nat) returns (r: AddResult)
      requires Represents(s) && Enabled(s, Action.AddCall(c)) && stream == s.calls[c].stream
      modifies this
      ensures Represents(Step(s, Action.AddCall(c)))
      ensures r.Added? <==> At(Step(s, Action.AddCall(c)), c, Building)
      ensures r.StreamInUse? <==> !s.IsClosed() && stream in s.table
    {
      if closed {
        return ConnectionClosed;
      }
      if stream in calls {
        return StreamInUse(calls[stream]);
      }
      calls := calls[stream := c];
      return Added;
    }

    /** The lookup in processFrame: the call leaves the table with the receiver. */
    method TakeCall(ghost s: State, stream: nat) returns (r: LookupResult)
      requires Represents(s) && CanReceive(s, Lookup) && stream == StreamOf(s, s.recv.request)
      modifies this
      ensures Represents(RecvStep(s, Lookup))
      ensures r.Taken? ==> RecvStep(s, Lookup).recv == Holding(r.call, s.recv.request)
      ensures r.LookupClosed? <==> s.IsClosed()
      ensures r.NoHandler? <==> RecvStep(s, Lookup).recv.Reading?
    {
      if closed {
        return LookupClosed;
      }
      if stream !in calls {
        return NoHandler;
      }
      r := Taken(calls[stream]);
      calls := calls - {stream};
    }

    /** Taking a call back whose frame was never written. */
    method DropCall(ghost s: State, c: nat, stream: nat)
      requires Represents(s) && Enabled(s, Drop(c)) && stream == s.calls[c].stream
      modifies this
      ensures Represents(Step(s, Drop(c)))
    {
      if !closed {
        calls := calls - {stream};
      }
    }

    /** closeWithError up to the unlock: the first close with an error takes the calls to notify;
        one without an error leaves them. */
    method BeginClose(ghost s: State, failed: bool) returns (callsToClose: map<nat, nat>, first: bool)
      requires Represents(s)
      modifies this
      ensures Represents(if failed then StartClose(s) else CloseStep(s, CloseNil))
      ensures first <==> !s.IsClosed()
      ensures first && failed ==> StartClose(s).closer == Notifying(callsToClose.Values)
      ensures !first || !failed ==> callsToClose == map[]
    {
      if closed {
        return map[], false;
      }
      closed := true;
      callsToClose := map[];
      if failed {
        callsToClose := calls;
        calls := map[];
        assert (set stream | stream in s.table :: s.table[stream]) == s.table.Values;
      }
      first := true;
    }
  }
}
