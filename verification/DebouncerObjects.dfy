// The debouncer's sections under its lock, and the broadcaster's channels, as updates in place.
module DebouncerObjects {
  import opened Common
  import opened Debouncer

  /** A channel of capacity one. */
  class Chan {
    var buffer: seq<nat>
    var closed: bool

    constructor ()
      ensures buffer == [] && !closed
    {
      buffer, closed := [], false;
    }

    /** Only a send that neither blocks nor panics is allowed. */
    method Send(err: nat)
      requires !closed && |buffer| < 1
      modifies this
      ensures buffer == old(buffer) + [err] && !closed
    {
      buffer := buffer + [err];
    }

    /** Closing twice would panic. */
    method Close()
      requires !closed
      modifies this
      ensures closed && buffer == old(buffer)
    {
      closed := true;
    }
  }

  class ErrorBroadcaster {
    var listeners: seq<Chan>

    ghost predicate Valid()
      reads this, listeners
    {
      && (forall i, j :: 0 <= i < j < |listeners| ==> listeners[i] != listeners[j])
      && (forall ch :: ch in listeners ==> ch.buffer == [] && !ch.closed)
    }

    constructor ()
      ensures Valid() && listeners == []
    {
      listeners := [];
    }

    method NewListener() returns (ch: Chan)
      requires Valid()
      modifies this
      ensures Valid() && fresh(ch) && listeners == old(listeners) + [ch]
    {
      ch := new Chan();
      listeners := listeners + [ch];
    }

    /** Every listener gets the error and is closed, once. */
    method Broadcast(err: nat)
      requires Valid()
      modifies this, listeners
      ensures listeners == [] && forall ch :: ch in old(listeners) ==> ch.buffer == [err] && ch.closed
    {
      var cur := listeners;
      if |cur| == 0 {
        return;
      }
      listeners := [];
      for i := 0 to |cur|
        invariant listeners == []
        invariant forall k :: 0 <= k < i ==> cur[k].buffer == [err] && cur[k].closed
        invariant forall k :: i <= k < |cur| ==> cur[k].buffer == [] && !cur[k].closed
        modifies cur
      {
        cur[i].Send(err);
        cur[i].Close();
      }
    }

    /** Every listener is closed without an error, once. */
    method Stop()
      requires Valid()
      modifies this, listeners
      ensures listeners == [] && forall ch :: ch in old(listeners) ==> ch.buffer == [] && ch.closed
    {
      if |listeners| == 0 {
        return;
      }
      var cur := listeners;
      for i := 0 to |cur|
        invariant listeners == cur
        invariant forall k :: 0 <= k < i ==> cur[k].buffer == [] && cur[k].closed
        invariant forall k :: i <= k < |cur| ==> cur[k].buffer == [] && !cur[k].closed
        modifies cur
      {
        cur[i].Close();
      }
      listeners := [];
    }
  }

  class RefreshDebouncer {
    var stopped: bool
    var broadcaster: Option<seq<nat>>
    var refreshNowCh: bool
    var timerArmed: bool
    var timerFired: bool

    ghost predicate Represents(s: State)
      reads this
    {
      && stopped == s.stopped && broadcaster == s.broadcaster && refreshNowCh == s.token
      && timerArmed == s.armed && timerFired == s.fired
    }

    /** The new timer is stopped before it can fire. */
    constructor ()
      ensures Represents(Init)
    {
      stopped, broadcaster, refreshNowCh, timerArmed, timerFired := false, None, false, false, false;
    }

    method Debounce(ghost s: State, drops: bool)
      requires Represents(s)
      modifies this
      ensures Represents(Step(s, Action.Debounce(drops)))
    {
      if stopped {
        return;
      }
      timerArmed := true;
      if drops {
        timerFired := false;
      }
    }

    /** refreshNow: a new broadcaster comes with a wakeup token, unless one is there already. */
    method RefreshNow(ghost s: State, listener: nat)
      requires Represents(s) && listener == |s.listeners|
      modifies this
      ensures Represents(Step(s, Action.RefreshNow))
      ensures broadcaster.Some? && listener in broadcaster.value
    {
      if broadcaster.None? {
        broadcaster := Some([]);
        if !refreshNowCh {
          refreshNowCh := true;
        }
      }
      broadcaster := Some(broadcaster.value + [listener]);
    }

    /** The flusher's critical section: either it exits and hands back the listeners to close, or
        it clears both wakeups and takes the listeners to answer. */
    method Collect(ghost s: State) returns (exit: bool, taken: seq<nat>)
      requires Represents(s) && CanMove(s, Enter)
      modifies this
      ensures Represents(MoveStep(s, Enter))
      ensures exit <==> MoveStep(s, Enter).pc.Exited?
      ensures taken == Waiting(s) && (!exit ==> MoveStep(s, Enter).held == taken)
    {
      taken := if broadcaster.Some? then broadcaster.value else [];
      if stopped {
        broadcaster := None;
        timerArmed := false;
        return true, taken;
      }
      refreshNowCh := false;
      timerArmed := false;
      timerFired := false;
      broadcaster := None;
      return false, taken;
    }

    /** stop up to the unlock; the first caller goes on to close quit. */
    method Stop(ghost s: State) returns (first: bool)
      requires Represents(s)
      modifies this
      ensures Represents(Step(s, Action.Stop)) && (first <==> !s.stopped)
    {
      first := !stopped;
      stopped := true;
    }
  }
}
