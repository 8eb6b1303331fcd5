// The pool's sections under its lock, as updates of its fields. Each performs the matching step
// of the pool's transition system.
module HostConnPool {
  import opened ConnPool

  class Pool {
    const size: nat
    var conns: seq<nat>
    var closed: bool
    var filling: bool

    constructor (size: nat)
      ensures Represents(Init(size))
    {
      this.size := size;
      conns, closed, filling := [], false, false;
    }

    ghost predicate Represents(s: State)
      reads this
    {
      size == s.size && conns == s.conns && closed == s.closed && filling == s.filling
    }

    /** fill under the read lock: whether to go on to the write lock. */
    method MayFill(ghost s: State) returns (go: bool)
      requires Represents(s)
      ensures !s.stuck ==> (go <==> Enabled(s, StartFill))
    {
      if closed || filling {
        return false;
      }
      var fillCount := size - |conns|;
      return fillCount > 0;
    }

    /** fill under the write lock: everything is looked at again. */
    method StartFilling(ghost s: State, ghost f: nat) returns (startCount: nat, fillCount: nat)
      requires Represents(s) && Enabled(s, Upgrade(f))
      modifies this
      ensures Represents(DoUpgrade(s, f))
      ensures fillCount == 0 ==> DoUpgrade(s, f).fillers[f] == Over
      ensures fillCount > 0 && startCount == 0 ==> DoUpgrade(s, f).fillers[f] == Filling(fillCount - 1, [Dialling])
      ensures fillCount > 0 && startCount > 0 ==> DoUpgrade(s, f).fillers[f] == Filling(0, Dials(fillCount))
    {
      startCount := |conns|;
      if closed || filling || |conns| >= size {
        return startCount, 0;
      }
      filling := true;
      return startCount, size - startCount;
    }

    method FillingStopped(ghost s: State, ghost f: nat) returns (count: nat)
      requires Represents(s) && Enabled(s, StopFilling(f))
      modifies this
      ensures Represents(Step(s, StopFilling(f))) && count == |s.conns|
    {
      filling := false;
      count := |conns|;
    }

    /** The end of connect: the connection joins the pool, or is to be closed. */
    method Add(ghost s: State, ghost f: nat, ghost w: nat, conn: nat, ghost closeFails: bool) returns (toClose: bool)
      requires Represents(s) && Enabled(s, Action.Add(f, w, closeFails)) && conn == At(s, f, w).conn
      modifies this
      ensures Represents(Step(s, Action.Add(f, w, closeFails)))
      ensures toClose ==> !Step(s, Action.Add(f, w, closeFails)).open[conn]
      ensures !toClose ==> conn in conns
    {
      if closed {
        return true;
      }
      conns := conns + [conn];
      return false;
    }

    /** A closed connection leaves the pool; the last one takes its place. */
    method HandleError(ghost s: State, conn: nat) returns (refill: bool)
      requires Represents(s) && Enabled(s, Action.HandleError(conn))
      modifies this
      ensures Represents(Step(s, Action.HandleError(conn)))
      ensures refill <==> !s.closed && conn in s.conns
    {
      if closed {
        return false;
      }
      for i := 0 to |conns|
        invariant conns == s.conns && conn !in conns[..i]
      {
        if conns[i] == conn {
          SwapRemoveAt(conns, i);
          var n := |conns| - 1;
          conns := conns[i := conns[n]][..n];
          return true;
        }
      }
      SwapRemoveAbsent(conns, conn);
      return false;
    }

    method Close(ghost s: State) returns (toClose: seq<nat>)
      requires Represents(s) && !s.stuck
      modifies this
      ensures Represents(Step(s, Action.Close))
      ensures !s.closed ==> Step(s, Action.Close).closing == toClose
      ensures s.closed ==> toClose == []
    {
      if closed {
        return [];
      }
      closed := true;
      toClose := conns;
      conns := [];
    }
  }

  lemma {:induction false} SwapRemoveAt(conns: seq<nat>, i: nat)
    requires i < |conns| && conns[i] !in conns[..i]
    ensures SwapRemove(conns, conns[i]) == conns[i := conns[|conns| - 1]][..|conns| - 1]
  {
    var n := |conns| - 1;
    if i == 0 {
      assert n > 0 ==> [conns[n]] + conns[1..n] == conns[0 := conns[n]][..n];
    } else {
      assert conns[..i][0] == conns[0];
      assert conns[1..][..i - 1] == conns[..i][1..];
      SwapRemoveAt(conns[1..], i - 1);
      assert conns[i := conns[n]][..n] == [conns[0]] + conns[1..][i - 1 := conns[n]][..n - 1];
    }
  }

  lemma {:induction false} SwapRemoveAbsent(conns: seq<nat>, c: nat)
    requires c !in conns
    ensures SwapRemove(conns, c) == conns
  {
    if conns != [] {
      SwapRemoveAbsent(conns[1..], c);
    }
  }
}
