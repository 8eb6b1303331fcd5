// writeFlusherImpl and flush as updates of their own variables; result channels have capacity one.
module WriteFlusher {
  import opened Coalescer

  class ResultChan {
    var results: seq<Answer>

    constructor ()
      ensures results == []
    {
      results := [];
    }

    /** Only a send that does not block is allowed. */
    method Send(a: Answer)
      requires results == []
      modifies this
      ensures results == [a]
    {
      results := [a];
    }
  }

  class Flusher {
    var running: bool
    var buffers: seq<nat>            // the sizes of the buffers to write
    var resultChans: seq<ResultChan>
    var timerReset: bool             // resetTimer was called and the timer has not fired since

    ghost predicate Valid()
      reads this, resultChans
    {
      && |buffers| == |resultChans|
      && (forall i, j :: 0 <= i < j < |resultChans| ==> resultChans[i] != resultChans[j])
      && (forall ch :: ch in resultChans ==> ch.results == [])
      && (running <==> buffers != []) && (running <==> timerReset)
    }

    ghost predicate Represents(s: State)
      requires PendingKnown(s)
      reads this
    {
      running == s.running && buffers == Sizes(s) && (timerReset <==> s.timer != Idle)
    }

    constructor ()
      ensures Valid() && Represents(Init)
    {
      running, buffers, resultChans, timerReset := false, [], [], false;
    }

    /** A request arrives; the first one starts the timer. */
    method OnRequest(ghost s: State, size: nat, ch: ResultChan)
      requires Valid() && Inv(s) && Represents(s) && Enabled(s, Accept(size)) && ch !in resultChans && ch.results == []
      modifies this
      ensures Valid() && PendingKnown(Step(s, Accept(size))) && Represents(Step(s, Accept(size)))
      ensures resultChans == old(resultChans) + [ch]
    {
      buffers := buffers + [size];
      resultChans := resultChans + [ch];
      if !running {
        timerReset := true;
        running := true;
      }
    }

    /** Whoever is waiting is told that the connection is closed. */
    method OnQuit()
      requires Valid()
      modifies resultChans
      ensures forall ch :: ch in resultChans ==> ch.results == [Stopped]
    {
      for i := 0 to |resultChans|
        invariant forall k :: 0 <= k < i ==> resultChans[k].results == [Stopped]
        invariant forall k :: i <= k < |resultChans| ==> resultChans[k].results == []
        modifies resultChans
      {
        resultChans[i].Send(Stopped);
      }
    }

    /** The timer fires: everything so far is written and the buffers are dropped. */
    method OnTimer(deadlineOk: bool, written: nat)
      requires Valid() && written <= Total(buffers)
      modifies this, resultChans
      ensures Valid() && buffers == [] && !timerReset
      ensures deadlineOk ==> forall i :: 0 <= i < |old(buffers)| ==>
        old(resultChans)[i].results == [Written(ResultOf(old(buffers), written, i))]
      ensures !deadlineOk ==> forall i :: 0 <= i < |old(buffers)| ==>
        old(resultChans)[i].results == [Written(WriteResult(0, true))]
    {
      running := false;
      timerReset := false;
      var chans, sizes := resultChans, buffers;
      buffers := [];
      resultChans := [];
      Flush(chans, sizes, deadlineOk, written);
    }

    /** flush: n counts the bytes written that have not been attributed to a buffer yet. */
    static method Flush(chans: seq<ResultChan>, sizes: seq<nat>, deadlineOk: bool, written: nat)
      requires |chans| == |sizes| && (forall i, j :: 0 <= i < j < |chans| ==> chans[i] != chans[j])
      requires forall ch :: ch in chans ==> ch.results == []
      modifies chans
      ensures deadlineOk ==> forall i :: 0 <= i < |sizes| ==> chans[i].results == [Written(ResultOf(sizes, written, i))]
      ensures !deadlineOk ==> forall i :: 0 <= i < |sizes| ==> chans[i].results == [Written(WriteResult(0, true))]
    {
      if !deadlineOk {
        for i := 0 to |chans|
          invariant forall k :: 0 <= k < i ==> chans[k].results == [Written(WriteResult(0, true))]
          invariant forall k :: i <= k < |chans| ==> chans[k].results == []
        {
          chans[i].Send(Written(WriteResult(0, true)));
        }
        return;
      }
      var n := written;
      for i := 0 to |sizes|
        invariant n == if written <= Total(sizes[..i]) then 0 else written - Total(sizes[..i])
        invariant forall k :: 0 <= k < i ==> chans[k].results == [Written(ResultOf(sizes, written, k))]
        invariant forall k :: i <= k < |chans| ==> chans[k].results == []
      {
        TotalSnoc(sizes, i);
        if sizes[i] <= n {
          chans[i].Send(Written(WriteResult(sizes[i], false)));
          n := n - sizes[i];
        } else {
          chans[i].Send(Written(WriteResult(n, true)));
          n := 0;
        }
      }
    }
  }
}
