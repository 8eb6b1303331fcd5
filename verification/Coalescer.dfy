// The write coalescer (conn.go:1077-1215): requests gathered until a timer fires, one write for all
// of them, and what each caller is told.
module Coalescer {
  import opened Common

  /** What a caller gets: bytes written, and whether with an error. */
  datatype WriteResult = WriteResult(n: nat, failed: bool)

  function Total(sizes: seq<nat>): nat {
    if sizes == [] then 0 else Total(sizes[..|sizes| - 1]) + sizes[|sizes| - 1]
  }

  // ---------------------------------------------------------------- sharing out the bytes written

  /** How many of the first n bytes of the joined buffers are bytes of buffer i. */
  function Share(sizes: seq<nat>, n: nat, i: nat): nat
    requires i < |sizes|
  {
    var before := Total(sizes[..i]);
    if n <= before then 0 else if n - before < sizes[i] then n - before else sizes[i]
  }

  /** A buffer's result: its share of the bytes, with the error unless that is all of it. */
  function ResultOf(sizes: seq<nat>, n: nat, i: nat): WriteResult
    requires i < |sizes|
  {
    WriteResult(Share(sizes, n, i), Share(sizes, n, i) != sizes[i])
  }

  function Results(sizes: seq<nat>, n: nat): (r: seq<WriteResult>)
    ensures |r| == |sizes| && forall i :: 0 <= i < |sizes| ==> r[i] == ResultOf(sizes, n, i)
  {
    seq(|sizes|, i requires 0 <= i < |sizes| => ResultOf(sizes, n, i))
  }

  function SumOf(rs: seq<WriteResult>): nat {
    if rs == [] then 0 else SumOf(rs[..|rs| - 1]) + rs[|rs| - 1].n
  }

  lemma TotalSnoc(sizes: seq<nat>, k: nat)
    requires k < |sizes|
    ensures Total(sizes[..k + 1]) == Total(sizes[..k]) + sizes[k]
  {
    assert sizes[..k + 1][..k] == sizes[..k];
  }

  lemma {:induction false} SharedUpTo(sizes: seq<nat>, n: nat, k: nat)
    requires k <= |sizes|
    ensures SumOf(Results(sizes, n)[..k]) == if n <= Total(sizes[..k]) then n else Total(sizes[..k])
  {
    var rs := Results(sizes, n);
    if k > 0 {
      SharedUpTo(sizes, n, k - 1);
      TotalSnoc(sizes, k - 1);
      assert rs[..k][..k - 1] == rs[..k - 1];
    }
  }

  /** The byte counts reported add up to the bytes written. */
  lemma ReportedIsWritten(sizes: seq<nat>, n: nat)
    requires n <= Total(sizes)
    ensures SumOf(Results(sizes, n)) == n
  {
    SharedUpTo(sizes, n, |sizes|);
    assert sizes[..|sizes|] == sizes && Results(sizes, n)[..|sizes|] == Results(sizes, n);
  }

  lemma {:induction false} TotalGrows(sizes: seq<nat>, i: nat, j: nat)
    requires i <= j <= |sizes|
    ensures Total(sizes[..i]) <= Total(sizes[..j])
  {
    if i < j {
      TotalGrows(sizes, i, j - 1);
      TotalSnoc(sizes, j - 1);
    }
  }

  /** Fully written non-empty buffers form a prefix: everything before one was written too. */
  lemma WrittenIsPrefix(sizes: seq<nat>, n: nat, i: nat, j: nat)
    requires i < j < |sizes| && sizes[j] > 0 && !ResultOf(sizes, n, j).failed
    ensures !ResultOf(sizes, n, i).failed
  {
    TotalSnoc(sizes, i);
    TotalGrows(sizes, i + 1, j);
  }

  /** When everything was written nobody is told of an error. */
  lemma AllWritten(sizes: seq<nat>, i: nat)
    requires i < |sizes|
    ensures ResultOf(sizes, Total(sizes), i) == WriteResult(sizes[i], false)
  {
    TotalSnoc(sizes, i);
    TotalGrows(sizes, i + 1, |sizes|);
    assert sizes[..|sizes|] == sizes;
  }

  // ---------------------------------------------------------------- the flusher

  datatype Timer = Idle | Armed | Fired

  datatype Answer = Written(result: WriteResult) | Stopped

  datatype Request = Request(size: nat, answers: seq<Answer>)

  /** `pending` are the requests taken and not answered yet, in order. */
  datatype State = State(running: bool, timer: Timer, pending: seq<nat>, requests: seq<Request>, exited: bool)

  datatype Action =
    | Accept(size: nat)
    | Expire
    | FlushWritten(n: nat)   // the bytes the write accepted
    | FlushNoDeadline        // the write deadline could not be set
    | Quit

  const Init := State(false, Idle, [], [], false)

  function Sizes(s: State): (r: seq<nat>)
    requires PendingKnown(s)
    ensures |r| == |s.pending| && forall i :: 0 <= i < |r| ==> r[i] == s.requests[s.pending[i]].size
  {
    seq(|s.pending|, i requires 0 <= i < |s.pending| => s.requests[s.pending[i]].size)
  }

  predicate PendingKnown(s: State) {
    forall i :: 0 <= i < |s.pending| ==> s.pending[i] < |s.requests|
  }

  predicate Enabled(s: State, a: Action) {
    && !s.exited && PendingKnown(s)
    && match a
       case Accept(_) => true
       case Expire => s.timer.Armed?
       case FlushWritten(n) => s.timer.Fired? && n <= Total(Sizes(s))
       case FlushNoDeadline => s.timer.Fired?
       case Quit => true
  }

  /** The k-th pending request gets the k-th answer. */
  function AnswerAll(requests: seq<Request>, pending: seq<nat>, answers: seq<Answer>): (r: seq<Request>)
    requires |answers| == |pending|
    ensures |r| == |requests|
  {
    if pending == [] then requests
    else
      var rest := AnswerAll(requests, pending[1..], answers[1..]);
      if pending[0] < |requests| then
        rest[pending[0] := rest[pending[0]].(answers := rest[pending[0]].answers + [answers[0]])]
      else rest
  }

  function AllSame(n: nat, a: Answer): (r: seq<Answer>)
    ensures |r| == n && forall i :: 0 <= i < n ==> r[i] == a
  {
    seq(n, _ => a)
  }

  function Told(rs: seq<WriteResult>): (r: seq<Answer>)
    ensures |r| == |rs| && forall i :: 0 <= i < |rs| ==> r[i] == Written(rs[i])
  {
    seq(|rs|, i requires 0 <= i < |rs| => Written(rs[i]))
  }

  function Flushed(s: State, answers: seq<Answer>): State
    requires |answers| == |s.pending|
  {
    s.(running := false, timer := Idle, pending := [], requests := AnswerAll(s.requests, s.pending, answers))
  }

  function Step(s: State, a: Action): State
    requires Enabled(s, a)
  {
    match a
    case Accept(size) =>
      s.(pending := s.pending + [|s.requests|], requests := s.requests + [Request(size, [])],
         running := true, timer := if s.running then s.timer else Armed)
    case Expire => s.(timer := Fired)
    case FlushWritten(n) => Flushed(s, Told(Results(Sizes(s), n)))
    case FlushNoDeadline => Flushed(s, AllSame(|s.pending|, Written(WriteResult(0, true))))
    case Quit =>
      s.(exited := true, pending := [], requests := AnswerAll(s.requests, s.pending, AllSame(|s.pending|, Stopped)))
  }

  // ---------------------------------------------------------------- invariant

  /** While the flusher runs, the timer is set exactly when requests are waiting; the requests that
      wait are the last ones, in order, unanswered, and the others have been answered once. */
  predicate Inv(s: State) {
    && PendingKnown(s) && NoRepeat(s.pending)
    && (forall k :: 0 <= k < |s.pending| ==> s.pending[k] == |s.requests| - |s.pending| + k)
    && (!s.exited ==> (s.running <==> s.pending != []) && (s.running <==> s.timer != Idle))
    && (s.exited ==> s.pending == [])
    && forall i :: 0 <= i < |s.requests| ==> |s.requests[i].answers| == if i in s.pending then 0 else 1
  }

  lemma {:induction false} AnsweredEach(requests: seq<Request>, pending: seq<nat>, answers: seq<Answer>, i: nat)
    requires |answers| == |pending| && NoRepeat(pending) && i < |requests|
    ensures var r := AnswerAll(requests, pending, answers)[i];
      r.size == requests[i].size && (i !in pending ==> r == requests[i])
    ensures forall k :: 0 <= k < |pending| && pending[k] == i ==>
      AnswerAll(requests, pending, answers)[i].answers == requests[i].answers + [answers[k]]
  {
    if pending != [] {
      AnsweredEach(requests, pending[1..], answers[1..], i);
    }
  }

  lemma AnswerInv(s: State, t: State, answers: seq<Answer>)
    requires Inv(s) && |answers| == |s.pending| && t.requests == AnswerAll(s.requests, s.pending, answers)
    requires t.pending == [] && (!t.exited ==> !t.running && t.timer == Idle)
    ensures Inv(t)
  {
    forall i | 0 <= i < |t.requests|
      ensures |t.requests[i].answers| == 1
    {
      AnsweredEach(s.requests, s.pending, answers, i);
    }
  }

  lemma StepInv(s: State, a: Action)
    requires Inv(s) && Enabled(s, a)
    ensures Inv(Step(s, a))
  {
    hide AnswerAll, Total;
    match a
    case Accept(_) =>
    case Expire =>
    case FlushWritten(n) => AnswerInv(s, Step(s, a), Told(Results(Sizes(s), n)));
    case FlushNoDeadline => AnswerInv(s, Step(s, a), AllSame(|s.pending|, Written(WriteResult(0, true))));
    case Quit => AnswerInv(s, Step(s, a), AllSame(|s.pending|, Stopped));
  }

  predicate Legal(s: State, actions: seq<Action>)
    decreases |actions|
  {
    actions == [] || (Enabled(s, actions[0]) && Legal(Step(s, actions[0]), actions[1..]))
  }

  function RunFrom(s: State, actions: seq<Action>): State
    requires Legal(s, actions)
    decreases |actions|
  {
    if actions == [] then s else RunFrom(Step(s, actions[0]), actions[1..])
  }

  lemma {:induction false} RunInv(s: State, actions: seq<Action>)
    requires Inv(s) && Legal(s, actions)
    ensures Inv(RunFrom(s, actions))
    decreases |actions|
  {
    hide Inv, Step, Enabled;
    if actions != [] {
      StepInv(s, actions[0]);
      RunInv(Step(s, actions[0]), actions[1..]);
    }
  }

  /** In every run: a request is answered at most once, and is answered unless it still waits;
      and whenever requests wait, the timer is running for them. */
  lemma AnsweredExactlyOnce(actions: seq<Action>, i: nat)
    requires Legal(Init, actions) && i < |RunFrom(Init, actions).requests|
    ensures var s := RunFrom(Init, actions);
      |s.requests[i].answers| == (if i in s.pending then 0 else 1) && (s.exited ==> i !in s.pending)
  {
    hide Step, Enabled;
    RunInv(Init, actions);
  }

  lemma TimerIffPending(actions: seq<Action>)
    requires Legal(Init, actions) && !RunFrom(Init, actions).exited
    ensures var s := RunFrom(Init, actions); (s.timer != Idle <==> s.pending != []) && (s.running <==> s.pending != [])
  {
    hide Step, Enabled;
    RunInv(Init, actions);
  }

  /** In every run the requests that wait are written in the order they came. */
  lemma WrittenInOrder(actions: seq<Action>, k: nat)
    requires Legal(Init, actions) && k < |RunFrom(Init, actions).pending|
    ensures var s := RunFrom(Init, actions); s.pending[k] == |s.requests| - |s.pending| + k
  {
    hide Step, Enabled;
    RunInv(Init, actions);
  }

  function Expiries(actions: seq<Action>): nat {
    if actions == [] then 0 else (if actions[0].Expire? then 1 else 0) + Expiries(actions[1..])
  }

  function Flushes(actions: seq<Action>): nat {
    if actions == [] then 0
    else (if actions[0].FlushWritten? || actions[0].FlushNoDeadline? then 1 else 0) + Flushes(actions[1..])
  }

  lemma {:induction false} ExpiryRun(s: State, actions: seq<Action>)
    requires Inv(s) && Legal(s, actions)
    ensures Expiries(actions) + (if s.timer.Fired? then 1 else 0)
         == Flushes(actions) + (if RunFrom(s, actions).timer.Fired? then 1 else 0)
    decreases |actions|
  {
    hide AnswerAll, Total, Results;
    if actions != [] {
      StepInv(s, actions[0]);
      ExpiryRun(Step(s, actions[0]), actions[1..]);
    }
  }

  /** In every run the timer expires once for each flush, so a request that comes while others wait
      does not put the flush off. */
  lemma OneExpiryPerFlush(actions: seq<Action>)
    requires Legal(Init, actions)
    ensures Expiries(actions) == Flushes(actions) + if RunFrom(Init, actions).timer.Fired? then 1 else 0
  {
    hide Step, Enabled;
    ExpiryRun(Init, actions);
  }

  /** In every reachable state a flush tells the k-th waiting caller exactly its own share. */
  lemma FlushTellsEach(s: State, n: nat, k: nat)
    requires Inv(s) && Enabled(s, FlushWritten(n)) && k < |s.pending|
    ensures Step(s, FlushWritten(n)).requests[s.pending[k]].answers == [Written(ResultOf(Sizes(s), n, k))]
  {
    hide AnswerAll, Total;
    AnsweredEach(s.requests, s.pending, Told(Results(Sizes(s), n)), s.pending[k]);
    assert s.requests[s.pending[k]].answers == [];
  }

  /** Without a deadline nothing is written and everyone gets the error; on quit everyone is stopped. */
  lemma FailureTellsEach(s: State, k: nat)
    requires Inv(s) && !s.exited && k < |s.pending|
    ensures s.timer.Fired? ==>
      Step(s, FlushNoDeadline).requests[s.pending[k]].answers == [Written(WriteResult(0, true))]
    ensures Step(s, Quit).requests[s.pending[k]].answers == [Stopped]
  {
    hide AnswerAll, Total;
    AnsweredEach(s.requests, s.pending, AllSame(|s.pending|, Written(WriteResult(0, true))), s.pending[k]);
    AnsweredEach(s.requests, s.pending, AllSame(|s.pending|, Stopped), s.pending[k]);
    assert s.requests[s.pending[k]].answers == [];
  }
}
