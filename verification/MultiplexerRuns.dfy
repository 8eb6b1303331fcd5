// What holds over whole runs of the multiplexer.
module MultiplexerRuns {
  import opened Multiplexer
  import opened MultiplexerInv

  predicate Legal(s: State, actions: seq<Action>)
    decreases |actions|
  {
    actions == [] || (Enabled(s, actions[0]) && Legal(Step(s, actions[0]), actions[1..]))
  }

  function RunFrom(s: State, actions: seq<Action>): State
    requires Legal(s, actions)
    decreases |actions|
  {
    if actions == [] then s else RunFrom(Step(s, actions[0]), actions[1..])
  }

  lemma RecvKeepsSetup(s: State, m: RecvMove)
    requires CanReceive(s, m)
    ensures RecvStep(s, m).numStreams == s.numStreams && RecvStep(s, m).deadline == s.deadline
  {
    hide DoLookup;
    match m
    case ReadHeader =>
    case ReadFails =>
    case Lookup =>
    case ReadBody(msg) =>
    case BodyFails =>
    case Deliver =>
    case SeeTimeout =>
    case SeeDone =>
    case Free =>
    case ReceiverCloses =>
  }

  lemma CloseKeepsSetup(s: State, m: CloseMove)
    requires CanClose(s, m)
    ensures CloseStep(s, m).numStreams == s.numStreams && CloseStep(s, m).deadline == s.deadline
  {
  }

  lemma StepKeepsSetup(s: State, a: Action)
    requires Enabled(s, a)
    ensures Step(s, a).numStreams == s.numStreams && Step(s, a).deadline == s.deadline
  {
    hide RecvStep, CloseStep, DoAddCall;
    match a
    case Recv(m) => RecvKeepsSetup(s, m);
    case Close(m) => CloseKeepsSetup(s, m);
    case _ =>
  }

  lemma {:induction false} RunInv(s: State, actions: seq<Action>)
    requires Inv(s) && Legal(s, actions)
    ensures Inv(RunFrom(s, actions))
    ensures RunFrom(s, actions).numStreams == s.numStreams && RunFrom(s, actions).deadline == s.deadline
    decreases |actions|
  {
    hide Inv, Step, Enabled;
    if actions != [] {
      StepKeepsSetup(s, actions[0]);
      StepInv(s, actions[0]);
      RunInv(Step(s, actions[0]), actions[1..]);
    }
  }

  lemma Reached(numStreams: nat, deadline: bool, actions: seq<Action>)
    requires Legal(Init(numStreams, deadline), actions)
    ensures Inv(RunFrom(Init(numStreams, deadline), actions))
    ensures RunFrom(Init(numStreams, deadline), actions).numStreams == numStreams
  {
    RunInv(Init(numStreams, deadline), actions);
  }

  // ---------------------------------------------------------------- responses

  /** In every run a caller gets at most one message, and a response it gets answers its
      own request, whatever timed out, was cancelled or was closed on the way. */
  lemma ResponsesReachTheirCaller(numStreams: nat, deadline: bool, actions: seq<Action>)
    requires Legal(Init(numStreams, deadline), actions)
    ensures var s := RunFrom(Init(numStreams, deadline), actions);
            forall c :: c in s.calls ==>
              && |s.calls[c].got| <= 1
              && (forall m :: m in s.calls[c].got && !m.ConnError? ==> m.request == c)
  {
    hide Legal, RunFrom, Placed;
    Reached(numStreams, deadline, actions);
    var s := RunFrom(Init(numStreams, deadline), actions);
    forall c | c in s.calls
      ensures |s.calls[c].got| <= 1
      ensures forall m :: m in s.calls[c].got && !m.ConnError? ==> m.request == c
    {
      assert CallOk(s, c);
    }
  }

  /** The reason: while the server may still answer a request, its stream stays with the
      call that sent it, so nobody else can be given that stream. */
  lemma StreamKeptWhileOutstanding(numStreams: nat, deadline: bool, actions: seq<Action>, r: nat)
    requires Legal(Init(numStreams, deadline), actions)
    requires AtServer(RunFrom(Init(numStreams, deadline), actions), r)
    ensures var s := RunFrom(Init(numStreams, deadline), actions);
            && r in s.calls && s.calls[r].stream in s.used && s.calls[r].stream != 0
            && (forall d :: d in s.calls && d != r && Owns(s.calls[d]) ==> s.calls[d].stream != s.calls[r].stream)
            && (!s.IsClosed() ==> Listed(s, r))
  {
    hide Legal, RunFrom, Local;
    Reached(numStreams, deadline, actions);
    var s := RunFrom(Init(numStreams, deadline), actions);
    assert CallOk(s, r);
    forall d | d in s.calls && d != r && Owns(s.calls[d])
      ensures s.calls[d].stream != s.calls[r].stream
    {
      OwnersDiffer(s, r, d);
    }
  }

  // ---------------------------------------------------------------- streams

  ghost predicate OneOwner(s: State, st: nat) {
    exists c :: c in s.calls && Owns(s.calls[c]) && s.calls[c].stream == st
                && (forall d :: d in s.calls && Owns(s.calls[d]) && s.calls[d].stream == st ==> d == c)
  }

  /** In every run each stream in use other than 0 has exactly one owning call, each stream
      is released at most once per call, every registered stream is in use, and neither
      addCall nor processFrame meets a state they report as impossible. */
  lemma StreamsHaveOneOwner(numStreams: nat, deadline: bool, actions: seq<Action>)
    requires Legal(Init(numStreams, deadline), actions)
    ensures var s := RunFrom(Init(numStreams, deadline), actions);
            && (forall st :: st in s.used && st != 0 ==> st < numStreams && OneOwner(s, st))
            && (forall c :: c in s.calls && Owns(s.calls[c]) ==> s.calls[c].stream in s.used)
            && (forall c :: c in s.calls ==> s.calls[c].releases <= 1)
            && (!s.IsClosed() ==> s.table.Keys <= s.used)
            && !s.duplicateCall && !s.wrongStream && !s.noHandler
  {
    hide Legal, RunFrom, Placed;
    Reached(numStreams, deadline, actions);
    var s := RunFrom(Init(numStreams, deadline), actions);
    forall st | st in s.used && st != 0
      ensures st < numStreams && OneOwner(s, st)
    {
      var c := s.holder[st];
      forall d | d in s.calls && Owns(s.calls[d]) && s.calls[d].stream == st
        ensures d == c
      {
        assert CallOk(s, d);
      }
    }
    forall c | c in s.calls
      ensures s.calls[c].releases <= 1 && (Owns(s.calls[c]) ==> s.calls[c].stream in s.used)
    {
      assert CallOk(s, c);
    }
    forall st | !s.IsClosed() && st in s.table
      ensures st in s.used
    {
      TableOwner(s, st);
    }
  }

  /** In every run addCall succeeds exactly when the connection is open. */
  lemma AddCallFailsOnlyWhenClosed(numStreams: nat, deadline: bool, actions: seq<Action>, c: nat)
    requires Legal(Init(numStreams, deadline), actions)
    requires At(RunFrom(Init(numStreams, deadline), actions), c, Adding)
    ensures var s := RunFrom(Init(numStreams, deadline), actions);
            At(Step(s, AddCall(c)), c, Building) <==> !s.IsClosed()
  {
    hide Legal, RunFrom, Inv;
    Reached(numStreams, deadline, actions);
    AddCallInv(RunFrom(Init(numStreams, deadline), actions), c);
  }

  // ---------------------------------------------------------------- closing

  /** How many steps of its own a caller can take before it reads `resp` or closes `timeout`. */
  function Rank(pc: Pc): nat {
    match pc
    case Building => 5
    case Writing => 4
    case Written => 3
    case Waiting => 2
    case Leaving => 1
    case _ => 0
  }

  /** In every run each call closeWithError has yet to notify has closed `timeout`, or is at a
      place from which it must still read `resp` or close `timeout`. */
  lemma UnnotifiedCallsAreObliged(numStreams: nat, deadline: bool, actions: seq<Action>, c: nat)
    requires Legal(Init(numStreams, deadline), actions)
    requires InTodo(RunFrom(Init(numStreams, deadline), actions), c)
    ensures var s := RunFrom(Init(numStreams, deadline), actions);
            c in s.calls && (s.calls[c].timeout || Obliged(s.calls[c].pc)) && !Held(s.recv, c)
  {
    hide Legal, RunFrom;
    Reached(numStreams, deadline, actions);
    assert CallOk(RunFrom(Init(numStreams, deadline), actions), c);
  }

  /** The step a caller takes next when it is not waiting. */
  function NextOf(c: nat, pc: Pc): Action
    requires Obliged(pc) && !pc.Waiting?
  {
    match pc
    case Building => Own(c, BuildOk)
    case Writing => Send(c)
    case Written => Own(c, WriteOk)
    case Leaving => Own(c, Leave)
  }

  predicate ActsFor(a: Action, c: nat) {
    (a.Own? || a.Send?) && a.c == c
  }

  /** No path of an obliged caller leads away from its obligation: every step it can take
      closes `timeout` or leaves it obliged with fewer steps to go. */
  lemma ObligedCallersProgress(s: State, c: nat, a: Action)
    requires c in s.calls && Obliged(s.calls[c].pc) && ActsFor(a, c) && Enabled(s, a)
    ensures var k := Step(s, a).calls[c];
            k.timeout || (Obliged(k.pc) && Rank(k.pc) < Rank(s.calls[c].pc))
  {
    hide RecvStep, CloseStep, DoAddCall;
    match a
    case Own(_, m) =>
    case Send(_) =>
  }
}
