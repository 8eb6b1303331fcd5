// Streams come back: while a connection lives, every stream taken is given back once its request
// is answered, whatever became of the caller.
module MultiplexerReturns {
  import opened Multiplexer
  import opened MultiplexerInv
  import opened MultiplexerRuns

  /** The connection is open, its context is live and the receiver has met no error. */
  predicate Live(s: State) {
    !s.IsClosed() && !s.ctxDone && !s.recv.Failed? && !s.recv.Stopped?
  }

  /** Callers that have written their request and will not release the stream themselves, unless an
      answer comes. */
  predicate LeftToOthers(pc: Pc) {
    pc.Written? || pc.Waiting? || pc.Leaving? || pc.Done?
  }

  /** Whoever keeps a stream without releasing it has an answer coming that will. */
  predicate Returns(s: State, c: nat) {
    Live(s) && c in s.calls && Owns(s.calls[c]) && LeftToOthers(s.calls[c].pc) ==> AtServer(s, c) || Held(s.recv, c)
  }

  // ---------------------------------------------------------------- every step keeps it

  lemma OwnReturns(s: State, d: nat, m: Move, c: nat)
    requires Inv(s) && Returns(s, c) && Enabled(s, Own(d, m))
    ensures Returns(Step(s, Own(d, m)), c)
  {
    hide Inv, Owns;
    var t := Step(s, Own(d, m));
    assert AtServer(t, c) == AtServer(s, c) && Held(t.recv, c) == Held(s.recv, c);
    assert d == c ==> Owns(t.calls[c]) == Owns(s.calls[c]) by { SameStreamOwned(s.calls[d], m, s.IsClosed()); }
  }

  lemma SameStreamOwned(k: Call, m: Move, closed: bool)
    requires CanMove(k.pc, m)
    ensures Owns(Moved(k, m, closed)) == Owns(k)
  {
  }

  lemma AddCallLeaves(s: State, d: nat, c: nat)
    requires Enabled(s, AddCall(d))
    ensures var t := Step(s, AddCall(d));
      && Live(t) == Live(s) && AtServer(t, c) == AtServer(s, c) && Held(t.recv, c) == Held(s.recv, c)
      && (c != d && c in t.calls ==> c in s.calls && t.calls[c] == s.calls[c])
  {
    hide AddedPc;
  }

  lemma AddCallReturns(s: State, d: nat, c: nat)
    requires Inv(s) && Returns(s, c) && Enabled(s, AddCall(d))
    ensures Returns(Step(s, AddCall(d)), c)
  {
    AddCallLeaves(s, d, c);
    AddCallInv(s, d);
    hide Inv, Step, Enabled, AtServer, Held, Owns;
  }

  lemma AnswerReturns(s: State, r: nat, c: nat)
    requires Returns(s, c) && Enabled(s, Answer(r))
    ensures Returns(Step(s, Answer(r)), c)
  {
    hide Owns;
    assert AtServer(s, c) ==> AtServer(Step(s, Answer(r)), c);
  }

  lemma ReadHeaderReturns(s: State, c: nat)
    requires Returns(s, c) && CanReceive(s, ReadHeader)
    ensures Returns(RecvStep(s, ReadHeader), c)
  {
    hide Owns;
    assert s.wire == [s.wire[0]] + s.wire[1..];
    assert AtServer(s, c) ==> AtServer(RecvStep(s, ReadHeader), c);
  }

  lemma LookupReturns(s: State, c: nat)
    requires Inv(s) && Returns(s, c) && CanReceive(s, Lookup)
    ensures Returns(RecvStep(s, Lookup), c)
  {
    if !s.IsClosed() {
      LookupOpenInv(s);
    }
    hide Inv, Owns;
    assert RecvStep(s, Lookup).calls == s.calls;
  }

  lemma DeliverReturns(s: State, c: nat)
    requires Returns(s, c) && CanReceive(s, Deliver)
    ensures Returns(RecvStep(s, Deliver), c)
  {
    var t := RecvStep(s, Deliver);
    assert AtServer(t, c) == AtServer(s, c);
  }

  lemma FreeReturns(s: State, c: nat)
    requires Inv(s) && Returns(s, c) && CanReceive(s, Free)
    ensures Returns(RecvStep(s, Free), c)
  {
    var t := RecvStep(s, Free);
    hide Inv;
    assert AtServer(t, c) == AtServer(s, c);
  }

  lemma RecvReturns(s: State, m: RecvMove, c: nat)
    requires Inv(s) && Returns(s, c) && CanReceive(s, m)
    ensures Returns(RecvStep(s, m), c)
  {
    hide Inv, DoLookup;
    match m
    case ReadHeader => ReadHeaderReturns(s, c);
    case ReadFails =>
    case Lookup => LookupReturns(s, c);
    case ReadBody(_) => assert AtServer(RecvStep(s, m), c) == AtServer(s, c);
    case BodyFails =>
    case Deliver => DeliverReturns(s, c);
    case SeeTimeout => assert AtServer(RecvStep(s, m), c) == AtServer(s, c);
    case SeeDone =>
    case Free => FreeReturns(s, c);
    case ReceiverCloses =>
  }

  lemma CloseReturns(s: State, m: CloseMove, c: nat)
    requires Returns(s, c) && CanClose(s, m)
    ensures Returns(CloseStep(s, m), c)
  {
    match m
    case CallerCloses(_) =>
    case OtherCloses =>
    case CloseNil =>
    case Notify(_) =>
    case Skip(_) =>
    case Cancel =>
    case ParentCancelled =>
  }

  lemma TakingReturns(s: State, a: Action, c: nat)
    requires Returns(s, c) && Enabled(s, a) && (a.Exec? || a.GetStream? || a.Send?)
    ensures Returns(Step(s, a), c)
  {
    hide RecvStep, CloseStep, DoAddCall, CanReceive, CanClose, CanSocket;
    var t := Step(s, a);
    match a
    case Exec(_) => assert AtServer(t, c) == AtServer(s, c);
    case GetStream(_, _) => assert AtServer(t, c) == AtServer(s, c);
    case Send(d) => assert AtServer(t, c) == (AtServer(s, c) || d == c);
  }

  lemma GivingReturns(s: State, a: Action, c: nat)
    requires Returns(s, c) && Enabled(s, a) && (a.Release? || a.Drop? || a.Socket?)
    ensures Returns(Step(s, a), c)
  {
    hide RecvStep, CloseStep, DoAddCall, CanReceive, CanClose, CanSocket;
    var t := Step(s, a);
    match a
    case Release(_) => assert AtServer(t, c) == AtServer(s, c);
    case Drop(_) => assert AtServer(t, c) == AtServer(s, c);
    case Socket(_) => assert AtServer(t, c) == AtServer(s, c);
  }

  lemma StepReturns(s: State, a: Action, c: nat)
    requires Inv(s) && Returns(s, c) && Enabled(s, a)
    ensures Returns(Step(s, a), c)
  {
    hide Inv, Returns, RecvStep, CloseStep, DoAddCall;
    match a
    case Exec(_) => TakingReturns(s, a, c);
    case GetStream(_, _) => TakingReturns(s, a, c);
    case AddCall(d) => AddCallReturns(s, d, c);
    case Own(d, m) => OwnReturns(s, d, m, c);
    case Send(_) => TakingReturns(s, a, c);
    case Release(_) => GivingReturns(s, a, c);
    case Drop(_) => GivingReturns(s, a, c);
    case Answer(r) => AnswerReturns(s, r, c);
    case Recv(m) => RecvReturns(s, m, c);
    case Close(m) => CloseReturns(s, m, c);
    case Socket(_) => GivingReturns(s, a, c);
  }

  lemma {:induction false} RunReturns(s: State, actions: seq<Action>, c: nat)
    requires Inv(s) && Returns(s, c) && Legal(s, actions)
    ensures Returns(RunFrom(s, actions), c)
    decreases |actions|
  {
    hide Inv, Step, Enabled, Returns;
    if actions != [] {
      StepInv(s, actions[0]);
      StepReturns(s, actions[0], c);
      RunReturns(Step(s, actions[0]), actions[1..], c);
    }
  }

  /** In every run, while the connection lives, a call that has written its request and has not
      given its stream back has an answer on the way that will, or one with the receiver. */
  lemma StreamsComeBack(numStreams: nat, deadline: bool, actions: seq<Action>, c: nat)
    requires Legal(Init(numStreams, deadline), actions)
    ensures var s := RunFrom(Init(numStreams, deadline), actions);
      Live(s) && c in s.calls && Owns(s.calls[c]) && LeftToOthers(s.calls[c].pc) ==> AtServer(s, c) || Held(s.recv, c)
  {
    hide Step, Enabled;
    assert Inv(Init(numStreams, deadline));
    RunReturns(Init(numStreams, deadline), actions, c);
  }

  /** So when every call has returned and every answer has been taken in, no stream is in use. */
  lemma NothingLeaks(numStreams: nat, deadline: bool, actions: seq<Action>)
    requires Legal(Init(numStreams, deadline), actions)
    requires var s := RunFrom(Init(numStreams, deadline), actions);
      Live(s) && s.pending == {} && s.wire == [] && s.recv.Reading? && forall c :: c in s.calls ==> s.calls[c].pc.Done?
    ensures RunFrom(Init(numStreams, deadline), actions).used == {0}
  {
    hide Step, Enabled, Legal, RunFrom, Local, Placed;
    Reached(numStreams, deadline, actions);
    var s := RunFrom(Init(numStreams, deadline), actions);
    forall st | st in s.holder
      ensures false
    {
      StreamsComeBack(numStreams, deadline, actions, s.holder[st]);
    }
    assert s.holder.Keys == {};
  }

  // ---------------------------------------------------------------- answered callers give back

  /** A caller that was handed its response goes on to release the stream, and has when it is done. */
  predicate Answered(k: Call) {
    && (k.pc.GotErr? ==> |k.got| == 1 && !k.got[0].Frame?)
    && (k.pc.Done? && k.got != [] && k.got[0].Frame? ==> k.releases == 1)
  }

  predicate AnsweredAt(s: State, c: nat) {
    c in s.calls ==> Answered(s.calls[c])
  }

  lemma MovedAnswered(k: Call, c: nat, m: Move, closed: bool)
    requires CanMove(k.pc, m) && Local(k, c, closed) && Answered(k)
    ensures Answered(Moved(k, m, closed))
  {
  }

  lemma CallIs(s: State, c: nat)
    requires Inv(s) && c in s.calls
    ensures Local(s.calls[c], c, s.IsClosed()) && (Held(s.recv, c) ==> Owns(s.calls[c]))
  {
    hide Local, StreamsOk, TableOk, ServerOk;
    assert CallOk(s, c);
  }

  lemma OwnAnswered(s: State, d: nat, m: Move, c: nat)
    requires Inv(s) && AnsweredAt(s, c) && Enabled(s, Own(d, m))
    ensures AnsweredAt(Step(s, Own(d, m)), c)
  {
    if d == c {
      CallIs(s, c);
      hide Inv, Local;
      MovedAnswered(s.calls[c], c, m, s.IsClosed());
    }
  }

  lemma ReleaseAnswered(s: State, d: nat, c: nat)
    requires Inv(s) && AnsweredAt(s, c) && Enabled(s, Release(d))
    ensures AnsweredAt(Step(s, Release(d)), c)
  {
    if d == c {
      CallIs(s, c);
    }
    hide Inv;
  }

  lemma CallerAnswered(s: State, a: Action, c: nat)
    requires Inv(s) && AnsweredAt(s, c) && Enabled(s, a) && !a.Recv? && !a.Close? && !a.AddCall?
    ensures AnsweredAt(Step(s, a), c)
  {
    hide Inv, RecvStep, CloseStep, DoAddCall, CanReceive, CanClose, CanSocket, CanMove, Moved;
    match a
    case Exec(_) =>
    case GetStream(_, _) =>
    case Own(d, m) => OwnAnswered(s, d, m, c);
    case Send(_) =>
    case Release(d) => ReleaseAnswered(s, d, c);
    case Drop(_) =>
    case Answer(_) =>
    case Socket(_) =>
  }

  lemma AddedAnswered(s: State, d: nat, c: nat)
    requires Inv(s) && AnsweredAt(s, c) && Enabled(s, AddCall(d))
    ensures AnsweredAt(Step(s, AddCall(d)), c)
  {
    if c in s.calls {
      CallIs(s, c);
    }
    hide Inv, RecvStep, CloseStep, DoAddCall, CanReceive, CanClose, CanSocket;
  }

  lemma RecvAnswered(s: State, m: RecvMove, c: nat)
    requires Inv(s) && AnsweredAt(s, c) && CanReceive(s, m)
    ensures AnsweredAt(RecvStep(s, m), c)
  {
    if c in s.calls {
      CallIs(s, c);
    }
    hide Inv, Local;
    match m
    case ReadHeader =>
    case Lookup =>
    case ReadBody(_) =>
    case Deliver =>
    case SeeTimeout =>
    case SeeDone =>
    case Free =>
    case ReadFails =>
    case BodyFails =>
    case ReceiverCloses =>
  }

  lemma CloseAnswered(s: State, m: CloseMove, c: nat)
    requires Inv(s) && AnsweredAt(s, c) && CanClose(s, m)
    ensures AnsweredAt(CloseStep(s, m), c)
  {
    if c in s.calls {
      CallIs(s, c);
    }
    hide Inv;
    match m
    case CallerCloses(_) =>
    case OtherCloses =>
    case CloseNil =>
    case Notify(_) =>
    case Skip(_) =>
    case Cancel =>
    case ParentCancelled =>
  }

  lemma {:induction false} RunAnswered(s: State, actions: seq<Action>, c: nat)
    requires Inv(s) && AnsweredAt(s, c) && Legal(s, actions)
    ensures AnsweredAt(RunFrom(s, actions), c)
    decreases |actions|
  {
    hide Inv, AnsweredAt, RecvStep, CloseStep, DoAddCall, CanReceive, CanClose;
    if actions != [] {
      var a := actions[0];
      StepInv(s, a);
      match a {
        case AddCall(d) => AddedAnswered(s, d, c);
        case Recv(m) => RecvAnswered(s, m, c);
        case Close(m) => CloseAnswered(s, m, c);
        case _ => CallerAnswered(s, a, c);
      }
      RunAnswered(Step(s, a), actions[1..], c);
    }
  }

  /** In every run a call that returned with its response has given its stream back, be the connection
      open or closed. */
  lemma AnsweredGivesBack(numStreams: nat, deadline: bool, actions: seq<Action>, c: nat)
    requires Legal(Init(numStreams, deadline), actions)
    ensures var s := RunFrom(Init(numStreams, deadline), actions);
      c in s.calls && s.calls[c].pc.Done? && Frame(c) in s.calls[c].got ==> s.calls[c].releases == 1
  {
    hide Step, Enabled;
    assert Inv(Init(numStreams, deadline));
    RunInv(Init(numStreams, deadline), actions);
    RunAnswered(Init(numStreams, deadline), actions, c);
    var s := RunFrom(Init(numStreams, deadline), actions);
    if c in s.calls {
      CallIs(s, c);
    }
  }

  // ---------------------------------------------------------------- who a close tells

  /** In every run the first close, made while the connection lives, takes every call that still waits
      to be told anything, except the one whose answer the receiver is just handing over. */
  lemma CloseTakesAll(numStreams: nat, deadline: bool, actions: seq<Action>, c: nat)
    requires Legal(Init(numStreams, deadline), actions)
    requires var s := RunFrom(Init(numStreams, deadline), actions); Live(s) && c in s.calls
    ensures var s := RunFrom(Init(numStreams, deadline), actions);
      Obliged(s.calls[c].pc) && !Held(s.recv, c) ==> InTodo(StartClose(s), c)
  {
    hide Step, Enabled, Legal, RunFrom, StreamsOk, ServerOk;
    Reached(numStreams, deadline, actions);
    StreamsComeBack(numStreams, deadline, actions, c);
    var s := RunFrom(Init(numStreams, deadline), actions);
    assert CallOk(s, c);
  }

  // ---------------------------------------------------------------- how a stream comes back

  lemma RecvIs(s: State, m: RecvMove)
    requires CanReceive(s, m)
    ensures Enabled(s, Recv(m)) && Step(s, Recv(m)) == RecvStep(s, m)
  {
    hide CanReceive, RecvStep, CanClose, CloseStep, CanSocket, DoAddCall, Moved, ReleaseStream, StartClose;
  }

  lemma OwnIs(s: State, c: nat, m: Move)
    requires c in s.calls && CanMove(s.calls[c].pc, m) && c !in s.stalled
    ensures Enabled(s, Own(c, m)) && Step(s, Own(c, m)) == s.Set(c, Moved(s.calls[c], m, s.IsClosed()))
  {
    hide CanReceive, RecvStep, CanClose, CloseStep, CanSocket, DoAddCall, CanMove, Moved, ReleaseStream, StartClose;
  }

  /** Steps a caller can take by itself before it has returned or means to close the connection. */
  function OwnRank(pc: Pc): nat {
    match pc
    case Adding => 4
    case Building => 3
    case Writing => 3
    case Written => 3
    case Got(_) => 3
    case Waiting => 2
    case Dropping => 2
    case GotErr => 2
    case Leaving => 1
    case Releasing => 1
    case _ => 0
  }

  /** One such step: nothing is built or written any more, and nobody waits for an answer. */
  function OwnNext(c: nat, pc: Pc): Action {
    match pc
    case Adding => AddCall(c)
    case Building => Own(c, BuildFails)
    case Writing => Own(c, WriteCancelled)
    case Written => Own(c, WriteOk)
    case Got(_) => Own(c, CloseTimeout)
    case Waiting => Own(c, GiveUp)
    case Dropping => Drop(c)
    case GotErr => Own(c, CheckClosed)
    case Leaving => Own(c, Leave)
    case _ => Release(c)
  }

  /** A live connection with nobody stalled, on which call c still has its stream or has returned it. */
  predicate Has(s: State, c: nat) {
    Live(s) && s.stalled == {} && c in s.calls && s.calls[c].stream > 0 && s.calls[c].releases <= 1
  }

  /** Call c came nearer to its end, and nothing happened at the server or the receiver. */
  predicate OwnNearer(s: State, t: State, c: nat) {
    && Has(t, c) && c in s.calls && OwnRank(t.calls[c].pc) < OwnRank(s.calls[c].pc) && !t.calls[c].pc.Closing?
    && t.pending == s.pending && t.wire == s.wire && t.recv == s.recv
  }

  lemma OwnMoveNearer(s: State, c: nat, m: Move)
    requires Has(s, c) && Owns(s.calls[c]) && OwnNext(c, s.calls[c].pc) == Own(c, m) && OwnRank(s.calls[c].pc) > 0
    ensures Enabled(s, Own(c, m)) && OwnNearer(s, Step(s, Own(c, m)), c)
  {
    hide Step, Enabled;
    var k := Moved(s.calls[c], m, s.IsClosed());
    assert k.stream == s.calls[c].stream && k.releases == s.calls[c].releases;
    assert OwnRank(k.pc) < OwnRank(s.calls[c].pc) && !k.pc.Closing?;
    OwnIs(s, c, m);
    hide OwnRank, OwnNext, Moved;
  }

  lemma AddingNearer(s: State, c: nat)
    requires Inv(s) && Has(s, c) && Owns(s.calls[c]) && s.calls[c].pc.Adding?
    ensures Enabled(s, AddCall(c)) && OwnNearer(s, Step(s, AddCall(c)), c)
  {
    AddCallInv(s, c);
    hide Inv;
  }

  lemma DropNearer(s: State, c: nat)
    requires Has(s, c) && Owns(s.calls[c]) && s.calls[c].pc.Dropping?
    ensures Enabled(s, Drop(c)) && OwnNearer(s, Step(s, Drop(c)), c)
  {
  }

  lemma ReleaseNearer(s: State, c: nat)
    requires Has(s, c) && Owns(s.calls[c]) && s.calls[c].pc.Releasing?
    ensures Enabled(s, Release(c)) && OwnNearer(s, Step(s, Release(c)), c)
  {
  }

  lemma OwnNextStep(s: State, c: nat)
    requires Inv(s) && Has(s, c) && Owns(s.calls[c]) && OwnRank(s.calls[c].pc) > 0
    ensures var a := OwnNext(c, s.calls[c].pc); Enabled(s, a) && OwnNearer(s, Step(s, a), c)
  {
    hide Inv, OwnNearer, Step, Enabled;
    var a := OwnNext(c, s.calls[c].pc);
    match a
    case Own(_, m) => OwnMoveNearer(s, c, m);
    case AddCall(_) => AddingNearer(s, c);
    case Drop(_) => DropNearer(s, c);
    case Release(_) => ReleaseNearer(s, c);
  }

  function IndexOf(xs: seq<nat>, x: nat): (i: nat)
    requires x in xs
    ensures i < |xs| && xs[i] == x
  {
    if xs[0] == x then 0 else 1 + IndexOf(xs[1..], x)
  }

  /** Steps until the receiver reads the next header. */
  function RecvLeft(calls: map<nat, Call>, recv: Receiver): nat {
    match recv
    case Looked(_) => 6
    case Holding(_, _) => 5
    case Offering(r, _) =>
      if r !in calls then 2 else if calls[r].pc.Written? then 4
      else if calls[r].pc.Waiting? || calls[r].pc.Leaving? then 3 else 2
    case Freeing(_) => 1
    case _ => 0
  }

  /** Steps until the receiver has c's answer, counted from its next header. */
  function Ahead(wire: seq<nat>, recv: Receiver, c: nat): nat {
    if Held(recv, c) || recv == Looked(c) then 0
    else if c in wire then 7 * (IndexOf(wire, c) + 1)
    else 7 * (|wire| + 1) + 1
  }

  function Dist(s: State, c: nat): nat {
    RecvLeft(s.calls, s.recv) + Ahead(s.wire, s.recv, c)
  }

  /** What brings the answer to call c nearer. */
  function HelpNext(s: State, c: nat): Action {
    match s.recv
    case Looked(_) => Recv(Lookup)
    case Holding(_, r) => Recv(ReadBody(Frame(r)))
    case Offering(r, _) =>
      if At(s, r, Waiting) then Recv(Deliver)
      else if At(s, r, Written) then Own(r, WriteOk)
      else if At(s, r, Leaving) then Own(r, Leave)
      else Recv(SeeTimeout)
    case Freeing(_) => Recv(Free)
    case _ => if c in s.pending then Answer(c) else Recv(ReadHeader)
  }

  predicate Gone(pc: Pc) {
    pc.Done? || pc.Closing?
  }

  predicate Coming(s: State, c: nat) {
    AtServer(s, c) || Held(s.recv, c)
  }

  /** Either the stream is back, or its answer is nearer. */
  predicate Nearer(s: State, t: State, c: nat) {
    && Has(t, c) && c in s.calls && t.calls[c].pc == s.calls[c].pc
    && (Owns(t.calls[c]) ==> Coming(t, c) && Dist(t, c) < Dist(s, c))
  }

  predicate Waits(s: State, c: nat) {
    Has(s, c) && Owns(s.calls[c]) && Gone(s.calls[c].pc) && Coming(s, c)
  }

  lemma {:induction false} IndexLast(xs: seq<nat>, x: nat)
    requires x !in xs
    ensures IndexOf(xs + [x], x) == |xs|
  {
    if xs != [] {
      IndexLast(xs[1..], x);
      assert (xs + [x])[1..] == xs[1..] + [x];
    }
  }

  lemma AnswerNearer(s: State, c: nat)
    requires Inv(s) && Waits(s, c) && s.recv.Reading? && c in s.pending
    ensures Nearer(s, Step(s, Answer(c)), c)
  {
    assert c !in s.wire;
    var t := s.(pending := s.pending - {c}, wire := s.wire + [c]);
    assert Step(s, Answer(c)) == t;
    hide Inv, Step, IndexOf;
    IndexLast(s.wire, c);
  }

  /** The next header is the answer, or one of those before it. */
  lemma HeaderAhead(wire: seq<nat>, recv: Receiver, c: nat)
    requires recv.Reading? && c in wire
    ensures wire[0] != c ==> c in wire[1..]
    ensures 6 + Ahead(wire[1..], Looked(wire[0]), c) < Ahead(wire, recv, c)
  {
    if wire[0] != c {
      assert wire == [wire[0]] + wire[1..];
      assert IndexOf(wire, c) == 1 + IndexOf(wire[1..], c);
    }
  }

  lemma HeaderNearer(s: State, c: nat)
    requires Inv(s) && Waits(s, c) && s.recv.Reading? && c !in s.pending
    ensures Enabled(s, Recv(ReadHeader)) && Nearer(s, Step(s, Recv(ReadHeader)), c)
  {
    hide Inv, Step, Enabled, Ahead, DoLookup, ReleaseStream, StartClose, Receive;
    RecvIs(s, ReadHeader);
    HeaderAhead(s.wire, s.recv, c);
    assert RecvStep(s, ReadHeader) == s.(recv := Looked(s.wire[0]), wire := s.wire[1..]);
  }

  /** Only the receiver moves on, with the same answer in hand. */
  lemma ReceiverNearer(s: State, t: State, c: nat)
    requires Waits(s, c) && t.calls == s.calls && t.pending == s.pending && t.wire == s.wire
    requires SameSocket(s, t) && t.ctxDone == s.ctxDone
    requires Held(t.recv, c) == (Held(s.recv, c) || s.recv == Looked(c))
    requires !t.recv.Failed? && !t.recv.Stopped? && !t.recv.Looked?
    requires RecvLeft(t.calls, t.recv) < RecvLeft(s.calls, s.recv)
    ensures Nearer(s, t, c)
  {
    hide IndexOf, RecvLeft;
  }

  lemma LookedNearer(s: State, c: nat)
    requires Inv(s) && Waits(s, c) && s.recv.Looked?
    ensures Nearer(s, Step(s, Recv(Lookup)), c)
  {
    hide Inv, Ahead, Nearer, Step, Enabled, DoLookup;
    LookupOpenInv(s);
    RecvIs(s, Lookup);
    ReceiverNearer(s, DoLookup(s), c);
  }

  /** The caller whose answer the receiver offers can be told, or has given up, or is about to be either. */
  lemma OfferedTo(s: State)
    requires Inv(s) && Live(s) && s.recv.Offering?
    ensures s.recv.call in s.calls
    ensures var k := s.calls[s.recv.call]; k.pc.Written? || k.pc.Waiting? || k.pc.Leaving? || k.timeout
    ensures var k := s.calls[s.recv.call]; k.timeout ==> !k.pc.Written? && !k.pc.Waiting? && !k.pc.Leaving?
  {
    hide StreamsOk, TableOk, ServerOk;
    assert CallOk(s, s.recv.call);
  }

  /** The caller the receiver waits for takes a step. */
  lemma OtherNearer(s: State, r: nat, k: Call, c: nat)
    requires Waits(s, c) && s.recv.Offering? && s.recv.call == r && r != c && r in s.calls
    requires RecvLeft(s.calls[r := k], s.recv) < RecvLeft(s.calls, s.recv)
    ensures Nearer(s, s.Set(r, k), c)
  {
    hide Ahead, RecvLeft;
  }

  lemma DeliverNearer(s: State, c: nat)
    requires Waits(s, c) && CanReceive(s, Deliver)
    ensures Nearer(s, Step(s, Recv(Deliver)), c)
  {
    var r := s.recv.call;
    hide Step, Enabled, IndexOf, DoLookup, ReleaseStream, StartClose;
    RecvIs(s, Deliver);
    var k := s.calls[r].(pc := Got(s.recv.msg), got := s.calls[r].got + [s.recv.msg]);
    assert RecvStep(s, Deliver) == s.Set(r, k).(recv := Reading);
  }

  lemma WrittenNearer(s: State, c: nat)
    requires Waits(s, c) && s.recv.Offering? && At(s, s.recv.call, Written)
    ensures var a := Own(s.recv.call, WriteOk); Enabled(s, a) && Nearer(s, Step(s, a), c)
  {
    hide Nearer, Ahead, Step, Enabled;
    OwnIs(s, s.recv.call, WriteOk);
    OtherNearer(s, s.recv.call, s.calls[s.recv.call].(pc := Waiting), c);
  }

  lemma LeavingNearer(s: State, c: nat)
    requires Waits(s, c) && s.recv.Offering? && At(s, s.recv.call, Leaving)
    ensures var a := Own(s.recv.call, Leave); Enabled(s, a) && Nearer(s, Step(s, a), c)
  {
    hide Nearer, Ahead, Step, Enabled;
    OwnIs(s, s.recv.call, Leave);
    OtherNearer(s, s.recv.call, s.calls[s.recv.call].(pc := Done, timeout := true), c);
  }

  lemma TimedOutNearer(s: State, c: nat)
    requires Waits(s, c) && CanReceive(s, SeeTimeout) && RecvLeft(s.calls, s.recv) == 2
    ensures Nearer(s, Step(s, Recv(SeeTimeout)), c)
  {
    hide Nearer, Ahead, Step, Enabled;
    RecvIs(s, SeeTimeout);
    ReceiverNearer(s, s.(recv := Freeing(s.recv.call)), c);
  }

  lemma OfferingNearer(s: State, c: nat)
    requires Inv(s) && Waits(s, c) && s.recv.Offering?
    ensures Enabled(s, HelpNext(s, c)) && Nearer(s, Step(s, HelpNext(s, c)), c)
  {
    OfferedTo(s);
    hide Inv, Nearer, Waits, Step, Enabled, RecvStep;
    var k := s.calls[s.recv.call];
    if k.pc.Waiting? {
      DeliverNearer(s, c);
      RecvIs(s, Deliver);
    } else if k.pc.Written? {
      WrittenNearer(s, c);
    } else if k.pc.Leaving? {
      LeavingNearer(s, c);
    } else {
      TimedOutNearer(s, c);
      RecvIs(s, SeeTimeout);
    }
  }

  lemma FreedIs(s: State)
    requires s.recv.Freeing? && s.recv.call in s.calls
    ensures var t, k := RecvStep(s, Free), s.calls[s.recv.call];
      && t.calls == s.calls[s.recv.call := k.(releases := k.releases + 1)] && t.recv.Reading?
      && t.pending == s.pending && t.wire == s.wire && t.ctxDone == s.ctxDone && SameSocket(s, t)
  {
    hide DoLookup, StartClose, Receive;
  }

  lemma FreeNearer(s: State, c: nat)
    requires Inv(s) && Waits(s, c) && s.recv.Freeing?
    ensures Enabled(s, Recv(Free)) && Nearer(s, Step(s, Recv(Free)), c)
  {
    assert RecvOk(s);
    hide Inv, Step, Enabled, IndexOf, DoLookup, StartClose, Receive;
    RecvIs(s, Free);
    FreedIs(s);
    hide RecvStep;
  }

  lemma HoldingNearer(s: State, c: nat)
    requires Waits(s, c) && s.recv.Holding?
    ensures var a := Recv(ReadBody(Frame(s.recv.request))); Enabled(s, a) && Nearer(s, Step(s, a), c)
  {
    hide Ahead, Nearer, Step, Enabled;
    RecvIs(s, ReadBody(Frame(s.recv.request)));
    ReceiverNearer(s, s.(recv := Offering(s.recv.call, Frame(s.recv.request))), c);
  }

  lemma HelpNearer(s: State, c: nat)
    requires Inv(s) && Waits(s, c)
    ensures Enabled(s, HelpNext(s, c)) && Nearer(s, Step(s, HelpNext(s, c)), c)
  {
    hide Inv, Nearer, Ahead, Step;
    match s.recv
    case Reading =>
      if c in s.pending {
        AnswerNearer(s, c);
      } else {
        HeaderNearer(s, c);
      }
    case Looked(_) => LookedNearer(s, c);
    case Holding(_, _) => HoldingNearer(s, c);
    case Offering(_, _) => OfferingNearer(s, c);
    case Freeing(_) => FreeNearer(s, c);
  }

  /** The connection still lives and call c has given its stream back. */
  predicate Frees(s: State, c: nat, actions: seq<Action>) {
    && Legal(s, actions) && Live(RunFrom(s, actions))
    && c in RunFrom(s, actions).calls && RunFrom(s, actions).calls[c].releases == 1
  }

  lemma FreesAfter(s: State, c: nat, a: Action, rest: seq<Action>)
    requires Enabled(s, a) && Frees(Step(s, a), c, rest)
    ensures Frees(s, c, [a] + rest)
  {
    hide Step, Enabled, Live;
    assert ([a] + rest)[1..] == rest;
  }

  lemma {:induction false} ComesBack(s: State, c: nat) returns (actions: seq<Action>)
    requires Inv(s) && Has(s, c) && Returns(s, c) && (s.calls[c].pc.Closing? && Owns(s.calls[c]) ==> Coming(s, c))
    ensures Frees(s, c, actions)
    decreases OwnRank(s.calls[c].pc), if Owns(s.calls[c]) then 1 + Dist(s, c) else 0
  {
    hide Inv, Step, Enabled, Frees, Dist, OwnRank;
    if !Owns(s.calls[c]) {
      actions := [];
      assert Frees(s, c, []) by { FreedAlready(s, c); }
    } else {
      var a := if OwnRank(s.calls[c].pc) > 0 then OwnNext(c, s.calls[c].pc) else HelpNext(s, c);
      if OwnRank(s.calls[c].pc) > 0 {
        OwnNextStep(s, c);
      } else {
        NoRank(s, c);
        HelpNearer(s, c);
      }
      StepInv(s, a);
      StepReturns(s, a, c);
      var rest := ComesBack(Step(s, a), c);
      FreesAfter(s, c, a, rest);
      actions := [a] + rest;
    }
  }

  lemma FreedAlready(s: State, c: nat)
    requires Has(s, c) && !Owns(s.calls[c])
    ensures Frees(s, c, [])
  {
  }

  lemma NoRank(s: State, c: nat)
    requires Inv(s) && Has(s, c) && Returns(s, c) && OwnRank(s.calls[c].pc) == 0 && Owns(s.calls[c])
    requires s.calls[c].pc.Closing? ==> Coming(s, c)
    ensures Waits(s, c)
  {
    hide StreamsOk, TableOk, ServerOk, RecvOk, Placed;
    assert CallOk(s, c);
  }

  lemma LiveRecv(s: State, m: RecvMove)
    requires CanReceive(s, m) && Live(RecvStep(s, m))
    ensures Live(s)
  {
    match m
    case ReadHeader =>
    case Lookup =>
    case ReadBody(_) =>
    case Deliver =>
    case SeeTimeout =>
    case SeeDone =>
    case Free =>
    case ReadFails =>
    case BodyFails =>
    case ReceiverCloses =>
  }

  lemma CloseEnds(s: State, m: CloseMove)
    requires CanClose(s, m)
    ensures !Live(CloseStep(s, m))
  {
  }

  lemma LiveOther(s: State, a: Action)
    requires Enabled(s, a) && !a.Recv? && !a.Close?
    ensures Live(Step(s, a)) == Live(s)
  {
    hide RecvStep, CloseStep, CanReceive, CanClose, CanSocket, CanMove, Moved;
    match a
    case Exec(_) =>
    case GetStream(_, _) =>
    case AddCall(_) =>
    case Own(_, _) =>
    case Send(_) =>
    case Release(_) =>
    case Drop(_) =>
    case Answer(_) =>
    case Socket(_) =>
  }

  lemma LiveStep(s: State, a: Action)
    requires Enabled(s, a) && Live(Step(s, a))
    ensures Live(s)
  {
    hide Live, RecvStep, CloseStep, DoAddCall, CanReceive, CanClose, CanSocket, Moved, ReleaseStream;
    match a
    case Recv(m) => LiveRecv(s, m);
    case Close(m) => CloseEnds(s, m);
    case _ => LiveOther(s, a);
  }

  lemma {:induction false} LiveBefore(s: State, actions: seq<Action>)
    requires Legal(s, actions) && Live(RunFrom(s, actions))
    ensures Live(s)
    decreases |actions|
  {
    hide Step, Enabled, Live;
    if actions != [] {
      LiveBefore(Step(s, actions[0]), actions[1..]);
      LiveStep(s, actions[0]);
    }
  }

  /** The write failed before anything was sent: only closing the connection is left. */
  predicate Doomed(s: State, c: nat) {
    c in s.calls && s.calls[c].pc.Closing? && Owns(s.calls[c]) && !Coming(s, c)
  }

  lemma DoomedLookup(s: State, c: nat)
    requires Inv(s) && Doomed(s, c) && CanReceive(s, Lookup) && Live(RecvStep(s, Lookup))
    ensures Doomed(RecvStep(s, Lookup), c)
  {
    if !s.IsClosed() {
      LookupOpenInv(s);
    }
    hide Inv;
  }

  lemma DoomedRecv(s: State, c: nat, m: RecvMove)
    requires Doomed(s, c) && CanReceive(s, m) && !m.Lookup? && Live(RecvStep(s, m))
    ensures Doomed(RecvStep(s, m), c)
  {
    hide DoLookup, StartClose;
    match m
    case ReadHeader => assert s.wire == [s.wire[0]] + s.wire[1..];
    case ReadBody(_) =>
    case Deliver =>
    case SeeTimeout =>
    case SeeDone =>
    case Free =>
    case ReadFails =>
    case BodyFails =>
    case ReceiverCloses =>
  }

  lemma DoomedOther(s: State, c: nat, a: Action)
    requires Doomed(s, c) && Enabled(s, a) && !a.Recv? && !a.Close? && !a.AddCall? && Live(Step(s, a))
    ensures Doomed(Step(s, a), c)
  {
    hide RecvStep, CloseStep, DoAddCall, CanReceive, CanClose, CanSocket;
    match a
    case Exec(_) =>
    case GetStream(_, _) =>
    case Own(_, _) =>
    case Send(_) =>
    case Release(_) =>
    case Drop(_) =>
    case Answer(_) =>
    case Socket(_) =>
  }

  lemma DoomedAdd(s: State, c: nat, d: nat)
    requires Doomed(s, c) && Enabled(s, AddCall(d)) && Live(Step(s, AddCall(d)))
    ensures Doomed(Step(s, AddCall(d)), c)
  {
    hide RecvStep, CloseStep, CanReceive, CanClose, CanSocket;
  }

  lemma DoomedStays(s: State, c: nat, a: Action)
    requires Inv(s) && Doomed(s, c) && Enabled(s, a) && Live(Step(s, a))
    ensures Doomed(Step(s, a), c)
  {
    hide Inv, Doomed, Live, RecvStep, CloseStep, DoAddCall, CanReceive, CanClose, CanSocket;
    match a
    case Recv(m) =>
      if m.Lookup? {
        DoomedLookup(s, c);
      } else {
        DoomedRecv(s, c, m);
      }
    case Close(m) => CloseEnds(s, m);
    case AddCall(d) => DoomedAdd(s, c, d);
    case _ => DoomedOther(s, c, a);
  }

  lemma {:induction false} DoomedForGood(s: State, c: nat, actions: seq<Action>)
    requires Inv(s) && Doomed(s, c) && Legal(s, actions) && Live(RunFrom(s, actions))
    ensures Doomed(RunFrom(s, actions), c)
    decreases |actions|
  {
    hide Inv, Step, Enabled, Doomed, Live;
    if actions != [] {
      var a := actions[0];
      LiveBefore(Step(s, a), actions[1..]);
      DoomedStays(s, c, a);
      StepInv(s, a);
      DoomedForGood(Step(s, a), c, actions[1..]);
    }
  }

  /** In every run, while the connection lives, a stream that is out can come back without closing it
      if and only if its caller is not left to close it, having failed to send anything. */
  lemma ComesBackIff(numStreams: nat, deadline: bool, actions: seq<Action>, c: nat)
    requires Legal(Init(numStreams, deadline), actions)
    requires var s := RunFrom(Init(numStreams, deadline), actions); Live(s) && c in s.calls && Owns(s.calls[c])
    ensures var s := RunFrom(Init(numStreams, deadline), actions);
      (exists more :: Frees(s, c, more)) <==> !(s.calls[c].pc.Closing? && !AtServer(s, c) && !Held(s.recv, c))
  {
    hide Inv, Step, Enabled, Legal, RunFrom, Live;
    Reached(numStreams, deadline, actions);
    StreamsComeBack(numStreams, deadline, actions, c);
    var s := RunFrom(Init(numStreams, deadline), actions);
    if Doomed(s, c) {
      forall more
        ensures !Frees(s, c, more)
      {
        if Legal(s, more) && Live(RunFrom(s, more)) {
          DoomedForGood(s, c, more);
        }
      }
    } else {
      var more := ComesBackOnceRead(s, c);
    }
  }

  lemma ComesBackOnceRead(s: State, c: nat) returns (actions: seq<Action>)
    requires Inv(s) && Live(s) && c in s.calls && Owns(s.calls[c]) && Returns(s, c) && !Doomed(s, c)
    ensures Frees(s, c, actions)
  {
    hide Inv, RecvStep, CloseStep, DoAddCall, CanReceive, CanClose;
    StepInv(s, Socket(Resume));
    StepReturns(s, Socket(Resume), c);
    var t := s.(stalled := {});
    assert Step(s, Socket(Resume)) == t;
    hide Step;
    var rest := ComesBack(t, c);
    FreesAfter(s, c, Socket(Resume), rest);
    actions := [Socket(Resume)] + rest;
  }
}
