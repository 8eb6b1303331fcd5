// When closeWithError ends. It notifies every registered call before it closes the socket
// (conn.go:570-587), so a write that only the closed socket could end keeps it from closing it.
module MultiplexerClose {
  import opened Multiplexer
  import opened MultiplexerInv
  import opened MultiplexerRuns

  // ---------------------------------------------------------------- stalled writes

  predicate BeforeServer(pc: Pc) {
    pc.Building? || pc.Writing?
  }

  /** Every stalled caller is in a write. */
  predicate StalledWrite(s: State) {
    forall c :: c in s.stalled ==> At(s, c, Writing) || At(s, c, Written)
  }

  /** Somebody's bytes are not all through while anybody is stalled. */
  ghost predicate OneBehind(s: State) {
    s.stalled != {} ==> exists w :: w in s.stalled && At(s, w, Writing)
  }

  /** Whoever has not written yet is among the calls to notify. */
  predicate UnwrittenToNotify(s: State) {
    s.closer.Notifying? ==> forall c :: c in s.calls && BeforeServer(s.calls[c].pc) ==> c in s.closer.todo
  }

  ghost predicate StallOk(s: State) {
    && (s.deadline || s.closer.Closed? ==> s.stalled == {})
    && StalledWrite(s) && OneBehind(s) && UnwrittenToNotify(s)
  }

  lemma SameCalls(s: State, t: State)
    requires StallOk(s) && SameSocket(s, t) && t.calls == s.calls
    ensures StallOk(t)
  {
    if t.stalled != {} {
      var w :| w in s.stalled && At(s, w, Writing);
      assert At(t, w, Writing);
    }
  }

  /** One caller moves, who is in no stalled write and comes no nearer to writing. */
  lemma OneMoves(s: State, t: State, c: nat, k: Call)
    requires StallOk(s) && SameSocket(s, t) && t.calls == s.calls[c := k] && c !in s.stalled
    requires BeforeServer(k.pc) && s.closer.Notifying? ==> c in s.calls && BeforeServer(s.calls[c].pc)
    ensures StallOk(t)
  {
    if t.stalled != {} {
      var w :| w in s.stalled && At(s, w, Writing);
      assert At(t, w, Writing);
    }
  }

  lemma NotStalled(s: State, c: nat)
    requires StallOk(s) && (c in s.calls ==> !s.calls[c].pc.Writing? && !s.calls[c].pc.Written?)
    ensures c !in s.stalled
  {
  }

  lemma OwnStall(s: State, c: nat, m: Move)
    requires StallOk(s) && Enabled(s, Own(c, m))
    ensures StallOk(Step(s, Own(c, m)))
  {
    hide StallOk;
    if !EndsWrite(m) {
      NotStalled(s, c);
    }
    OneMoves(s, Step(s, Own(c, m)), c, Moved(s.calls[c], m, s.IsClosed()));
  }

  lemma SendStall(s: State, c: nat)
    requires StallOk(s) && Enabled(s, Send(c))
    ensures StallOk(Step(s, Send(c)))
  {
    hide StallOk;
    OneMoves(s, Step(s, Send(c)), c, s.calls[c].(pc := Written));
  }

  lemma AddCallStall(s: State, c: nat)
    requires StallOk(s) && Enabled(s, AddCall(c))
    ensures StallOk(Step(s, AddCall(c)))
  {
    hide StallOk, DoAddCall;
    NotStalled(s, c);
    OneMoves(s, DoAddCall(s, c), c, s.calls[c].(pc := AddedPc(s, s.calls[c].stream)));
  }

  lemma ExecStall(s: State, c: nat)
    requires StallOk(s) && Enabled(s, Exec(c))
    ensures StallOk(Step(s, Exec(c)))
  {
    hide StallOk;
    NotStalled(s, c);
    OneMoves(s, Step(s, Exec(c)), c, Call(Start, 0, false, [], 0));
  }

  lemma GetStreamStall(s: State, c: nat, stream: nat)
    requires StallOk(s) && Enabled(s, GetStream(c, stream))
    ensures StallOk(Step(s, GetStream(c, stream)))
  {
    hide StallOk;
    NotStalled(s, c);
    OneMoves(s, Step(s, GetStream(c, stream)), c, s.calls[c].(pc := Adding, stream := stream));
  }

  lemma ReleaseStall(s: State, c: nat)
    requires StallOk(s) && Enabled(s, Release(c))
    ensures StallOk(Step(s, Release(c)))
  {
    hide StallOk;
    NotStalled(s, c);
    OneMoves(s, Step(s, Release(c)), c, s.calls[c].(pc := Done, releases := s.calls[c].releases + 1));
  }

  lemma DropStall(s: State, c: nat)
    requires StallOk(s) && Enabled(s, Drop(c))
    ensures StallOk(Step(s, Drop(c)))
  {
    hide StallOk;
    NotStalled(s, c);
    OneMoves(s, Step(s, Drop(c)), c, s.calls[c].(pc := Releasing));
  }

  lemma RecvStall(s: State, m: RecvMove)
    requires StallOk(s) && CanReceive(s, m) && !m.ReceiverCloses?
    ensures StallOk(RecvStep(s, m))
  {
    hide StallOk;
    match m
    case ReadHeader => SameCalls(s, RecvStep(s, m));
    case ReadFails => SameCalls(s, RecvStep(s, m));
    case Lookup => LookupStall(s);
    case ReadBody(_) => SameCalls(s, RecvStep(s, m));
    case BodyFails => SameCalls(s, RecvStep(s, m));
    case Deliver => DeliverStall(s);
    case SeeTimeout => SameCalls(s, RecvStep(s, m));
    case SeeDone => SameCalls(s, RecvStep(s, m));
    case Free => FreeStall(s);
  }

  lemma LookupStall(s: State)
    requires StallOk(s) && CanReceive(s, Lookup)
    ensures StallOk(RecvStep(s, Lookup))
  {
    hide StallOk, DoLookup;
    SameCalls(s, RecvStep(s, Lookup));
  }

  lemma DeliverStall(s: State)
    requires StallOk(s) && CanReceive(s, Deliver)
    ensures StallOk(RecvStep(s, Deliver))
  {
    hide StallOk;
    var k := s.calls[s.recv.call];
    NotStalled(s, s.recv.call);
    OneMoves(s, RecvStep(s, Deliver), s.recv.call, k.(pc := Got(s.recv.msg), got := k.got + [s.recv.msg]));
  }

  /** A late response frees the stream of a caller wherever that caller is. */
  lemma FreeStall(s: State)
    requires StallOk(s) && CanReceive(s, Free)
    ensures StallOk(RecvStep(s, Free))
  {
    var t := RecvStep(s, Free);
    var c := s.recv.call;
    assert t.calls == s.calls[c := t.calls[c]] && t.calls[c].pc == s.calls[c].pc;
    if t.stalled != {} {
      var w :| w in s.stalled && At(s, w, Writing);
      assert At(t, w, Writing);
    }
  }

  /** Closing takes every call that has not written yet. */
  lemma StartCloseStall(s: State)
    requires Inv(s) && StallOk(s)
    ensures StallOk(StartClose(s))
  {
    var t := StartClose(s);
    if !s.IsClosed() {
      forall c | c in t.calls && BeforeServer(t.calls[c].pc)
        ensures c in t.closer.todo
      {
        assert CallOk(s, c);
      }
      if t.stalled != {} {
        var w :| w in s.stalled && At(s, w, Writing);
        assert At(t, w, Writing);
      }
    }
  }

  /** A call that was notified or had given up was in no write and is not on its way to one. */
  lemma TodoStall(s: State, t: State, c: nat)
    requires StallOk(s) && InTodo(s, c) && c in s.calls && !BeforeServer(s.calls[c].pc)
    requires t.deadline == s.deadline && t.stalled == s.stalled && t.closer == Notifying(s.closer.todo - {c})
    requires t.calls.Keys == s.calls.Keys
    requires forall d :: d in s.calls && d != c ==> t.calls[d] == s.calls[d]
    requires t.calls[c] == s.calls[c] || (t.calls[c].pc.Got? && s.calls[c].pc.Waiting?)
    ensures StallOk(t)
  {
    if t.stalled != {} {
      var w :| w in s.stalled && At(s, w, Writing);
      assert At(t, w, Writing);
    }
  }

  /** Only callers whose `timeout` is open are before the server. */
  lemma TimedOutIsPast(s: State, c: nat)
    requires Inv(s) && c in s.calls && s.calls[c].timeout
    ensures !BeforeServer(s.calls[c].pc)
  {
    assert CallOk(s, c);
  }

  lemma CallerClosesStall(s: State, c: nat)
    requires Inv(s) && StallOk(s) && CanClose(s, CallerCloses(c))
    ensures StallOk(CloseStep(s, CallerCloses(c)))
  {
    hide Inv, StartClose;
    StartCloseStall(s);
    NotStalled(StartClose(s), c);
    OneMoves(StartClose(s), CloseStep(s, CallerCloses(c)), c, s.calls[c].(pc := Done));
  }

  lemma CloseNilStall(s: State)
    requires StallOk(s)
    ensures StallOk(CloseStep(s, CloseNil))
  {
    var t := CloseStep(s, CloseNil);
    if t.stalled != {} {
      var w :| w in s.stalled && At(s, w, Writing);
      assert At(t, w, Writing);
    }
  }

  lemma CancelStall(s: State)
    requires StallOk(s) && CanClose(s, Cancel)
    ensures StallOk(CloseStep(s, Cancel))
  {
  }

  lemma CloseStall(s: State, m: CloseMove)
    requires Inv(s) && StallOk(s) && CanClose(s, m)
    ensures StallOk(CloseStep(s, m))
  {
    hide Inv, StartClose, StallOk;
    match m
    case CallerCloses(c) => CallerClosesStall(s, c);
    case OtherCloses => StartCloseStall(s);
    case CloseNil => CloseNilStall(s);
    case Notify(c) => TodoStall(s, CloseStep(s, m), c);
    case Skip(c) =>
      TimedOutIsPast(s, c);
      TodoStall(s, CloseStep(s, m), c);
    case Cancel => CancelStall(s);
    case ParentCancelled => SameCalls(s, CloseStep(s, m));
  }

  lemma SocketStall(s: State, m: SocketMove)
    requires StallOk(s) && CanSocket(s, m)
    ensures StallOk(Step(s, Socket(m)))
  {
    var t := Step(s, Socket(m));
    if m.Stall? {
      if At(s, m.c, Writing) {
        assert m.c in t.stalled && At(t, m.c, Writing);
      } else {
        var w :| w in s.stalled && At(s, w, Writing);
        assert w in t.stalled && At(t, w, Writing);
      }
    }
  }

  lemma ReceiverClosesStall(s: State)
    requires Inv(s) && StallOk(s) && CanReceive(s, ReceiverCloses)
    ensures StallOk(RecvStep(s, ReceiverCloses))
  {
    hide Inv, StartClose;
    StartCloseStall(s);
    SameCalls(StartClose(s), RecvStep(s, ReceiverCloses));
  }

  lemma StepStall(s: State, a: Action)
    requires Inv(s) && StallOk(s) && Enabled(s, a)
    ensures StallOk(Step(s, a))
  {
    hide Inv, StallOk;
    match a
    case AddCall(c) => AddCallStall(s, c);
    case Own(c, m) => OwnStall(s, c, m);
    case Send(c) => SendStall(s, c);
    case Answer(_) => SameCalls(s, Step(s, a));
    case Recv(m) =>
      if m.ReceiverCloses? {
        ReceiverClosesStall(s);
      } else {
        RecvStall(s, m);
      }
    case Close(m) => CloseStall(s, m);
    case Socket(m) => SocketStall(s, m);
    case Exec(c) => ExecStall(s, c);
    case GetStream(c, stream) => GetStreamStall(s, c, stream);
    case Release(c) => ReleaseStall(s, c);
    case Drop(c) => DropStall(s, c);
  }

  lemma {:induction false} RunStall(s: State, actions: seq<Action>)
    requires Inv(s) && StallOk(s) && Legal(s, actions)
    ensures Inv(RunFrom(s, actions)) && StallOk(RunFrom(s, actions))
    decreases |actions|
  {
    hide Inv, StallOk, Step, Enabled;
    if actions != [] {
      StepInv(s, actions[0]);
      StepStall(s, actions[0]);
      RunStall(Step(s, actions[0]), actions[1..]);
    }
  }

  lemma InitStall(numStreams: nat, deadline: bool)
    ensures Inv(Init(numStreams, deadline)) && StallOk(Init(numStreams, deadline))
  {
  }

  lemma ReachedStall(numStreams: nat, deadline: bool, actions: seq<Action>)
    requires Legal(Init(numStreams, deadline), actions)
    ensures var s := RunFrom(Init(numStreams, deadline), actions); Inv(s) && StallOk(s)
  {
    hide Inv, StallOk;
    InitStall(numStreams, deadline);
    RunStall(Init(numStreams, deadline), actions);
  }

  // ---------------------------------------------------------------- one call to notify

  /** If nobody left to notify is stalled, nobody at all is. */
  lemma NobodyStalled(s: State)
    requires StallOk(s) && s.closer.Notifying? && s.closer.todo !! s.stalled
    ensures s.stalled == {}
  {
  }

  /** The closer can notify or skip a call now, or the caller has a step of its own to take first. */
  lemma CloserOrCallerCanStep(s: State, c: nat)
    requires Inv(s) && InTodo(s, c) && s.stalled == {}
    ensures c in s.calls
    ensures || Enabled(s, Close(Notify(c)))
            || Enabled(s, Close(Skip(c)))
            || (Obliged(s.calls[c].pc) && !s.calls[c].pc.Waiting? && Enabled(s, NextOf(c, s.calls[c].pc)))
  {
    hide StreamsOk, TableOk, ServerOk, RecvOk;
    assert CallOk(s, c);
  }

  lemma CloserMoves(s: State, c: nat, m: CloseMove)
    requires InTodo(s, c) && (m == Notify(c) || m == Skip(c)) && Enabled(s, Close(m))
    ensures Step(s, Close(m)).closer == Notifying(s.closer.todo - {c}) && Step(s, Close(m)).stalled == s.stalled
  {
    hide RecvStep, DoAddCall;
  }

  lemma OwnEffect(s: State, c: nat, m: Move)
    requires c in s.calls && CanMove(s.calls[c].pc, m) && c !in s.stalled
    ensures Enabled(s, Own(c, m)) && Step(s, Own(c, m)) == s.Set(c, Moved(s.calls[c], m, s.IsClosed()))
  {
    hide RecvStep, CloseStep, DoAddCall;
  }

  lemma SendEffect(s: State, c: nat)
    requires At(s, c, Writing) && s.stalled == {}
    ensures Enabled(s, Send(c)) && Step(s, Send(c)) == s.(pending := s.pending + {c}).Set(c, s.calls[c].(pc := Written))
  {
    hide RecvStep, CloseStep, DoAddCall;
  }

  lemma MoveRank(k: Call, m: Move, closed: bool)
    requires CanMove(k.pc, m) && (m.BuildOk? || m.WriteOk? || m.Leave?)
    ensures Rank(Moved(k, m, closed).pc) < Rank(k.pc)
  {
  }

  /** The step brings the caller closer without touching the closer or the socket. */
  predicate Nearer(s: State, t: State, c: nat)
    requires c in s.calls
  {
    t.closer == s.closer && t.stalled == s.stalled && c in t.calls && Rank(t.calls[c].pc) < Rank(s.calls[c].pc)
  }

  lemma NextOwn(s: State, c: nat, m: Move)
    requires c in s.calls && CanMove(s.calls[c].pc, m) && c !in s.stalled && (m.BuildOk? || m.WriteOk? || m.Leave?)
    ensures Enabled(s, Own(c, m)) && Nearer(s, Step(s, Own(c, m)), c)
  {
    hide Step, Enabled, Moved;
    OwnEffect(s, c, m);
    MoveRank(s.calls[c], m, s.IsClosed());
  }

  lemma NextSend(s: State, c: nat)
    requires At(s, c, Writing) && s.stalled == {}
    ensures Enabled(s, Send(c)) && Nearer(s, Step(s, Send(c)), c)
  {
    hide Step, Enabled;
    SendEffect(s, c);
  }

  lemma NextEffect(s: State, c: nat)
    requires c in s.calls && Obliged(s.calls[c].pc) && !s.calls[c].pc.Waiting? && s.stalled == {}
    ensures var a := NextOf(c, s.calls[c].pc); Enabled(s, a) && !a.Socket? && Nearer(s, Step(s, a), c)
  {
    hide Step, Enabled, Moved, Nearer;
    match s.calls[c].pc
    case Building => NextOwn(s, c, BuildOk);
    case Writing => NextSend(s, c);
    case Written => NextOwn(s, c, WriteOk);
    case Leaving => NextOwn(s, c, Leave);
  }

  /** Without help from the peer. */
  predicate NoResume(actions: seq<Action>) {
    Socket(Resume) !in actions
  }

  /** Lets one caller run until the closer is done with it. */
  lemma {:induction false} NotifyOne(s: State, c: nat) returns (actions: seq<Action>)
    requires Inv(s) && InTodo(s, c) && c in s.calls && s.stalled == {}
    ensures Legal(s, actions) && NoResume(actions)
    ensures RunFrom(s, actions).closer == Notifying(s.closer.todo - {c}) && RunFrom(s, actions).stalled == {}
    decreases Rank(s.calls[c].pc)
  {
    hide Inv, Step, Enabled;
    CloserOrCallerCanStep(s, c);
    if Enabled(s, Close(Notify(c))) {
      actions := [Close(Notify(c))];
      OneAction(s, Close(Notify(c)));
      CloserMoves(s, c, Notify(c));
    } else if Enabled(s, Close(Skip(c))) {
      actions := [Close(Skip(c))];
      OneAction(s, Close(Skip(c)));
      CloserMoves(s, c, Skip(c));
    } else {
      var a := NextOf(c, s.calls[c].pc);
      StepInv(s, a);
      NextEffect(s, c);
      var rest := NotifyOne(Step(s, a), c);
      actions := [a] + rest;
      assert actions[1..] == rest;
    }
  }

  lemma OneAction(s: State, a: Action)
    requires Enabled(s, a)
    ensures Legal(s, [a]) && RunFrom(s, [a]) == Step(s, a)
  {
    assert [a][1..] == [];
    assert Legal(Step(s, a), []);
  }

  lemma {:induction false} Joined(s: State, xs: seq<Action>, ys: seq<Action>)
    requires Legal(s, xs) && Legal(RunFrom(s, xs), ys)
    ensures Legal(s, xs + ys) && RunFrom(s, xs + ys) == RunFrom(RunFrom(s, xs), ys)
    decreases |xs|
  {
    hide Step, Enabled;
    if xs == [] {
      assert xs + ys == ys;
    } else {
      Joined(Step(s, xs[0]), xs[1..], ys);
      assert (xs + ys)[1..] == xs[1..] + ys;
    }
  }

  // ---------------------------------------------------------------- the whole close

  /** Lets every caller run until all are notified, then the socket is closed. */
  lemma {:induction false} NotifyAll(s: State) returns (actions: seq<Action>)
    requires Inv(s) && s.closer.Notifying? && s.stalled == {}
    ensures Finishes(s, actions) && RunFrom(s, actions).ctxDone
    decreases s.closer.todo
  {
    hide Inv, RecvStep, DoAddCall;
    if s.closer.todo == {} {
      actions := [Close(Cancel)];
      OneAction(s, Close(Cancel));
    } else {
      var c :| c in s.closer.todo;
      CloserOrCallerCanStep(s, c);
      var first := NotifyOne(s, c);
      RunInv(s, first);
      var rest := NotifyAll(RunFrom(s, first));
      actions := first + rest;
      Joined(s, first, rest);
    }
  }

  /** A continuation in which the close ends although the peer does not read. */
  ghost predicate Finishes(s: State, actions: seq<Action>) {
    Legal(s, actions) && NoResume(actions) && RunFrom(s, actions).closer.Closed?
  }

  /** The closer waits for a call whose write waits for the socket the closer is to close. */
  predicate Stuck(s: State, c: nat) {
    InTodo(s, c) && c in s.stalled && c in s.calls && !s.calls[c].timeout
    && (s.calls[c].pc.Writing? || s.calls[c].pc.Written?)
  }

  lemma StuckStays(s: State, c: nat, a: Action)
    requires Stuck(s, c) && Enabled(s, a) && a != Socket(Resume)
    ensures Stuck(Step(s, a), c)
  {
    hide DoAddCall, DoLookup;
    match a
    case Exec(_) =>
    case GetStream(_, _) =>
    case AddCall(_) =>
    case Own(_, m) =>
    case Send(_) =>
    case Release(_) =>
    case Drop(_) =>
    case Answer(_) =>
    case Recv(m) => StuckInRecv(s, c, m);
    case Close(m) => StuckInClose(s, c, m);
    case Socket(_) =>
  }

  lemma StuckInRecv(s: State, c: nat, m: RecvMove)
    requires Stuck(s, c) && CanReceive(s, m)
    ensures Stuck(RecvStep(s, m), c)
  {
    hide DoLookup;
    match m
    case ReadHeader =>
    case ReadFails =>
    case Lookup =>
    case ReadBody(_) =>
    case BodyFails =>
    case Deliver =>
    case SeeTimeout =>
    case SeeDone =>
    case Free =>
    case ReceiverCloses =>
  }

  lemma StuckInClose(s: State, c: nat, m: CloseMove)
    requires Stuck(s, c) && CanClose(s, m)
    ensures Stuck(CloseStep(s, m), c)
  {
    match m
    case CallerCloses(_) =>
    case OtherCloses =>
    case CloseNil =>
    case Notify(_) =>
    case Skip(_) =>
    case Cancel =>
    case ParentCancelled =>
  }

  lemma {:induction false} StuckForGood(s: State, c: nat, actions: seq<Action>)
    requires Stuck(s, c) && Legal(s, actions) && NoResume(actions)
    ensures Stuck(RunFrom(s, actions), c) && !RunFrom(s, actions).closer.Closed?
    decreases |actions|
  {
    hide Step, Enabled;
    if actions != [] {
      StuckStays(s, c, actions[0]);
      StuckForGood(Step(s, actions[0]), c, actions[1..]);
    }
  }

  lemma StalledIsStuck(s: State, c: nat)
    requires Inv(s) && StallOk(s) && InTodo(s, c) && c in s.stalled
    ensures Stuck(s, c)
  {
    hide StreamsOk, TableOk, ServerOk, RecvOk;
    assert CallOk(s, c);
  }

  lemma FinishesIffNotStalled(s: State)
    requires Inv(s) && StallOk(s) && s.closer.Notifying?
    ensures (exists actions :: Finishes(s, actions)) <==> s.closer.todo !! s.stalled
  {
    hide Inv, Step, Enabled;
    if s.closer.todo !! s.stalled {
      NobodyStalled(s);
      var actions := NotifyAll(s);
      assert Finishes(s, actions);
    } else {
      var c :| c in s.closer.todo && c in s.stalled;
      StalledIsStuck(s, c);
      forall actions | Legal(s, actions) && NoResume(actions)
        ensures !Finishes(s, actions)
      {
        StuckForGood(s, c, actions);
      }
    }
  }

  /** In every run, while it notifies calls, closeWithError can come to its end without the peer
      reading on exactly when no call left to notify is in a stalled write. */
  lemma CloseFinishesIff(numStreams: nat, deadline: bool, actions: seq<Action>)
    requires Legal(Init(numStreams, deadline), actions)
    requires RunFrom(Init(numStreams, deadline), actions).closer.Notifying?
    ensures var s := RunFrom(Init(numStreams, deadline), actions);
      (exists more :: Finishes(s, more)) <==> s.closer.todo !! s.stalled
  {
    hide Inv, StallOk, Step, Enabled;
    ReachedStall(numStreams, deadline, actions);
    FinishesIffNotStalled(RunFrom(Init(numStreams, deadline), actions));
  }

  /** With a write deadline no run comes to such a state: every close can be run to its end. */
  lemma CloseFinishesWithDeadline(numStreams: nat, actions: seq<Action>) returns (more: seq<Action>)
    requires Legal(Init(numStreams, true), actions) && RunFrom(Init(numStreams, true), actions).closer.Notifying?
    ensures Finishes(RunFrom(Init(numStreams, true), actions), more)
  {
    hide Inv, Step, Enabled;
    ReachedStall(numStreams, true, actions);
    InitStall(numStreams, true);
    RunInv(Init(numStreams, true), actions);
    more := NotifyAll(RunFrom(Init(numStreams, true), actions));
  }

  /** Without one, a peer that reads again lets any close end. */
  lemma CloseFinishesOnceRead(s: State) returns (actions: seq<Action>)
    requires Inv(s) && s.closer.Notifying?
    ensures Legal(s, actions) && RunFrom(s, actions).closer.Closed?
  {
    hide Inv, RecvStep, CloseStep, DoAddCall;
    var t := Step(s, Socket(Resume));
    StepInv(s, Socket(Resume));
    var rest := NotifyAll(t);
    actions := [Socket(Resume)] + rest;
    assert actions[1..] == rest;
  }

  const STALLED_RUN :=
    [Exec(0), GetStream(0, 1), AddCall(0), Own(0, BuildOk), Socket(Stall(0)), Close(OtherCloses)]

  /** A run without a deadline that comes to it: the write stalls, somebody closes, and whatever
      the driver then does it never closes the socket. */
  lemma StalledCloseHangs(more: seq<Action>)
    requires Legal(Init(2, false), STALLED_RUN + more) && NoResume(more)
    ensures !RunFrom(Init(2, false), STALLED_RUN + more).closer.Closed?
  {
    hide Step, Enabled;
    StalledRun();
    Parts(Init(2, false), STALLED_RUN, more);
    StuckForGood(AfterStall(), 0, more);
  }

  lemma {:induction false} Parts(s: State, xs: seq<Action>, ys: seq<Action>)
    requires Legal(s, xs + ys) && Legal(s, xs)
    ensures Legal(RunFrom(s, xs), ys) && RunFrom(s, xs + ys) == RunFrom(RunFrom(s, xs), ys)
    decreases |xs|
  {
    hide Step, Enabled;
    if xs == [] {
      assert xs + ys == ys;
    } else {
      assert (xs + ys)[1..] == xs[1..] + ys;
      Parts(Step(s, xs[0]), xs[1..], ys);
    }
  }

  /** The only call of the run, at a place. */
  function Only(pc: Pc, stream: nat): State {
    Init(2, false).(calls := map[0 := Call(pc, stream, false, [], 0)],
                    used := if stream == 0 then {0} else {0, 1},
                    holder := if stream == 0 then map[] else map[1 := 0])
  }

  function AfterStall(): State {
    Only(Writing, 1).(closer := Notifying({0}), stalled := {0})
  }

  lemma FirstSteps()
    ensures Enabled(Init(2, false), Exec(0)) && Step(Init(2, false), Exec(0)) == Only(Start, 0)
    ensures Enabled(Only(Start, 0), GetStream(0, 1)) && Step(Only(Start, 0), GetStream(0, 1)) == Only(Adding, 1)
  {
  }

  lemma AddStep()
    ensures var s := Only(Adding, 1);
      Enabled(s, AddCall(0)) && Step(s, AddCall(0)) == Only(Building, 1).(table := map[1 := 0])
  {
  }

  lemma LastSteps()
    ensures var s := Only(Building, 1).(table := map[1 := 0]);
      Enabled(s, Own(0, BuildOk)) && Step(s, Own(0, BuildOk)) == Only(Writing, 1).(table := map[1 := 0])
    ensures var s := Only(Writing, 1).(table := map[1 := 0]);
      Enabled(s, Socket(Stall(0))) && Step(s, Socket(Stall(0))) == s.(stalled := {0})
  {
  }

  lemma CloseAtStall()
    ensures var s := Only(Writing, 1).(table := map[1 := 0], stalled := {0});
      Enabled(s, Close(OtherCloses)) && Step(s, Close(OtherCloses)) == AfterStall()
  {
    var s := Only(Writing, 1).(table := map[1 := 0], stalled := {0});
    var todo := set stream | stream in s.table :: s.table[stream];
    assert 1 in s.table && s.table[1] == 0;
    assert todo == {0};
  }

  lemma FirstOf(s: State, a: Action, more: seq<Action>)
    requires Enabled(s, a) && Legal(Step(s, a), more)
    ensures Legal(s, [a] + more) && RunFrom(s, [a] + more) == RunFrom(Step(s, a), more)
  {
    assert ([a] + more)[1..] == more;
  }

  lemma StalledRun()
    ensures Legal(Init(2, false), STALLED_RUN) && RunFrom(Init(2, false), STALLED_RUN) == AfterStall()
    ensures Stuck(AfterStall(), 0)
  {
    hide Step, Enabled, Only, Legal, RunFrom, Stuck;
    FirstSteps();
    AddStep();
    LastSteps();
    CloseAtStall();
    var close := [Close(OtherCloses)];
    var added := Only(Building, 1).(table := map[1 := 0]);
    var writing := Only(Writing, 1).(table := map[1 := 0]);
    OneAction(writing.(stalled := {0}), Close(OtherCloses));
    FirstOf(writing, Socket(Stall(0)), close);
    FirstOf(added, Own(0, BuildOk), [Socket(Stall(0))] + close);
    FirstOf(Only(Adding, 1), AddCall(0), [Own(0, BuildOk)] + ([Socket(Stall(0))] + close));
    var rest := [AddCall(0)] + ([Own(0, BuildOk)] + ([Socket(Stall(0))] + close));
    FirstOf(Only(Start, 0), GetStream(0, 1), rest);
    FirstOf(Init(2, false), Exec(0), [GetStream(0, 1)] + rest);
    assert STALLED_RUN == [Exec(0)] + ([GetStream(0, 1)] + rest);
    StuckAfter();
  }

  lemma StuckAfter()
    ensures Stuck(AfterStall(), 0)
  {
  }
}
