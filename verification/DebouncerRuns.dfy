// What every run of the debouncer keeps: no refresh request is lost, and no listener is answered twice.
module DebouncerRuns {
  import opened Common
  import opened Debouncer

  predicate Legal(s: State, actions: seq<Action>)
    decreases |actions|
  {
    actions == [] || (Enabled(s, actions[0]) && Legal(Step(s, actions[0]), actions[1..]))
  }

  function RunFrom(s: State, actions: seq<Action>): State
    requires Legal(s, actions)
    decreases |actions|
  {
    if actions == [] then s else RunFrom(Step(s, actions[0]), actions[1..])
  }

  lemma {:induction false} RunInv(s: State, actions: seq<Action>)
    requires Inv(s) && Legal(s, actions)
    ensures Inv(RunFrom(s, actions))
    decreases |actions|
  {
    hide Inv, Step, Enabled;
    if actions != [] {
      StepInv(s, actions[0]);
      RunInv(Step(s, actions[0]), actions[1..]);
    }
  }

  /** In every run each listener gets at most one error and at most one close, and its error comes
      from a refresh that began after it registered. */
  lemma AnsweredAtMostOnce(actions: seq<Action>, i: nat)
    requires Legal(Init, actions) && i < |RunFrom(Init, actions).listeners|
    ensures var l := RunFrom(Init, actions).listeners[i];
      l.closes <= 1 && |l.errors| <= 1 && forall k :: k in l.errors ==> l.since < k <= RunFrom(Init, actions).begun
  {
    hide Step, Enabled;
    assert Inv(Init);
    RunInv(Init, actions);
    assert Placed(RunFrom(Init, actions), i);
  }

  /** Once the flusher has exited, exactly the listeners that registered before its final critical
      section have been closed. */
  lemma ClosedIffRegisteredInTime(actions: seq<Action>, i: nat)
    requires Legal(Init, actions) && i < |RunFrom(Init, actions).listeners| && RunFrom(Init, actions).pc.Exited?
    ensures var l := RunFrom(Init, actions).listeners[i];
      (l.closes == 1 <==> !l.late) && (l.late ==> l.closes == 0 && l.errors == [])
  {
    hide Step, Enabled;
    assert Inv(Init);
    RunInv(Init, actions);
    assert Placed(RunFrom(Init, actions), i);
  }

  const LATE_RUN := [Stop, CloseQuit, Flusher(WakeQuit), Flusher(Enter), RefreshNow]

  const AfterLateRun :=
    State(true, false, true, true, false, false, Some([0]), Exited, [], false, 0, [Listener(0, true, [], 0)])

  /** refreshNow does not look at `stopped`, so a listener can come too late. */
  lemma LateRun()
    ensures Legal(Init, LATE_RUN) && RunFrom(Init, LATE_RUN) == AfterLateRun
  {
    var s1 := Step(Init, Stop);
    var s2 := Step(s1, CloseQuit);
    var s3 := Step(s2, Flusher(WakeQuit));
    var s4 := Step(s3, Flusher(Enter));
    assert s4.listeners == [] && Waiting(s4) == [];
    assert Waiting(s4) + [0] == [0];
    assert Register(s4).listeners == [Listener(0, true, [], 0)] && Register(s4).broadcaster == Some([0]);
    assert Step(s4, RefreshNow) == AfterLateRun;
    var r := LATE_RUN;
    assert r[1..][1..][1..][1..][1..] == [];
    assert Legal(AfterLateRun, []) && Legal(s4, r[1..][1..][1..][1..]) && Legal(s3, r[1..][1..][1..]);
    assert Legal(s2, r[1..][1..]) && Legal(s1, r[1..]);
  }

  lemma {:induction false} Parts(s: State, xs: seq<Action>, ys: seq<Action>)
    requires Legal(s, xs + ys) && Legal(s, xs)
    ensures Legal(RunFrom(s, xs), ys) && RunFrom(s, xs + ys) == RunFrom(RunFrom(s, xs), ys)
    decreases |xs|
  {
    hide Step, Enabled;
    if xs == [] {
      assert xs + ys == ys;
    } else {
      assert (xs + ys)[1..] == xs[1..] + ys;
      Parts(Step(s, xs[0]), xs[1..], ys);
    }
  }

  /** Whatever happens afterwards, a late listener gets neither an error nor a close. */
  lemma {:induction false} LateForGood(s: State, actions: seq<Action>, i: nat)
    requires Inv(s) && Legal(s, actions) && i < |s.listeners| && s.listeners[i].late
    ensures var t := RunFrom(s, actions); i < |t.listeners| && t.listeners[i].late
    ensures RunFrom(s, actions).listeners[i].closes == 0 && RunFrom(s, actions).listeners[i].errors == []
    decreases |actions|
  {
    hide Inv, Step, Enabled, Distance;
    LateIsOpen(s, i);
    if actions != [] {
      StepInv(s, actions[0]);
      StepCloser(s, actions[0], i);
      LateForGood(Step(s, actions[0]), actions[1..], i);
    }
  }

  lemma LateIsOpen(s: State, i: nat)
    requires Inv(s) && i < |s.listeners| && s.listeners[i].late
    ensures s.listeners[i].closes == 0 && s.listeners[i].errors == []
  {
    assert Placed(s, i);
  }

  lemma LateListenerWaitsForever(more: seq<Action>)
    requires Legal(Init, LATE_RUN + more)
    ensures var t := RunFrom(Init, LATE_RUN + more);
      |t.listeners| > 0 && t.listeners[0].late && t.listeners[0].closes == 0 && t.listeners[0].errors == []
  {
    hide Step, Enabled;
    LateRun();
    Parts(Init, LATE_RUN, more);
    assert Inv(Init);
    RunInv(Init, LATE_RUN);
    hide Inv;
    LateForGood(AfterLateRun, more, 0);
  }

  // ---------------------------------------------------------------- how far a listener is from its answer

  function IndexOf(xs: seq<nat>, x: nat): (r: nat)
    requires x in xs
    ensures r < |xs| && xs[r] == x
  {
    if xs[0] == x then 0 else 1 + IndexOf(xs[1..], x)
  }

  lemma {:induction false} IndexOfPrefix(xs: seq<nat>, ys: seq<nat>, x: nat)
    requires x in xs
    ensures IndexOf(xs + ys, x) == IndexOf(xs, x)
  {
    if xs[0] != x {
      assert (xs + ys)[1..] == xs[1..] + ys;
      IndexOfPrefix(xs[1..], ys, x);
    }
  }

  /** Registered in time and not closed yet. */
  predicate Open(s: State, i: nat) {
    i < |s.listeners| && s.listeners[i].closes == 0 && !s.listeners[i].late
  }

  /** Flusher steps before it is back at its select. */
  function ToSelect(s: State): int {
    match s.pc
    case Taken => 2 + 2 * |s.held|
    case Refreshing => 1 + 2 * |s.held|
    case Answering => 2 * |s.held| - (if s.sent then 1 else 0)
    case Select => 0
    case Woken => -1
    case Exited => 0
  }

  /** Flusher steps before listener i is closed, when the flusher is not stopped first. */
  function Distance(s: State, i: nat): int {
    if i in Waiting(s) then ToSelect(s) + 2 * IndexOf(Waiting(s), i) + 6
    else if i in s.held then ToSelect(s) - 2 * (|s.held| - 1 - IndexOf(s.held, i))
    else 0
  }

  lemma OpenIsPlaced(s: State, i: nat)
    requires Inv(s) && Open(s, i)
    ensures Distance(s, i) > 0 && !s.pc.Exited? && (i in Waiting(s) || i in s.held)
  {
    assert Placed(s, i);
  }

  /** A waiting listener never leaves the flusher with nothing to do: no wakeup is lost. */
  lemma FlusherCanMove(s: State, i: nat)
    requires Inv(s) && Open(s, i)
    ensures exists m :: CanMove(s, m)
  {
    OpenIsPlaced(s, i);
    match s.pc
    case Select => assert CanMove(s, WakeToken);
    case Woken => assert CanMove(s, Enter);
    case Taken => assert CanMove(s, Begin);
    case Refreshing => assert CanMove(s, Finish);
    case Answering => assert s.held[0] in s.held; assert CanMove(s, Send) || CanMove(s, Close);
    case Exited =>
  }

  lemma SendCloser(s: State, i: nat)
    requires Inv(s) && CanMove(s, Send) && Open(s, i)
    ensures Open(MoveStep(s, Send), i) ==> Distance(MoveStep(s, Send), i) < Distance(s, i)
  {
    hide IndexOf;
    OpenIsPlaced(s, i);
  }

  lemma CloseCloser(s: State, i: nat)
    requires Inv(s) && CanMove(s, Close) && Open(s, i)
    ensures Open(MoveStep(s, Close), i) ==> Distance(MoveStep(s, Close), i) < Distance(s, i)
  {
    OpenIsPlaced(s, i);
    assert Placed(s, s.held[0]);
  }

  lemma EnterCloser(s: State, i: nat)
    requires Inv(s) && CanMove(s, Enter) && Open(s, i)
    ensures Open(MoveStep(s, Enter), i) ==> Distance(MoveStep(s, Enter), i) < Distance(s, i)
  {
    hide IndexOf;
    OpenIsPlaced(s, i);
  }

  lemma MoveCloser(s: State, m: Move, i: nat)
    requires Inv(s) && CanMove(s, m) && Open(s, i)
    ensures Open(MoveStep(s, m), i) ==> Distance(MoveStep(s, m), i) < Distance(s, i)
  {
    hide IndexOf, Inv;
    OpenIsPlaced(s, i);
    match m
    case WakeToken =>
    case WakeTimer =>
    case WakeQuit =>
    case Enter => EnterCloser(s, i);
    case Begin =>
    case Finish =>
    case Send => SendCloser(s, i);
    case Close => CloseCloser(s, i);
  }

  lemma RegisterKeepsDistance(s: State, i: nat)
    requires Inv(s) && Open(s, i)
    ensures Open(Register(s), i) && Distance(Register(s), i) == Distance(s, i)
  {
    hide Inv, IndexOf;
    OpenIsPlaced(s, i);
    var t := Register(s);
    assert Waiting(t) == Waiting(s) + [|s.listeners|];
    assert i in Waiting(t) <==> i in Waiting(s);
    hide Register;
    if i in Waiting(s) {
      IndexOfPrefix(Waiting(s), [|s.listeners|], i);
    }
  }

  lemma OthersKeepDistance(s: State, a: Action, i: nat)
    requires Inv(s) && Enabled(s, a) && !a.Flusher? && Open(s, i)
    ensures Open(Step(s, a), i) && Distance(Step(s, a), i) == Distance(s, i)
  {
    hide Register;
    match a
    case Debounce(_) =>
    case Tick =>
    case RefreshNow => RegisterKeepsDistance(s, i);
    case Stop =>
    case CloseQuit =>
  }

  function FlusherSteps(actions: seq<Action>): nat {
    if actions == [] then 0 else (if actions[0].Flusher? then 1 else 0) + FlusherSteps(actions[1..])
  }

  lemma MoveKeepsListener(s: State, m: Move, i: nat)
    requires Inv(s) && CanMove(s, m) && i < |s.listeners|
    ensures var t := MoveStep(s, m); i < |t.listeners| && t.listeners[i].late == s.listeners[i].late
    ensures s.listeners[i].closes == 1 ==> MoveStep(s, m).listeners[i] == s.listeners[i]
  {
    assert Placed(s, i);
    match m
    case WakeToken =>
    case WakeTimer =>
    case WakeQuit =>
    case Enter =>
    case Begin =>
    case Finish =>
    case Send =>
    case Close =>
  }

  lemma StepCloser(s: State, a: Action, i: nat)
    requires Inv(s) && Enabled(s, a) && i < |s.listeners|
    ensures i < |Step(s, a).listeners| && Step(s, a).listeners[i].late == s.listeners[i].late
    ensures s.listeners[i].closes == 1 ==> Step(s, a).listeners[i] == s.listeners[i]
    ensures var t := Step(s, a);
      Open(s, i) && Open(t, i) ==> Distance(t, i) <= Distance(s, i) - if a.Flusher? then 1 else 0
  {
    hide Inv, MoveStep, CanMove, Distance, Register;
    match a
    case Flusher(m) =>
      MoveKeepsListener(s, m, i);
      if Open(s, i) {
        MoveCloser(s, m, i);
      }
    case RefreshNow =>
      assert Register(s).listeners[..|s.listeners|] == s.listeners by { RegisterAppends(s); }
      if Open(s, i) {
        OthersKeepDistance(s, a, i);
      }
    case _ =>
      if Open(s, i) {
        OthersKeepDistance(s, a, i);
      }
  }

  lemma RegisterAppends(s: State)
    ensures |Register(s).listeners| == |s.listeners| + 1 && Register(s).listeners[..|s.listeners|] == s.listeners
  {
  }

  /** Whatever the other goroutines do, once the flusher has made `Distance` more steps the
      listener has been closed; and by FlusherCanMove it is never short of a step to make. */
  lemma {:induction false} AnsweredWithin(s: State, actions: seq<Action>, i: nat)
    requires Inv(s) && Legal(s, actions) && i < |s.listeners| && !s.listeners[i].late
    requires Open(s, i) ==> FlusherSteps(actions) >= Distance(s, i)
    ensures var t := RunFrom(s, actions); i < |t.listeners| && t.listeners[i].closes == 1
    decreases |actions|
  {
    hide Inv, Step, Enabled, Distance;
    if actions == [] {
      if Open(s, i) {
        OpenIsPlaced(s, i);
      } else {
        ClosedOnce(s, i);
      }
    } else {
      var a := actions[0];
      StepInv(s, a);
      StepCloser(s, a, i);
      ClosedOnce(s, i);
      AnsweredWithin(Step(s, a), actions[1..], i);
    }
  }

  lemma ClosedOnce(s: State, i: nat)
    requires Inv(s) && i < |s.listeners|
    ensures s.listeners[i].closes <= 1
  {
    assert Placed(s, i);
  }

  // ---------------------------------------------------------------- debounced requests

  /** A request is waiting for the timer, or the flusher is already awake. */
  predicate Requested(s: State) {
    s.armed || s.fired || s.pc.Woken?
  }

  /** Or it has taken the requests and is about to refresh. */
  predicate Heard(s: State) {
    Requested(s) || s.pc.Taken?
  }

  /** A debounced request stays until the flusher starts a refresh for it or has exited. */
  lemma DebounceNotLost(s: State, a: Action)
    requires Inv(s) && Enabled(s, a) && Heard(s)
    ensures Heard(Step(s, a)) || Step(s, a).begun == s.begun + 1 || Step(s, a).pc.Exited?
  {
    match a
    case Flusher(m) =>
      match m {
        case WakeToken =>
        case WakeTimer =>
        case WakeQuit =>
        case Enter =>
        case Begin =>
        case Finish =>
        case Send =>
        case Close =>
      }
    case Debounce(_) =>
    case Tick =>
    case RefreshNow =>
    case Stop =>
    case CloseQuit =>
  }

  /** Refreshes are only ever added, and after its exit the flusher starts none. */
  lemma BegunGrows(s: State, a: Action)
    requires Enabled(s, a)
    ensures s.begun <= Step(s, a).begun <= s.begun + 1
    ensures s.pc.Exited? ==> Step(s, a).pc.Exited?
  {
    hide MoveStep, Register;
    match a
    case Flusher(m) => MoveBegun(s, m);
    case Debounce(_) =>
    case Tick =>
    case RefreshNow => RegisterBegun(s);
    case Stop =>
    case CloseQuit =>
  }

  lemma RegisterBegun(s: State)
    ensures Register(s).begun == s.begun && Register(s).pc == s.pc
  {
  }

  lemma MoveBegun(s: State, m: Move)
    requires CanMove(s, m)
    ensures !s.pc.Exited? && MoveStep(s, m).begun == s.begun + if m.Begin? then 1 else 0
  {
    match m
    case WakeToken =>
    case WakeTimer =>
    case WakeQuit =>
    case Enter =>
    case Begin =>
    case Finish =>
    case Send =>
    case Close =>
  }

  lemma {:induction false} RunGrows(s: State, actions: seq<Action>)
    requires Legal(s, actions)
    ensures RunFrom(s, actions).begun >= s.begun && (s.pc.Exited? ==> RunFrom(s, actions).pc.Exited?)
    decreases |actions|
  {
    hide Step, Enabled;
    if actions != [] {
      BegunGrows(s, actions[0]);
      RunGrows(Step(s, actions[0]), actions[1..]);
    }
  }

  lemma {:induction false} HeardUntilRefresh(s: State, actions: seq<Action>)
    requires Inv(s) && Legal(s, actions) && Heard(s)
    ensures var t := RunFrom(s, actions); Heard(t) || t.begun > s.begun || t.pc.Exited?
    decreases |actions|
  {
    hide Inv, Step, Enabled, Heard;
    if actions != [] {
      var a := actions[0];
      StepInv(s, a);
      DebounceNotLost(s, a);
      BegunGrows(s, a);
      RunGrows(Step(s, a), actions[1..]);
      if Heard(Step(s, a)) {
        HeardUntilRefresh(Step(s, a), actions[1..]);
      }
    }
  }

  /** In every run, a request made while the debouncer is not stopped waits for the timer or the
      flusher until a refresh begins after it, or the flusher has exited. */
  lemma DebouncedUntilRefresh(before: seq<Action>, drops: bool, after: seq<Action>)
    requires Legal(Init, before) && !RunFrom(Init, before).stopped
    requires Legal(Step(RunFrom(Init, before), Debounce(drops)), after)
    ensures var s := RunFrom(Init, before);
      var t := RunFrom(Step(s, Debounce(drops)), after);
      Heard(t) || t.begun > s.begun || t.pc.Exited?
  {
    hide MoveStep, Register;
    assert Inv(Init);
    RunInv(Init, before);
    var s := RunFrom(Init, before);
    hide Inv;
    StepInv(s, Debounce(drops));
    HeardUntilRefresh(Step(s, Debounce(drops)), after);
  }

  /** Flusher steps before the next refresh begins, once something wakes the flusher. */
  function ToBegin(s: State): int {
    if s.pc.Exited? then 0 else if s.pc.Taken? then 1 else ToSelect(s) + 3
  }

  /** Once the timer has fired the flusher always has a step to make. */
  lemma FiredCanMove(s: State)
    requires Inv(s) && s.fired && !s.pc.Exited?
    ensures exists m :: CanMove(s, m)
  {
    match s.pc
    case Select => assert CanMove(s, WakeTimer);
    case Woken => assert CanMove(s, Enter);
    case Taken => assert CanMove(s, Begin);
    case Refreshing => assert CanMove(s, Finish);
    case Answering => assert s.held[0] in s.held; assert CanMove(s, Send) || CanMove(s, Close);
  }

  lemma NearerToBegin(s: State, a: Action)
    requires Inv(s) && Enabled(s, a)
    ensures var t := Step(s, a);
      t.begun > s.begun || t.pc.Exited? || ToBegin(t) <= ToBegin(s) - if a.Flusher? then 1 else 0
  {
    hide Placed, CloseAll, NoRepeat;
    match a
    case Flusher(m) =>
      match m {
        case WakeToken =>
        case WakeTimer =>
        case WakeQuit =>
        case Enter =>
        case Begin =>
        case Finish =>
        case Send =>
        case Close =>
      }
    case Debounce(_) =>
    case Tick =>
    case RefreshNow =>
    case Stop =>
    case CloseQuit =>
  }

  lemma StillToBegin(s: State)
    requires Inv(s) && ToBegin(s) <= 0
    ensures s.pc.Exited?
  {
  }

  /** In every run a refresh begins, or the flusher exits, within a known number of flusher steps. */
  lemma {:induction false} RefreshWithin(s: State, actions: seq<Action>)
    requires Inv(s) && Legal(s, actions) && FlusherSteps(actions) >= ToBegin(s)
    ensures RunFrom(s, actions).begun > s.begun || RunFrom(s, actions).pc.Exited?
    decreases |actions|
  {
    hide Inv, Step, Enabled, ToBegin;
    if actions == [] {
      StillToBegin(s);
    } else {
      var a := actions[0];
      StepInv(s, a);
      NearerToBegin(s, a);
      BegunGrows(s, a);
      RunGrows(Step(s, a), actions[1..]);
      if Step(s, a).begun <= s.begun && !Step(s, a).pc.Exited? {
        RefreshWithin(Step(s, a), actions[1..]);
      }
    }
  }

  /** Nothing asks for a refresh and nobody stops the debouncer. */
  predicate Quiet(s: State) {
    !s.token && !s.armed && !s.fired && !s.stopped && !s.quit && !s.pc.Woken?
  }

  /** One refresh covers every request made before it: taking them clears both wakeups, and the
      flusher then stays at its select until someone asks again. */
  lemma OneRefreshForAll(s: State, a: Action)
    requires Enabled(s, a)
    ensures a == Flusher(Enter) && !s.stopped && !s.quit ==> Quiet(Step(s, a))
    ensures Quiet(s) && !a.Debounce? && !a.RefreshNow? && !a.Stop? && !a.CloseQuit? ==> Quiet(Step(s, a))
    ensures Quiet(s) && s.pc.Select? ==> forall m :: !CanMove(s, m)
  {
    match a
    case Flusher(m) =>
      match m {
        case WakeToken =>
        case WakeTimer =>
        case WakeQuit =>
        case Enter =>
        case Begin =>
        case Finish =>
        case Send =>
        case Close =>
      }
    case _ =>
  }

  predicate Asks(a: Action) {
    a.Debounce? || a.RefreshNow? || a.Stop? || a.CloseQuit?
  }

  /** After the flusher took the requests, at most the one refresh for all of them begins until
      somebody asks again. */
  lemma {:induction false} OneRefreshPerAsking(s: State, actions: seq<Action>)
    requires Legal(s, actions) && Quiet(s) && forall a :: a in actions ==> !Asks(a)
    ensures RunFrom(s, actions).begun <= s.begun + if s.pc.Taken? then 1 else 0
    decreases |actions|
  {
    hide Step, Enabled, Quiet;
    if actions != [] {
      var a := actions[0];
      assert !Asks(a);
      OneRefreshForAll(s, a);
      QuietBegins(s, a);
      OneRefreshPerAsking(Step(s, a), actions[1..]);
    }
  }

  lemma QuietBegins(s: State, a: Action)
    requires Enabled(s, a) && Quiet(s)
    ensures Step(s, a).begun == s.begun + if s.pc.Taken? && a == Flusher(Begin) then 1 else 0
    ensures Step(s, a).pc.Taken? ==> s.pc.Taken? && a != Flusher(Begin)
  {
    hide CloseAll, Waiting;
    match a
    case Flusher(m) =>
    case _ =>
  }

  // ---------------------------------------------------------------- stop

  /** Flusher steps before it has exited, once it is stopped. */
  function ToExit(s: State): int {
    if s.pc.Exited? then 0 else 2 + ToSelect(s)
  }

  lemma MoveToExit(s: State, m: Move)
    requires Inv(s) && CanMove(s, m) && s.stopped && s.quit
    ensures var t := MoveStep(s, m); t.stopped && t.quit && ToExit(t) < ToExit(s)
  {
    match m
    case WakeToken =>
    case WakeTimer =>
    case WakeQuit =>
    case Enter =>
    case Begin =>
    case Finish =>
    case Send =>
    case Close =>
  }

  /** A stopped flusher is never short of a step either. */
  lemma StoppedCanMove(s: State)
    requires Inv(s) && s.quit && !s.pc.Exited?
    ensures exists m :: CanMove(s, m)
  {
    match s.pc
    case Select => assert CanMove(s, WakeQuit);
    case Woken => assert CanMove(s, Enter);
    case Taken => assert CanMove(s, Begin);
    case Refreshing => assert CanMove(s, Finish);
    case Answering => assert s.held[0] in s.held; assert CanMove(s, Send) || CanMove(s, Close);
  }

  lemma StopCloser(s: State, a: Action)
    requires Inv(s) && Enabled(s, a) && s.stopped && s.quit
    ensures Step(s, a).stopped && Step(s, a).quit && ToExit(Step(s, a)) <= ToExit(s) - if a.Flusher? then 1 else 0
  {
    hide MoveStep, CanMove, Inv;
    match a
    case Flusher(m) => MoveToExit(s, m);
    case _ =>
  }

  lemma ExitedIffZero(s: State)
    requires Inv(s) && ToExit(s) <= 0
    ensures s.pc.Exited?
  {
  }

  /** stop returns: after quit is closed the flusher has exited within ToExit of its steps. */
  lemma {:induction false} StopReturns(s: State, actions: seq<Action>)
    requires Inv(s) && Legal(s, actions) && s.stopped && s.quit && FlusherSteps(actions) >= ToExit(s)
    ensures RunFrom(s, actions).pc.Exited?
    decreases |actions|
  {
    hide Step, Enabled, Inv, ToExit;
    if actions == [] {
      ExitedIffZero(s);
    } else {
      StepInv(s, actions[0]);
      StopCloser(s, actions[0]);
      StopReturns(Step(s, actions[0]), actions[1..]);
    }
  }

  // ---------------------------------------------------------------- nothing happens unasked

  function CountOf(actions: seq<Action>, p: Action -> bool): nat {
    if actions == [] then 0 else (if p(actions[0]) then 1 else 0) + CountOf(actions[1..], p)
  }

  function One(b: bool): nat {
    if b then 1 else 0
  }

  const IsTick: Action -> bool := (a: Action) => a.Tick?
  const IsDebounce: Action -> bool := (a: Action) => a.Debounce?
  const IsRefreshNow: Action -> bool := (a: Action) => a.RefreshNow?
  const IsTimerWake: Action -> bool := (a: Action) => a == Flusher(WakeTimer)
  const IsTokenWake: Action -> bool := (a: Action) => a == Flusher(WakeToken)

  lemma MoveSpends(s: State, m: Move)
    requires CanMove(s, m)
    ensures var t := MoveStep(s, m);
      && One(t.armed) <= One(s.armed)
      && One(t.fired) + One(m == WakeTimer) <= One(s.fired)
      && One(t.token) + One(m == WakeToken) <= One(s.token)
  {
    match m
    case WakeToken =>
    case WakeTimer =>
    case WakeQuit =>
    case Enter =>
    case Begin =>
    case Finish =>
    case Send =>
    case Close =>
  }

  lemma StepSpends(s: State, a: Action)
    requires Enabled(s, a)
    ensures var t := Step(s, a);
      && One(t.armed) + One(a.Tick?) <= One(s.armed) + One(a.Debounce?)
      && One(t.fired) + One(a == Flusher(WakeTimer)) <= One(s.fired) + One(a.Tick?)
      && One(t.token) + One(a == Flusher(WakeToken)) <= One(s.token) + One(a.RefreshNow?)
  {
    hide MoveStep, CanMove, Waiting;
    match a
    case Flusher(m) => MoveSpends(s, m);
    case Debounce(_) =>
    case Tick =>
    case RefreshNow =>
    case Stop =>
    case CloseQuit =>
  }

  lemma {:induction false} RunSpends(s: State, actions: seq<Action>)
    requires Legal(s, actions)
    ensures CountOf(actions, IsTick) <= One(s.armed) + CountOf(actions, IsDebounce)
    ensures CountOf(actions, IsTimerWake) <= One(s.fired) + CountOf(actions, IsTick)
    ensures CountOf(actions, IsTokenWake) <= One(s.token) + CountOf(actions, IsRefreshNow)
    decreases |actions|
  {
    hide Step, Enabled;
    if actions != [] {
      StepSpends(s, actions[0]);
      RunSpends(Step(s, actions[0]), actions[1..]);
    }
  }

  /** In every run the timer fires at most once for each debounce, and each wakeup has its own cause: a tick
      of the timer or a call of refreshNow. */
  lemma WakeupsAreAskedFor(actions: seq<Action>)
    requires Legal(Init, actions)
    ensures CountOf(actions, IsTick) <= CountOf(actions, IsDebounce)
    ensures CountOf(actions, IsTimerWake) <= CountOf(actions, IsTick)
    ensures CountOf(actions, IsTokenWake) <= CountOf(actions, IsRefreshNow)
  {
    RunSpends(Init, actions);
  }

  lemma StoppedMove(s: State, m: Move)
    requires CanMove(s, m) && s.stopped
    ensures var t := MoveStep(s, m);
      && t.stopped && t.begun == s.begun + One(m == Begin)
      && (t.pc.Taken? ==> s.pc.Taken? && m != Begin) && (m == Begin ==> s.pc.Taken?)
  {
    match m
    case WakeToken =>
    case WakeTimer =>
    case WakeQuit =>
    case Enter =>
    case Begin =>
    case Finish =>
    case Send =>
    case Close =>
  }

  lemma StoppedBegins(s: State, a: Action)
    requires Enabled(s, a) && s.stopped
    ensures var t := Step(s, a);
      t.stopped && t.begun <= s.begun + One(s.pc.Taken?) && One(t.pc.Taken?) + t.begun <= One(s.pc.Taken?) + s.begun
  {
    hide MoveStep, CanMove, Waiting;
    match a
    case Flusher(m) => StoppedMove(s, m);
    case Debounce(_) =>
    case Tick =>
    case RefreshNow =>
    case Stop =>
    case CloseQuit =>
  }

  /** After stop no refresh begins, but for the one whose requests were already taken. */
  lemma {:induction false} StopEndsRefreshes(s: State, actions: seq<Action>)
    requires s.stopped && Legal(s, actions)
    ensures RunFrom(s, actions).begun <= s.begun + One(s.pc.Taken?)
    decreases |actions|
  {
    hide Step, Enabled;
    if actions != [] {
      StoppedBegins(s, actions[0]);
      StopEndsRefreshes(Step(s, actions[0]), actions[1..]);
    }
  }
}
