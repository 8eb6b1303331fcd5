// refreshDebouncer (host_source.go:923-1028): callers, the timer, stop and the flusher goroutine
// interleaved. A step is one channel operation or one section under d.mu.
module Debouncer {
  import opened Common

  /** A channel handed out by refreshNow: how many refreshes had begun then, whether the flusher
      had already exited, and what has happened on the channel since. */
  datatype Listener = Listener(since: nat, late: bool, errors: seq<nat>, closes: nat)

  datatype Pc = Select | Woken | Taken | Refreshing | Answering | Exited

  datatype State = State(
    stopped: bool, quitting: bool, quit: bool,
    token: bool, armed: bool, fired: bool,
    broadcaster: Option<seq<nat>>,
    pc: Pc,
    held: seq<nat>,      // listeners of curBroadcaster not closed yet
    sent: bool,          // held[0] has its error
    begun: nat,          // refreshes begun so far
    listeners: seq<Listener>)

  datatype Move = WakeToken | WakeTimer | WakeQuit | Enter | Begin | Finish | Send | Close

  datatype Action =
    | Flusher(move: Move)
    | Debounce(drops: bool)  // whether Reset also drops a tick already in the channel
    | Tick
    | RefreshNow
    | Stop
    | CloseQuit

  const Init := State(false, false, false, false, false, false, None, Select, [], false, 0, [])

  function Waiting(s: State): seq<nat> {
    if s.broadcaster.Some? then s.broadcaster.value else []
  }

  function CloseAll(ls: seq<Listener>, ids: seq<nat>): (r: seq<Listener>)
    ensures |r| == |ls|
    ensures forall i :: 0 <= i < |ls| ==> r[i] == if i in ids then ls[i].(closes := ls[i].closes + 1) else ls[i]
  {
    seq(|ls|, i requires 0 <= i < |ls| => if i in ids then ls[i].(closes := ls[i].closes + 1) else ls[i])
  }

  predicate CanMove(s: State, m: Move) {
    match m
    case WakeToken => s.pc.Select? && s.token
    case WakeTimer => s.pc.Select? && s.fired
    case WakeQuit => s.pc.Select? && s.quit
    case Enter => s.pc.Woken?
    case Begin => s.pc.Taken?
    case Finish => s.pc.Refreshing?
    case Send => s.pc.Answering? && s.held != [] && s.held[0] < |s.listeners| && !s.sent
    case Close => s.pc.Answering? && s.held != [] && s.held[0] < |s.listeners| && s.sent
  }

  function MoveStep(s: State, m: Move): State
    requires CanMove(s, m)
  {
    match m
    case WakeToken => s.(token := false, pc := Woken)
    case WakeTimer => s.(fired := false, pc := Woken)
    case WakeQuit => s.(pc := Woken)
    case Enter =>
      if s.stopped then
        s.(listeners := CloseAll(s.listeners, Waiting(s)), broadcaster := None, armed := false, pc := Exited)
      else
        s.(token := false, armed := false, fired := false, held := Waiting(s), broadcaster := None, pc := Taken)
    case Begin => s.(begun := s.begun + 1, pc := Refreshing)
    case Finish => s.(pc := if s.held == [] then Select else Answering)
    case Send =>
      var l := s.listeners[s.held[0]];
      s.(listeners := s.listeners[s.held[0] := l.(errors := l.errors + [s.begun])], sent := true)
    case Close =>
      var l := s.listeners[s.held[0]];
      s.(listeners := s.listeners[s.held[0] := l.(closes := l.closes + 1)], sent := false, held := s.held[1..],
         pc := if |s.held| == 1 then Select else Answering)
  }

  predicate Enabled(s: State, a: Action) {
    match a
    case Flusher(m) => CanMove(s, m)
    case Debounce(_) => true
    case Tick => s.armed
    case RefreshNow => true
    case Stop => true
    case CloseQuit => s.quitting
  }

  function Register(s: State): State {
    s.(broadcaster := Some(Waiting(s) + [|s.listeners|]),
       token := s.token || s.broadcaster.None?,
       listeners := s.listeners + [Listener(s.begun, s.pc.Exited?, [], 0)])
  }

  function Step(s: State, a: Action): State
    requires Enabled(s, a)
  {
    match a
    case Flusher(m) => MoveStep(s, m)
    case Debounce(drops) => if s.stopped then s else s.(armed := true, fired := s.fired && !drops)
    case Tick => s.(armed := false, fired := true)
    case RefreshNow => Register(s)
    case Stop => if s.stopped then s else s.(stopped := true, quitting := true)
    case CloseQuit => s.(quitting := false, quit := true)
  }

  // ---------------------------------------------------------------- invariant

  /** What is true of listener i, by where it is. */
  predicate Placed(s: State, i: nat)
    requires i < |s.listeners|
  {
    var l := s.listeners[i];
    if i in Waiting(s) then
      l.closes == 0 && l.errors == [] && l.since <= s.begun && (l.late <==> s.pc.Exited?)
    else if i in s.held then
      && l.closes == 0 && !l.late
      && l.errors == (if s.sent && s.held[0] == i then [s.begun] else [])
      && (if s.pc.Taken? then l.since <= s.begun else l.since < s.begun)
    else
      l.closes == 1 && !l.late && (l.errors == [] || (|l.errors| == 1 && l.since < l.errors[0] <= s.begun))
  }

  predicate Shape(s: State) {
    && NoRepeat(s.held) && NoRepeat(Waiting(s))
    && (forall i :: i in s.held ==> i < |s.listeners| && i !in Waiting(s))
    && (forall i :: i in Waiting(s) ==> i < |s.listeners|)
    && (s.pc.Select? || s.pc.Woken? || s.pc.Exited? ==> s.held == [])
    && (s.pc.Answering? ==> s.held != [])
    && (s.sent ==> s.pc.Answering?)
  }

  ghost predicate Inv(s: State) {
    && Shape(s)
    && (forall i :: 0 <= i < |s.listeners| ==> Placed(s, i))
    && (s.broadcaster.Some? && !s.pc.Exited? ==> s.token || s.pc.Woken?)
    && (s.pc.Exited? ==> s.stopped)
    && (s.stopped ==> s.quitting || s.quit)
  }

  lemma EnterInv(s: State)
    requires Inv(s) && s.pc.Woken?
    ensures Inv(MoveStep(s, Enter))
  {
    var t := MoveStep(s, Enter);
    forall i | 0 <= i < |t.listeners|
      ensures Placed(t, i)
    {
      assert Placed(s, i);
    }
  }

  lemma SendInv(s: State)
    requires Inv(s) && CanMove(s, Send)
    ensures Inv(MoveStep(s, Send))
    ensures s.listeners[s.held[0]].errors == [] && s.listeners[s.held[0]].closes == 0
  {
    var t := MoveStep(s, Send);
    assert Placed(s, s.held[0]);
    forall i | 0 <= i < |t.listeners|
      ensures Placed(t, i)
    {
      assert Placed(s, i);
    }
  }

  lemma CloseInv(s: State)
    requires Inv(s) && CanMove(s, Close)
    ensures Inv(MoveStep(s, Close))
    ensures s.listeners[s.held[0]].closes == 0
  {
    var t := MoveStep(s, Close);
    assert Placed(s, s.held[0]);
    assert forall x :: x in s.held[1..] ==> x in s.held;
    forall i | 0 <= i < |t.listeners|
      ensures Placed(t, i)
    {
      assert Placed(s, i);
      assert i in s.held && i != s.held[0] ==> i in t.held;
    }
  }

  lemma PassiveInv(s: State, m: Move)
    requires Inv(s) && CanMove(s, m) && !m.Enter? && !m.Send? && !m.Close?
    ensures Inv(MoveStep(s, m))
  {
    var t := MoveStep(s, m);
    forall i | 0 <= i < |t.listeners|
      ensures Placed(t, i)
    {
      assert Placed(s, i);
    }
  }

  lemma RegisterInv(s: State)
    requires Inv(s)
    ensures Inv(Register(s))
  {
    var t := Register(s);
    assert forall k :: 0 <= k < |Waiting(s)| ==> Waiting(s)[k] in Waiting(s);
    forall i | 0 <= i < |t.listeners|
      ensures Placed(t, i)
    {
      assert i < |s.listeners| ==> Placed(s, i);
    }
  }

  lemma OutsideInv(s: State, a: Action)
    requires Inv(s) && Enabled(s, a) && !a.Flusher? && !a.RefreshNow?
    ensures Inv(Step(s, a))
  {
    var t := Step(s, a);
    forall i | 0 <= i < |t.listeners|
      ensures Placed(t, i)
    {
      assert Placed(s, i);
    }
  }

  lemma StepInv(s: State, a: Action)
    requires Inv(s) && Enabled(s, a)
    ensures Inv(Step(s, a))
  {
    hide Inv;
    match a
    case Flusher(m) =>
      match m {
        case Enter => EnterInv(s);
        case Send => SendInv(s);
        case Close => CloseInv(s);
        case _ => PassiveInv(s, m);
      }
    case RefreshNow => RegisterInv(s);
    case _ => OutsideInv(s, a);
  }
}
