// hostConnPool (connectionpool.go:300-647): any number of fill calls, their connects, connection
// failures and Close, interleaved. A step is one section under the pool's lock or one event of a
// connection.
//
// In a closed pool connect closes its connection while it holds the pool's lock. When closing the
// socket fails, the connection reports that to HandleError, which waits for the same lock: from
// then on nobody gets it (connectionpool.go:603-608, conn.go:587-594).
module ConnPool {
  /** One call of connect. */
  datatype Worker = Dialling | Holding(conn: nat) | Done | Failed

  /** One call of fill: between its two locks, connecting, about to clear the flag, over. While
      `pending` is positive the first connect runs alone and the others wait for it. */
  datatype Filler = Upgrading | Filling(pending: nat, workers: seq<Worker>) | Stopping | Over

  datatype State = State(
    size: nat, closed: bool, filling: bool,
    conns: seq<nat>,
    fillers: seq<Filler>,
    closing: seq<nat>,      // what Close took and has not closed yet
    open: seq<bool>,        // per connection ever dialled
    reports: set<nat>,      // connections whose one call of HandleError is still to come
    stuck: bool)            // a connect holds the lock for good

  datatype Action =
    | StartFill
    | Upgrade(f: nat)
    | Dial(f: nat, w: nat)
    | DialFails(f: nat, w: nat)
    | KeyspaceFails(f: nat, w: nat, closeFails: bool)
    | Add(f: nat, w: nat, closeFails: bool)
    | FirstDone(f: nat)
    | WaitDone(f: nat)
    | StopFilling(f: nat)
    | Break(conn: nat)
    | HandleError(conn: nat)
    | Close
    | CloseNext(closeFails: bool)

  function Init(size: nat): State {
    State(size, false, false, [], [], [], [], {}, false)
  }

  predicate Busy(w: Worker) {
    w.Dialling? || w.Holding?
  }

  predicate IsWorker(s: State, f: nat, w: nat) {
    f < |s.fillers| && s.fillers[f].Filling? && w < |s.fillers[f].workers|
  }

  function At(s: State, f: nat, w: nat): Worker
    requires IsWorker(s, f, w)
  {
    s.fillers[f].workers[w]
  }

  predicate Enabled(s: State, a: Action) {
    match a
    case StartFill => !s.stuck && !s.closed && !s.filling && |s.conns| < s.size
    case Upgrade(f) => !s.stuck && f < |s.fillers| && s.fillers[f].Upgrading?
    case Dial(f, w) => IsWorker(s, f, w) && At(s, f, w).Dialling?
    case DialFails(f, w) => IsWorker(s, f, w) && At(s, f, w).Dialling?
    case KeyspaceFails(f, w, _) => IsWorker(s, f, w) && At(s, f, w).Holding? && At(s, f, w).conn < |s.open|
    case Add(f, w, _) => !s.stuck && IsWorker(s, f, w) && At(s, f, w).Holding? && At(s, f, w).conn < |s.open|
    case FirstDone(f) =>
      && IsWorker(s, f, 0) && s.fillers[f].pending > 0 && !Busy(At(s, f, 0))
    case WaitDone(f) =>
      && f < |s.fillers| && s.fillers[f].Filling? && s.fillers[f].pending == 0
      && forall w :: w in s.fillers[f].workers ==> !Busy(w)
    case StopFilling(f) => !s.stuck && f < |s.fillers| && s.fillers[f].Stopping?
    case Break(c) => c < |s.open| && s.open[c]
    case HandleError(c) => !s.stuck && c in s.reports
    case Close => !s.stuck
    case CloseNext(_) => s.closing != [] && s.closing[0] < |s.open|
  }

  function Dials(n: nat): (r: seq<Worker>)
    ensures |r| == n && forall i :: 0 <= i < n ==> r[i] == Dialling
  {
    seq(n, _ => Dialling)
  }

  function SetFiller(s: State, f: nat, x: Filler): State
    requires f < |s.fillers|
  {
    s.(fillers := s.fillers[f := x])
  }

  function SetWorker(s: State, f: nat, w: nat, x: Worker): State
    requires IsWorker(s, f, w)
  {
    SetFiller(s, f, s.fillers[f].(workers := s.fillers[f].workers[w := x]))
  }

  /** The connection is closed, and reported when it was open and there is an error to report. */
  function CloseConn(s: State, c: nat, failed: bool): State
    requires c < |s.open|
  {
    s.(open := s.open[c := false], reports := if failed && s.open[c] then s.reports + {c} else s.reports)
  }

  /** connect gives its connection up under the lock. */
  function GiveUp(s: State, f: nat, w: nat, closeFails: bool): State
    requires IsWorker(s, f, w) && At(s, f, w).Holding? && At(s, f, w).conn < |s.open|
  {
    var c := At(s, f, w).conn;
    if closeFails && s.open[c] then s.(open := s.open[c := false], stuck := true)
    else CloseConn(SetWorker(s, f, w, Done), c, false)
  }

  /** Removal that does not keep the order: the last connection takes the place. */
  function SwapRemove(conns: seq<nat>, c: nat): seq<nat>
    decreases |conns|
  {
    if conns == [] then [] else if conns[0] == c then LastFirst(conns) else [conns[0]] + SwapRemove(conns[1..], c)
  }

  function LastFirst(conns: seq<nat>): seq<nat>
    requires conns != []
  {
    if |conns| == 1 then [] else [conns[|conns| - 1]] + conns[1..|conns| - 1]
  }

  /** fill's section under the write lock. */
  function DoUpgrade(s: State, f: nat): State
    requires f < |s.fillers|
  {
    if s.closed || s.filling || |s.conns| >= s.size then SetFiller(s, f, Over)
    else
      var fillCount := s.size - |s.conns|;
      SetFiller(s.(filling := true), f,
        if s.conns == [] then Filling(fillCount - 1, [Dialling]) else Filling(0, Dials(fillCount)))
  }

  function Step(s: State, a: Action): State
    requires Enabled(s, a)
  {
    match a
    case StartFill => s.(fillers := s.fillers + [Upgrading])
    case Upgrade(f) => DoUpgrade(s, f)
    case Dial(f, w) => SetWorker(s.(open := s.open + [true]), f, w, Holding(|s.open|))
    case DialFails(f, w) => SetWorker(s, f, w, Failed)
    case KeyspaceFails(f, w, closeFails) => CloseConn(SetWorker(s, f, w, Failed), At(s, f, w).conn, closeFails)
    case Add(f, w, closeFails) =>
      if s.closed then GiveUp(s, f, w, closeFails)
      else SetWorker(s.(conns := s.conns + [At(s, f, w).conn]), f, w, Done)
    case FirstDone(f) =>
      if At(s, f, 0).Failed? then SetFiller(s, f, Stopping)
      else SetFiller(s, f, Filling(0, Dials(s.fillers[f].pending)))
    case WaitDone(f) => SetFiller(s, f, Stopping)
    case StopFilling(f) => SetFiller(s.(filling := false), f, Over)
    case Break(c) => CloseConn(s, c, true)
    case HandleError(c) =>
      s.(reports := s.reports - {c}, conns := if s.closed then s.conns else SwapRemove(s.conns, c))
    case Close => if s.closed then s else s.(closed := true, closing := s.conns, conns := [])
    case CloseNext(closeFails) => CloseConn(s, s.closing[0], closeFails).(closing := s.closing[1..])
  }

  // ---------------------------------------------------------------- counting

  function CountBusy(ws: seq<Worker>): nat {
    if ws == [] then 0 else CountBusy(ws[..|ws| - 1]) + if Busy(ws[|ws| - 1]) then 1 else 0
  }

  function Outstanding(f: Filler): nat {
    if f.Filling? then f.pending + CountBusy(f.workers) else 0
  }

  lemma {:induction false} CountUpdate(ws: seq<Worker>, i: nat, w: Worker)
    requires i < |ws|
    ensures CountBusy(ws[i := w]) == CountBusy(ws) - (if Busy(ws[i]) then 1 else 0) + if Busy(w) then 1 else 0
  {
    var n := |ws| - 1;
    if i == n {
      assert ws[i := w][..n] == ws[..n];
    } else {
      CountUpdate(ws[..n], i, w);
      assert ws[i := w][..n] == ws[..n][i := w];
    }
  }

  lemma {:induction false} CountDialling(ws: seq<Worker>)
    requires forall i :: 0 <= i < |ws| ==> ws[i].Dialling?
    ensures CountBusy(ws) == |ws|
  {
    if ws != [] {
      CountDialling(ws[..|ws| - 1]);
    }
  }

  lemma {:induction false} SwapRemoveIs(conns: seq<nat>, c: nat)
    ensures multiset(SwapRemove(conns, c)) == multiset(conns) - multiset{c}
    ensures |SwapRemove(conns, c)| <= |conns|
  {
    hide LastFirst;
    if conns != [] {
      LastFirstIs(conns);
      if conns[0] != c {
        SwapRemoveIs(conns[1..], c);
        assert conns == [conns[0]] + conns[1..];
      }
    }
  }

  lemma LastFirstIs(conns: seq<nat>)
    requires conns != []
    ensures multiset(LastFirst(conns)) == multiset(conns) - multiset{conns[0]} && |LastFirst(conns)| < |conns|
  {
    if |conns| == 1 {
      assert conns == [conns[0]];
    } else {
      assert conns == [conns[0]] + conns[1..|conns| - 1] + [conns[|conns| - 1]];
    }
  }
}
