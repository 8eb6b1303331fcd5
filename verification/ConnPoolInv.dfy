// One filler at a time, never more than `size` connections on the way, and none of them lost.
module ConnPoolInv {
  import opened ConnPool

  /** The fillers between setting and clearing the flag. */
  predicate Active(f: Filler) {
    f.Filling? || f.Stopping?
  }

  function Holds(w: Worker, c: nat): nat {
    if w == Holding(c) then 1 else 0
  }

  function HeldIn(ws: seq<Worker>, c: nat): nat {
    if ws == [] then 0 else HeldIn(ws[..|ws| - 1], c) + Holds(ws[|ws| - 1], c)
  }

  function Held(f: Filler, c: nat): nat {
    if f.Filling? then HeldIn(f.workers, c) else 0
  }

  lemma {:induction false} HeldUpdate(ws: seq<Worker>, i: nat, w: Worker, c: nat)
    requires i < |ws|
    ensures HeldIn(ws[i := w], c) == HeldIn(ws, c) - Holds(ws[i], c) + Holds(w, c)
  {
    hide Holds;
    var n := |ws| - 1;
    if i == n {
      assert ws[i := w][..n] == ws[..n];
    } else {
      HeldUpdate(ws[..n], i, w, c);
      assert ws[i := w][..n] == ws[..n][i := w];
    }
  }

  lemma {:induction false} HeldNone(ws: seq<Worker>, c: nat)
    requires forall i :: 0 <= i < |ws| ==> !ws[i].Holding?
    ensures HeldIn(ws, c) == 0
  {
    if ws != [] {
      HeldNone(ws[..|ws| - 1], c);
    }
  }

  /** The filler at k, or none when k is past the end. */
  function FillerAt(s: State, k: nat): Filler {
    if k < |s.fillers| then s.fillers[k] else Over
  }

  predicate Only(s: State, k: nat) {
    && k <= |s.fillers| && (s.filling <==> k < |s.fillers|)
    && forall i :: 0 <= i < |s.fillers| ==> (Active(s.fillers[i]) <==> i == k)
  }

  /** In how many places connection c is: pooled, taken by Close, held by a connect. */
  function Places(s: State, f: Filler, c: nat): nat {
    multiset(s.conns)[c] + multiset(s.closing)[c] + Held(f, c)
  }

  /** At most one place, and one that is open is in one. */
  predicate Kept(s: State, f: Filler, c: nat) {
    && Places(s, f, c) <= 1
    && (c >= |s.open| ==> Places(s, f, c) == 0)
    && (c < |s.open| && s.open[c] ==> Places(s, f, c) == 1)
  }

  predicate Shape(s: State, f: Filler) {
    && (if s.closed then s.conns == [] else s.closing == [])
    && (f.Filling? && f.pending > 0 ==> |f.workers| == 1)
    && |s.conns| + Outstanding(f) <= s.size
  }

  /** What is to be reported is closed. */
  predicate Reported(s: State) {
    forall c :: c in s.reports ==> c < |s.open| && !s.open[c]
  }

  ghost predicate Good(s: State, k: nat) {
    && Only(s, k) && Shape(s, FillerAt(s, k)) && Reported(s)
    && forall c: nat :: Kept(s, FillerAt(s, k), c)
  }

  ghost predicate Inv(s: State) {
    exists k :: Good(s, k)
  }

  // ---------------------------------------------------------------- steps of a connect

  lemma WorkerOf(s: State, k: nat, f: nat, w: nat)
    requires Only(s, k) && IsWorker(s, f, w)
    ensures f == k < |s.fillers| && FillerAt(s, k) == s.fillers[f]
  {
    assert Active(s.fillers[f]);
  }

  lemma SetWorkerOnly(s: State, k: nat, w: nat, x: Worker)
    requires Only(s, k) && IsWorker(s, k, w)
    ensures Only(SetWorker(s, k, w, x), k)
    ensures Outstanding(FillerAt(SetWorker(s, k, w, x), k))
         == Outstanding(FillerAt(s, k)) - (if Busy(At(s, k, w)) then 1 else 0) + if Busy(x) then 1 else 0
  {
    CountUpdate(s.fillers[k].workers, w, x);
  }

  lemma SetWorkerHeld(s: State, k: nat, w: nat, x: Worker, c: nat)
    requires IsWorker(s, k, w)
    ensures Held(FillerAt(SetWorker(s, k, w, x), k), c) == Held(FillerAt(s, k), c) - Holds(At(s, k, w), c) + Holds(x, c)
  {
    HeldUpdate(s.fillers[k].workers, w, x, c);
  }

  lemma DialInv(s: State, k: nat, f: nat, w: nat)
    requires Good(s, k) && Enabled(s, Dial(f, w))
    ensures Good(Step(s, Dial(f, w)), k)
  {
    hide Held, Outstanding;
    WorkerOf(s, k, f, w);
    var s1 := s.(open := s.open + [true]);
    var t := SetWorker(s1, k, w, Holding(|s.open|));
    SetWorkerOnly(s1, k, w, Holding(|s.open|));
    forall c: nat
      ensures Kept(t, FillerAt(t, k), c)
    {
      assert Kept(s, FillerAt(s, k), c);
      SetWorkerHeld(s1, k, w, Holding(|s.open|), c);
    }
  }

  lemma DialFailsInv(s: State, k: nat, f: nat, w: nat)
    requires Good(s, k) && Enabled(s, DialFails(f, w))
    ensures Good(Step(s, DialFails(f, w)), k)
  {
    hide Held, Outstanding;
    WorkerOf(s, k, f, w);
    var t := SetWorker(s, k, w, Failed);
    SetWorkerOnly(s, k, w, Failed);
    forall c: nat
      ensures Kept(t, FillerAt(t, k), c)
    {
      assert Kept(s, FillerAt(s, k), c);
      SetWorkerHeld(s, k, w, Failed, c);
    }
  }

  /** A connection given up is closed and in no place any more. */
  lemma DroppedInv(s: State, k: nat, w: nat, x: Worker, failed: bool)
    requires Good(s, k) && IsWorker(s, k, w) && At(s, k, w).Holding? && At(s, k, w).conn < |s.open| && !Busy(x)
    ensures Good(CloseConn(SetWorker(s, k, w, x), At(s, k, w).conn, failed), k)
  {
    hide Held, Outstanding;
    SetWorkerOnly(s, k, w, x);
    var s1 := SetWorker(s, k, w, x);
    var t := CloseConn(s1, At(s, k, w).conn, failed);
    assert FillerAt(t, k) == FillerAt(s1, k);
    forall c: nat
      ensures Kept(t, FillerAt(t, k), c)
    {
      assert Kept(s, FillerAt(s, k), c);
      SetWorkerHeld(s, k, w, x, c);
    }
  }

  /** The connect that keeps the lock keeps its closed connection too. */
  lemma StuckInv(s: State, k: nat, w: nat)
    requires Good(s, k) && IsWorker(s, k, w) && At(s, k, w).Holding? && At(s, k, w).conn < |s.open|
    ensures Good(s.(open := s.open[At(s, k, w).conn := false], stuck := true), k)
  {
    hide Held, Outstanding;
    var t := s.(open := s.open[At(s, k, w).conn := false], stuck := true);
    assert FillerAt(t, k) == FillerAt(s, k);
    forall c: nat
      ensures Kept(t, FillerAt(t, k), c)
    {
      assert Kept(s, FillerAt(s, k), c);
    }
  }

  lemma PoolInv(s: State, k: nat, w: nat)
    requires Good(s, k) && IsWorker(s, k, w) && At(s, k, w).Holding? && !s.closed
    ensures Good(SetWorker(s.(conns := s.conns + [At(s, k, w).conn]), k, w, Done), k)
  {
    hide Held, Outstanding;
    var s1 := s.(conns := s.conns + [At(s, k, w).conn]);
    assert FillerAt(s1, k) == FillerAt(s, k);
    SetWorkerOnly(s1, k, w, Done);
    var t := SetWorker(s1, k, w, Done);
    forall c: nat
      ensures Kept(t, FillerAt(t, k), c)
    {
      assert Kept(s, FillerAt(s, k), c);
      SetWorkerHeld(s1, k, w, Done, c);
    }
  }

  lemma WorkerInv(s: State, k: nat, a: Action)
    requires Good(s, k) && Enabled(s, a) && (a.Dial? || a.DialFails? || a.KeyspaceFails? || a.Add?)
    ensures Good(Step(s, a), k)
  {
    hide Good, Only;
    assert Only(s, k) by { GoodOnly(s, k); }
    match a
    case Dial(f, w) => DialInv(s, k, f, w);
    case DialFails(f, w) => DialFailsInv(s, k, f, w);
    case KeyspaceFails(f, w, closeFails) =>
      WorkerOf(s, k, f, w);
      DroppedInv(s, k, w, Failed, closeFails);
    case Add(f, w, closeFails) =>
      WorkerOf(s, k, f, w);
      if !s.closed {
        PoolInv(s, k, w);
      } else if closeFails && s.open[At(s, f, w).conn] {
        StuckInv(s, k, w);
      } else {
        DroppedInv(s, k, w, Done, false);
      }
  }

  lemma GoodOnly(s: State, k: nat)
    requires Good(s, k)
    ensures Only(s, k)
  {
  }

  // ---------------------------------------------------------------- steps of a fill

  /** A filler replaced by one holding nothing, when it held nothing before. */
  lemma SwitchFiller(s: State, k: nat, t: State, k': nat)
    requires Good(s, k) && Only(t, k') && Shape(t, FillerAt(t, k'))
    requires t.conns == s.conns && t.closing == s.closing && t.open == s.open && t.reports == s.reports
    requires forall c :: Held(FillerAt(t, k'), c) == Held(FillerAt(s, k), c)
    ensures Good(t, k')
  {
    hide Held, Outstanding, Only;
    forall c: nat
      ensures Kept(t, FillerAt(t, k'), c)
    {
      assert Kept(s, FillerAt(s, k), c);
    }
  }

  lemma HoldsNothing(f: Filler)
    requires f.Filling? ==> forall w :: w in f.workers ==> !w.Holding?
    ensures forall c :: Held(f, c) == 0
  {
    if f.Filling? {
      assert forall i :: 0 <= i < |f.workers| ==> f.workers[i] in f.workers;
      forall c
        ensures Held(f, c) == 0
      {
        HeldNone(f.workers, c);
      }
    }
  }

  lemma StartFillInv(s: State, k: nat)
    requires Good(s, k) && Enabled(s, StartFill)
    ensures Good(Step(s, StartFill), k + 1)
  {
    SwitchFiller(s, k, Step(s, StartFill), k + 1);
  }

  lemma UpgradeInv(s: State, k: nat, f: nat) returns (k': nat)
    requires Good(s, k) && Enabled(s, Upgrade(f))
    ensures Good(Step(s, Upgrade(f)), k')
  {
    hide HeldIn, CountBusy;
    var t := Step(s, Upgrade(f));
    assert !Active(s.fillers[f]);
    if s.closed || s.filling || |s.conns| >= s.size {
      k' := k;
      assert FillerAt(t, k) == FillerAt(s, k);
    } else {
      k' := f;
      CountDialling([Dialling]);
      CountDialling(Dials(s.size - |s.conns|));
      HoldsNothing(FillerAt(t, f));
      HoldsNothing(FillerAt(s, k));
    }
    SwitchFiller(s, k, t, k');
  }

  lemma FirstDoneInv(s: State, k: nat, f: nat)
    requires Good(s, k) && Enabled(s, FirstDone(f))
    ensures Good(Step(s, FirstDone(f)), k)
  {
    hide HeldIn, CountBusy;
    WorkerOf(s, k, f, 0);
    var t := Step(s, FirstDone(f));
    HoldsNothing(FillerAt(s, k));
    CountDialling(Dials(s.fillers[f].pending));
    HoldsNothing(FillerAt(t, k));
    SwitchFiller(s, k, t, k);
  }

  lemma WaitDoneInv(s: State, k: nat, f: nat)
    requires Good(s, k) && Enabled(s, WaitDone(f))
    ensures Good(Step(s, WaitDone(f)), k)
  {
    hide HeldIn, CountBusy;
    assert Active(s.fillers[f]);
    var t := Step(s, WaitDone(f));
    HoldsNothing(FillerAt(s, k));
    SwitchFiller(s, k, t, k);
  }

  lemma StopFillingInv(s: State, k: nat, f: nat)
    requires Good(s, k) && Enabled(s, StopFilling(f))
    ensures Good(Step(s, StopFilling(f)), |s.fillers|)
  {
    hide HeldIn, CountBusy;
    assert Active(s.fillers[f]);
    SwitchFiller(s, k, Step(s, StopFilling(f)), |s.fillers|);
  }

  // ---------------------------------------------------------------- steps of connections and Close

  lemma BreakInv(s: State, k: nat, c: nat)
    requires Good(s, k) && Enabled(s, Break(c))
    ensures Good(Step(s, Break(c)), k)
  {
    hide Held, Outstanding;
    var t := Step(s, Break(c));
    assert FillerAt(t, k) == FillerAt(s, k);
    forall d: nat
      ensures Kept(t, FillerAt(t, k), d)
    {
      assert Kept(s, FillerAt(s, k), d);
    }
  }

  /** Taking a closed connection out of the pool disturbs none that is open. */
  lemma RemovedKept(s: State, t: State, f: Filler, c: nat, d: nat)
    requires Kept(s, f, d) && c < |s.open| && !s.open[c]
    requires t.open == s.open && t.closing == s.closing
    requires t.conns == s.conns || t.conns == SwapRemove(s.conns, c)
    ensures Kept(t, f, d)
  {
    hide Held, SwapRemove;
    SwapRemoveIs(s.conns, c);
  }

  lemma RemovedShape(s: State, t: State, f: Filler, c: nat)
    requires Shape(s, f) && t.size == s.size && t.closed == s.closed && t.closing == s.closing
    requires t.conns == if s.closed then s.conns else SwapRemove(s.conns, c)
    ensures Shape(t, f)
  {
    hide Outstanding, SwapRemove;
    SwapRemoveIs(s.conns, c);
  }

  lemma HandleErrorInv(s: State, k: nat, c: nat)
    requires Good(s, k) && Enabled(s, HandleError(c))
    ensures Good(Step(s, HandleError(c)), k)
  {
    assert c < |s.open| && !s.open[c];
    hide Shape, SwapRemove, Reported, Kept;
    var t := Step(s, HandleError(c));
    FewerReports(s, t);
    assert FillerAt(t, k) == FillerAt(s, k);
    RemovedShape(s, t, FillerAt(s, k), c);
    forall d: nat
      ensures Kept(t, FillerAt(t, k), d)
    {
      RemovedKept(s, t, FillerAt(s, k), c, d);
    }
  }

  lemma FewerReports(s: State, t: State)
    requires Reported(s) && t.open == s.open && t.reports <= s.reports
    ensures Reported(t)
  {
  }

  lemma CloseInv(s: State, k: nat)
    requires Good(s, k) && Enabled(s, Close)
    ensures Good(Step(s, Close), k)
  {
    hide Held, Outstanding;
    var t := Step(s, Close);
    assert FillerAt(t, k) == FillerAt(s, k);
    forall d: nat
      ensures Kept(t, FillerAt(t, k), d)
    {
      assert Kept(s, FillerAt(s, k), d);
    }
  }

  lemma CloseNextInv(s: State, k: nat, closeFails: bool)
    requires Good(s, k) && Enabled(s, CloseNext(closeFails))
    ensures Good(Step(s, CloseNext(closeFails)), k)
  {
    hide Held, Outstanding;
    var t := Step(s, CloseNext(closeFails));
    assert FillerAt(t, k) == FillerAt(s, k);
    assert s.closing == [s.closing[0]] + s.closing[1..];
    forall d: nat
      ensures Kept(t, FillerAt(t, k), d)
    {
      assert Kept(s, FillerAt(s, k), d);
    }
  }

  // ---------------------------------------------------------------- all steps, all runs

  lemma StepInv(s: State, a: Action)
    requires Inv(s) && Enabled(s, a)
    ensures Inv(Step(s, a))
  {
    hide Good, Step, Enabled;
    var k: nat :| Good(s, k);
    match a
    case StartFill => StartFillInv(s, k);
    case Upgrade(f) => var _ := UpgradeInv(s, k, f);
    case FirstDone(f) => FirstDoneInv(s, k, f);
    case WaitDone(f) => WaitDoneInv(s, k, f);
    case StopFilling(f) => StopFillingInv(s, k, f);
    case Break(c) => BreakInv(s, k, c);
    case HandleError(c) => HandleErrorInv(s, k, c);
    case Close => CloseInv(s, k);
    case CloseNext(closeFails) => CloseNextInv(s, k, closeFails);
    case _ => WorkerInv(s, k, a);
  }

  predicate Legal(s: State, actions: seq<Action>)
    decreases |actions|
  {
    actions == [] || (Enabled(s, actions[0]) && Legal(Step(s, actions[0]), actions[1..]))
  }

  function RunFrom(s: State, actions: seq<Action>): State
    requires Legal(s, actions)
    decreases |actions|
  {
    if actions == [] then s else RunFrom(Step(s, actions[0]), actions[1..])
  }

  lemma {:induction false} RunInv(s: State, actions: seq<Action>)
    requires Inv(s) && Legal(s, actions)
    ensures Inv(RunFrom(s, actions))
    decreases |actions|
  {
    hide Inv, Step, Enabled;
    if actions != [] {
      StepInv(s, actions[0]);
      RunInv(Step(s, actions[0]), actions[1..]);
    }
  }

  lemma InitInv(size: nat)
    ensures Inv(Init(size))
  {
    var s := Init(size);
    forall c: nat
      ensures Kept(s, FillerAt(s, 0), c)
    {
    }
    assert Good(s, 0);
  }

  /** In every run at most one fill is connecting, and the flag says whether one is. */
  lemma OneFiller(size: nat, actions: seq<Action>, i: nat, j: nat)
    requires Legal(Init(size), actions)
    requires i < |RunFrom(Init(size), actions).fillers| && j < |RunFrom(Init(size), actions).fillers|
    requires Active(RunFrom(Init(size), actions).fillers[i]) && Active(RunFrom(Init(size), actions).fillers[j])
    ensures i == j && RunFrom(Init(size), actions).filling
  {
    hide Step, Enabled;
    InitInv(size);
    RunInv(Init(size), actions);
  }

  lemma {:induction false} SizeKept(s: State, actions: seq<Action>)
    requires Legal(s, actions)
    ensures RunFrom(s, actions).size == s.size
    decreases |actions|
  {
    hide DoUpgrade;
    if actions != [] {
      StepKeepsSize(s, actions[0]);
      SizeKept(Step(s, actions[0]), actions[1..]);
    }
  }

  lemma StepKeepsSize(s: State, a: Action)
    requires Enabled(s, a)
    ensures Step(s, a).size == s.size
  {
  }

  /** Pooled connections and those the filler still has to make never exceed the pool's size. */
  lemma NeverOverfull(size: nat, actions: seq<Action>, i: nat)
    requires Legal(Init(size), actions) && i < |RunFrom(Init(size), actions).fillers|
    ensures var s := RunFrom(Init(size), actions); |s.conns| + Outstanding(s.fillers[i]) <= size
  {
    hide Step, Enabled, CountBusy;
    InitInv(size);
    RunInv(Init(size), actions);
    SizeKept(Init(size), actions);
    var s := RunFrom(Init(size), actions);
    var k: nat :| Good(s, k);
    assert i != k ==> !Active(s.fillers[i]);
  }

  /** Held by a connect that is still running. */
  ghost predicate HeldByConnect(s: State, c: nat) {
    exists i :: 0 <= i < |s.fillers| && s.fillers[i].Filling? && Holding(c) in s.fillers[i].workers
  }

  lemma {:induction false} HeldSomewhere(ws: seq<Worker>, c: nat)
    requires HeldIn(ws, c) > 0
    ensures Holding(c) in ws
  {
    if Holds(ws[|ws| - 1], c) == 0 {
      HeldSomewhere(ws[..|ws| - 1], c);
    }
  }

  /** Every open connection is pooled, about to be closed by Close, or held by a running connect. */
  lemma NoConnectionLost(size: nat, actions: seq<Action>, c: nat)
    requires Legal(Init(size), actions)
    requires c < |RunFrom(Init(size), actions).open| && RunFrom(Init(size), actions).open[c]
    ensures var s := RunFrom(Init(size), actions);
      c in s.conns || c in s.closing || HeldByConnect(s, c)
  {
    hide Step, Enabled, HeldIn;
    InitInv(size);
    RunInv(Init(size), actions);
    var s := RunFrom(Init(size), actions);
    var k: nat :| Good(s, k);
    assert Kept(s, FillerAt(s, k), c);
    if Held(FillerAt(s, k), c) > 0 {
      HeldSomewhere(s.fillers[k].workers, c);
      assert HeldByConnect(s, c);
    }
  }

  /** No connection is pooled twice. */
  lemma PooledOnce(size: nat, actions: seq<Action>, i: nat, j: nat)
    requires Legal(Init(size), actions)
    requires i < j < |RunFrom(Init(size), actions).conns|
    ensures RunFrom(Init(size), actions).conns[i] != RunFrom(Init(size), actions).conns[j]
  {
    hide Step, Enabled, Held;
    InitInv(size);
    RunInv(Init(size), actions);
    var s := RunFrom(Init(size), actions);
    var k: nat :| Good(s, k);
    assert Kept(s, FillerAt(s, k), s.conns[i]);
    if s.conns[i] == s.conns[j] {
      TwiceIsTwo(s.conns, i, j);
    }
  }

  lemma TwiceIsTwo(xs: seq<nat>, i: nat, j: nat)
    requires i < j < |xs| && xs[i] == xs[j]
    ensures multiset(xs)[xs[i]] >= 2
  {
    assert xs == xs[..i] + [xs[i]] + xs[i + 1..j] + [xs[j]] + xs[j + 1..];
  }

  predicate NoneConnecting(s: State) {
    forall i :: 0 <= i < |s.fillers| ==> !s.fillers[i].Filling?
  }

  /** After Close has finished and no connect is running, nothing is left open. */
  lemma ClosedPoolIsEmpty(size: nat, actions: seq<Action>, c: nat)
    requires Legal(Init(size), actions)
    requires var s := RunFrom(Init(size), actions); s.closed && s.closing == [] && NoneConnecting(s)
    requires c < |RunFrom(Init(size), actions).open|
    ensures !RunFrom(Init(size), actions).open[c]
  {
    hide Step, Enabled;
    InitInv(size);
    RunInv(Init(size), actions);
    var s := RunFrom(Init(size), actions);
    var k: nat :| Good(s, k);
    assert Kept(s, FillerAt(s, k), c);
  }

  /** A connection reported as closed is not in the pool any more. */
  lemma ReportedIsGone(s: State, c: nat)
    requires Inv(s) && Enabled(s, HandleError(c)) && !s.closed
    ensures c !in Step(s, HandleError(c)).conns
    ensures forall d :: d != c ==> (d in Step(s, HandleError(c)).conns <==> d in s.conns)
  {
    hide Held, SwapRemove;
    SwapRemoveIs(s.conns, c);
    var k: nat :| Good(s, k);
    assert Kept(s, FillerAt(s, k), c);
    hide Good, Kept, Only;
    var t := Step(s, HandleError(c));
    assert forall d :: d in t.conns <==> multiset(t.conns)[d] > 0;
    assert forall d :: d in s.conns <==> multiset(s.conns)[d] > 0;
  }
}
