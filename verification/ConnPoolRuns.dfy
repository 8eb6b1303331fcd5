// How a fill ends, what it has made then, and what becomes of dead connections.
module ConnPoolRuns {
  import opened ConnPool
  import opened ConnPoolInv

  // ---------------------------------------------------------------- a fill ends unless the lock is lost

  /** Steps of one fill and of its connects. */
  predicate OwnStep(a: Action, f: nat) {
    (a.Dial? || a.DialFails? || a.KeyspaceFails? || a.Add? || a.FirstDone? || a.WaitDone? || a.StopFilling?) && a.f == f
  }

  function WorkLeft(ws: seq<Worker>): nat {
    if ws == [] then 0
    else
      var w := ws[|ws| - 1];
      WorkLeft(ws[..|ws| - 1]) + if w.Dialling? then 2 else if w.Holding? then 1 else 0
  }

  /** Steps of its own a fill takes before it clears the flag, at most. */
  function Rank(x: Filler): nat {
    match x
    case Filling(pending, ws) => 3 * pending + WorkLeft(ws) + if pending > 0 then 3 else 2
    case Stopping => 1
    case _ => 0
  }

  lemma {:induction false} WorkUpdate(ws: seq<Worker>, i: nat, w: Worker)
    requires i < |ws|
    ensures WorkLeft(ws[i := w]) == WorkLeft(ws) - WorkLeft([ws[i]]) + WorkLeft([w])
  {
    var n := |ws| - 1;
    assert forall x: Worker :: [x][..0] == [];
    if i == n {
      assert ws[i := w][..n] == ws[..n];
    } else {
      WorkUpdate(ws[..n], i, w);
      assert ws[i := w][..n] == ws[..n][i := w];
    }
  }

  lemma WorkOne(w: Worker)
    ensures WorkLeft([w]) == if w.Dialling? then 2 else if w.Holding? then 1 else 0
  {
    assert [w][..0] == [];
  }

  lemma {:induction false} WorkDials(ws: seq<Worker>)
    requires forall i :: 0 <= i < |ws| ==> ws[i].Dialling?
    ensures WorkLeft(ws) == 2 * |ws|
  {
    if ws != [] {
      WorkDials(ws[..|ws| - 1]);
    }
  }

  lemma SetWorkerRank(s: State, f: nat, w: nat, x: Worker)
    requires IsWorker(s, f, w)
    ensures Rank(SetWorker(s, f, w, x).fillers[f]) == Rank(s.fillers[f]) - WorkLeft([At(s, f, w)]) + WorkLeft([x])
  {
    hide WorkLeft;
    WorkUpdate(s.fillers[f].workers, w, x);
  }

  /** Every step of its own brings a fill nearer to its end, unless it loses the lock. */
  lemma OwnStepNearer(s: State, f: nat, a: Action)
    requires Enabled(s, a) && OwnStep(a, f) && !Step(s, a).stuck
    ensures f < |Step(s, a).fillers| && f < |s.fillers| && Rank(Step(s, a).fillers[f]) < Rank(s.fillers[f])
  {
    hide WorkLeft, CountBusy;
    match a
    case Dial(_, w) =>
      WorkOne(At(s, f, w));
      WorkOne(Holding(|s.open|));
      SetWorkerRank(s.(open := s.open + [true]), f, w, Holding(|s.open|));
    case DialFails(_, w) =>
      WorkOne(At(s, f, w));
      WorkOne(Failed);
      SetWorkerRank(s, f, w, Failed);
    case KeyspaceFails(_, w, _) =>
      WorkOne(At(s, f, w));
      WorkOne(Failed);
      SetWorkerRank(s, f, w, Failed);
    case Add(_, w, _) =>
      WorkOne(At(s, f, w));
      WorkOne(Done);
      SetWorkerRank(s, f, w, Done);
      SetWorkerRank(s.(conns := s.conns + [At(s, f, w).conn]), f, w, Done);
    case FirstDone(_) => WorkDials(Dials(s.fillers[f].pending));
    case WaitDone(_) =>
    case StopFilling(_) =>
  }

  /** Nobody else touches it. */
  lemma OthersLeaveFill(s: State, f: nat, a: Action)
    requires Inv(s) && Enabled(s, a) && !OwnStep(a, f) && f < |s.fillers| && Active(s.fillers[f])
    ensures f < |Step(s, a).fillers| && Step(s, a).fillers[f] == s.fillers[f]
  {
    hide SwapRemove, Good;
    match a
    case StartFill =>
    case Upgrade(_) =>
    case Dial(_, _) =>
    case DialFails(_, _) =>
    case KeyspaceFails(_, _, _) =>
    case Add(_, _, _) =>
    case FirstDone(_) =>
    case WaitDone(_) =>
    case StopFilling(_) =>
    case Break(_) =>
    case HandleError(_) =>
    case Close =>
    case CloseNext(_) =>
  }

  function BusyIn(ws: seq<Worker>): (i: nat)
    ensures i <= |ws| && (i < |ws| ==> Busy(ws[i])) && (i == |ws| ==> forall w :: w in ws ==> !Busy(w))
  {
    if ws == [] || Busy(ws[0]) then 0 else 1 + BusyIn(ws[1..])
  }

  /** A step the fill can take next. */
  function NextOf(s: State, f: nat): Action
    requires f < |s.fillers|
  {
    match s.fillers[f]
    case Filling(pending, ws) =>
      var i := BusyIn(ws);
      if i < |ws| then (if ws[i].Dialling? then DialFails(f, i) else Add(f, i, false))
      else if pending > 0 then FirstDone(f) else WaitDone(f)
    case _ => StopFilling(f)
  }

  /** While the lock can be had, an active fill has a step to take. */
  lemma FillCanStep(s: State, f: nat)
    requires Inv(s) && f < |s.fillers| && Active(s.fillers[f]) && !s.stuck
    ensures Enabled(s, NextOf(s, f)) && OwnStep(NextOf(s, f), f) && !Step(s, NextOf(s, f)).stuck
  {
    hide CountBusy, HeldIn;
    var k: nat :| Good(s, k);
    assert f == k;
    if s.fillers[f].Filling? {
      var ws := s.fillers[f].workers;
      var i := BusyIn(ws);
      if i < |ws| && ws[i].Holding? {
        HeldIsDialled(s, k, i);
      }
    }
  }

  lemma HeldIsDialled(s: State, k: nat, i: nat)
    requires Good(s, k) && IsWorker(s, k, i) && At(s, k, i).Holding?
    ensures At(s, k, i).conn < |s.open|
  {
    var c := At(s, k, i).conn;
    assert Kept(s, FillerAt(s, k), c);
    HeldCounts(s.fillers[k].workers, i, c);
  }

  lemma {:induction false} HeldCounts(ws: seq<Worker>, i: nat, c: nat)
    requires i < |ws| && ws[i] == Holding(c)
    ensures HeldIn(ws, c) > 0
  {
    if i < |ws| - 1 {
      HeldCounts(ws[..|ws| - 1], i, c);
    }
  }

  function OwnSteps(actions: seq<Action>, f: nat): nat {
    if actions == [] then 0 else (if OwnStep(actions[0], f) then 1 else 0) + OwnSteps(actions[1..], f)
  }

  lemma StuckStays(s: State, a: Action)
    requires Enabled(s, a) && s.stuck
    ensures Step(s, a).stuck
  {
    hide SwapRemove;
  }

  lemma {:induction false} StuckForGood(s: State, actions: seq<Action>)
    requires Legal(s, actions) && s.stuck
    ensures RunFrom(s, actions).stuck
    decreases |actions|
  {
    hide Step, Enabled;
    if actions != [] {
      StuckStays(s, actions[0]);
      StuckForGood(Step(s, actions[0]), actions[1..]);
    }
  }

  lemma InactiveStays(s: State, f: nat, a: Action)
    requires Enabled(s, a) && f < |s.fillers| && s.fillers[f].Over?
    ensures f < |Step(s, a).fillers| && Step(s, a).fillers[f].Over?
  {
    hide SwapRemove;
    match a
    case StartFill =>
    case Upgrade(_) =>
    case Dial(_, _) =>
    case DialFails(_, _) =>
    case KeyspaceFails(_, _, _) =>
    case Add(_, _, _) =>
    case FirstDone(_) =>
    case WaitDone(_) =>
    case StopFilling(_) =>
    case Break(_) =>
    case HandleError(_) =>
    case Close =>
    case CloseNext(_) =>
  }

  /** In every run that keeps the lock, a fill under way has cleared the flag once it and its connects
      have taken Rank more steps; and by FillCanStep they are never short of one. */
  lemma {:induction false} FillEnds(s: State, f: nat, actions: seq<Action>)
    requires Inv(s) && Legal(s, actions) && !RunFrom(s, actions).stuck && f < |s.fillers|
    requires Active(s.fillers[f]) || s.fillers[f].Over?
    requires OwnSteps(actions, f) >= Rank(s.fillers[f])
    ensures f < |RunFrom(s, actions).fillers| && RunFrom(s, actions).fillers[f].Over?
    decreases |actions|
  {
    hide Inv, Step, Enabled, WorkLeft;
    if actions != [] {
      var a := actions[0];
      StepInv(s, a);
      if Step(s, a).stuck {
        StuckForGood(Step(s, a), actions[1..]);
      }
      if s.fillers[f].Over? {
        InactiveStays(s, f, a);
      } else if OwnStep(a, f) {
        OwnStepNearer(s, f, a);
        StaysAFill(s, f, a);
      } else {
        OthersLeaveFill(s, f, a);
      }
      FillEnds(Step(s, a), f, actions[1..]);
    }
  }

  lemma StaysAFill(s: State, f: nat, a: Action)
    requires Enabled(s, a) && f < |s.fillers| && OwnStep(a, f)
    ensures f < |Step(s, a).fillers| && (Active(Step(s, a).fillers[f]) || Step(s, a).fillers[f].Over?)
  {
    hide SwapRemove;
  }

  // ---------------------------------------------------------------- exactly when a fill can end

  ghost predicate CanEnd(s: State, f: nat) {
    exists actions :: EndsWith(s, f, actions)
  }

  predicate EndsWith(s: State, f: nat, actions: seq<Action>) {
    && Legal(s, actions)
    && f < |RunFrom(s, actions).fillers| && RunFrom(s, actions).fillers[f].Over?
  }

  lemma {:induction false} EndsWithoutStuck(s: State, f: nat) returns (actions: seq<Action>)
    requires Inv(s) && f < |s.fillers| && (Active(s.fillers[f]) || s.fillers[f].Over?) && !s.stuck
    ensures EndsWith(s, f, actions)
    decreases Rank(s.fillers[f])
  {
    hide Inv, Step, Enabled, WorkLeft, NextOf;
    if s.fillers[f].Over? {
      actions := [];
    } else {
      var a := NextOf(s, f);
      FillCanStep(s, f);
      StepInv(s, a);
      OwnStepNearer(s, f, a);
      StaysAFill(s, f, a);
      var rest := EndsWithoutStuck(Step(s, a), f);
      actions := [a] + rest;
    }
  }

  lemma StuckStaysActive(s: State, f: nat, a: Action)
    requires Enabled(s, a) && s.stuck && f < |s.fillers| && Active(s.fillers[f])
    ensures f < |Step(s, a).fillers| && Active(Step(s, a).fillers[f])
  {
    hide SwapRemove;
  }

  lemma {:induction false} StuckNeverEnds(s: State, f: nat, actions: seq<Action>)
    requires Legal(s, actions) && s.stuck && f < |s.fillers| && Active(s.fillers[f])
    ensures !EndsWith(s, f, actions)
    decreases |actions|
  {
    hide Step, Enabled;
    if actions != [] {
      StuckStays(s, actions[0]);
      StuckStaysActive(s, f, actions[0]);
      StuckNeverEnds(Step(s, actions[0]), f, actions[1..]);
    }
  }

  /** A fill under way can end if and only if nobody keeps the lock for good. */
  lemma FillCanEndIff(s: State, f: nat)
    requires Inv(s) && f < |s.fillers| && Active(s.fillers[f])
    ensures CanEnd(s, f) <==> !s.stuck
  {
    hide Inv, EndsWith;
    if s.stuck {
      forall actions
        ensures !EndsWith(s, f, actions)
      {
        if Legal(s, actions) {
          StuckNeverEnds(s, f, actions);
        } else {
          NotLegal(s, f, actions);
        }
      }
    } else {
      var actions := EndsWithoutStuck(s, f);
    }
  }

  lemma NotLegal(s: State, f: nat, actions: seq<Action>)
    requires !Legal(s, actions)
    ensures !EndsWith(s, f, actions)
  {
  }

  /** An add that finds the pool closed and whose closing of the socket fails. */
  predicate LosesLock(a: Action) {
    a.Add? && a.closeFails
  }

  lemma StuckByAdd(s: State, a: Action)
    requires Enabled(s, a) && (s.stuck ==> s.closed)
    ensures Step(s, a).stuck ==> Step(s, a).closed
    ensures Step(s, a).stuck <==> s.stuck || (LosesLock(a) && s.closed && s.open[At(s, a.f, a.w).conn])
  {
    hide SwapRemove;
  }

  /** The lock is lost only in a closed pool, and only to an add that could not close its socket. */
  lemma {:induction false} LockKept(s: State, actions: seq<Action>)
    requires Legal(s, actions) && !s.stuck
    ensures RunFrom(s, actions).stuck ==> RunFrom(s, actions).closed && exists a :: a in actions && LosesLock(a)
    decreases |actions|
  {
    if RunFrom(s, actions).stuck && actions != [] {
      StuckIsClosed(s, actions);
      StuckByAdd(s, actions[0]);
      if LosesLock(actions[0]) {
        assert actions[0] in actions;
      } else {
        LockKept(Step(s, actions[0]), actions[1..]);
        var a :| a in actions[1..] && LosesLock(a);
        assert a in actions;
      }
    }
  }

  lemma {:induction false} StuckIsClosed(s: State, actions: seq<Action>)
    requires Legal(s, actions) && (s.stuck ==> s.closed)
    ensures RunFrom(s, actions).stuck ==> RunFrom(s, actions).closed
    decreases |actions|
  {
    hide Step, Enabled;
    if actions != [] {
      StuckByAdd(s, actions[0]);
      StuckIsClosed(Step(s, actions[0]), actions[1..]);
    }
  }

  // ---------------------------------------------------------------- what a fill has made

  predicate Undisturbed(a: Action) {
    !a.DialFails? && !a.KeyspaceFails? && !a.HandleError? && !a.Close?
  }

  /** Pooled and outstanding connections together fill the pool. */
  predicate Making(s: State, f: nat) {
    && !s.closed && !s.stuck && f < |s.fillers| && (Active(s.fillers[f]) || s.fillers[f].Over?)
    && |s.conns| + Outstanding(s.fillers[f]) == s.size
    && (s.fillers[f].Filling? ==> Failed !in s.fillers[f].workers)
  }

  lemma UpgradeMakes(s: State, f: nat)
    requires Enabled(s, Upgrade(f)) && !s.closed && !s.filling && |s.conns| < s.size
    ensures Making(Step(s, Upgrade(f)), f)
  {
    CountDialling([Dialling]);
    CountDialling(Dials(s.size - |s.conns|));
  }

  lemma OneIdle(ws: seq<Worker>)
    requires |ws| == 1 && !Busy(ws[0])
    ensures CountBusy(ws) == 0
  {
    assert CountBusy(ws) == CountBusy(ws[..0]);
  }

  lemma {:induction false} AllIdle(ws: seq<Worker>)
    requires forall w :: w in ws ==> !Busy(w)
    ensures CountBusy(ws) == 0
  {
    if ws != [] {
      assert forall w :: w in ws[..|ws| - 1] ==> w in ws;
      AllIdle(ws[..|ws| - 1]);
    }
  }

  lemma {:induction false} BusyCounts(ws: seq<Worker>, i: nat)
    requires i < |ws| && Busy(ws[i])
    ensures CountBusy(ws) > 0
  {
    if i < |ws| - 1 {
      BusyCounts(ws[..|ws| - 1], i);
    }
  }

  lemma OwnStepMakes(s: State, f: nat, a: Action)
    requires Inv(s) && Making(s, f) && Enabled(s, a) && Undisturbed(a) && OwnStep(a, f)
    ensures Making(Step(s, a), f)
  {
    hide CountBusy, HeldIn, Kept;
    var k: nat :| Good(s, k);
    assert f == k;
    match a
    case Dial(_, w) => CountUpdate(s.fillers[f].workers, w, Holding(|s.open|));
    case Add(_, w, _) => CountUpdate(s.fillers[f].workers, w, Done);
    case FirstDone(_) =>
      CountDialling(Dials(s.fillers[f].pending));
      OneIdle(s.fillers[f].workers);
    case WaitDone(_) => AllIdle(s.fillers[f].workers);
    case StopFilling(_) =>
  }

  lemma OtherStepMakes(s: State, f: nat, a: Action)
    requires Inv(s) && Making(s, f) && Enabled(s, a) && Undisturbed(a) && !OwnStep(a, f)
    ensures Making(Step(s, a), f)
  {
    hide CountBusy, HeldIn, Kept;
    var k: nat :| Good(s, k);
    if Active(s.fillers[f]) {
      assert f == k;
    }
    match a
    case StartFill =>
    case Upgrade(_) =>
    case Dial(g, w) => WorkerOf(s, k, g, w);
    case Add(g, w, _) =>
      WorkerOf(s, k, g, w);
      BusyCounts(s.fillers[g].workers, w);
      assert false;
    case FirstDone(g) => WorkerOf(s, k, g, 0);
    case WaitDone(_) =>
    case StopFilling(_) =>
    case Break(_) =>
    case CloseNext(_) =>
  }

  lemma {:induction false} StillMaking(s: State, f: nat, actions: seq<Action>)
    requires Inv(s) && Making(s, f) && Legal(s, actions) && forall a :: a in actions ==> Undisturbed(a)
    ensures Making(RunFrom(s, actions), f)
    decreases |actions|
  {
    hide Inv, Making, Step, Enabled;
    if actions != [] {
      var a := actions[0];
      assert forall b :: b in actions[1..] ==> b in actions;
      StepInv(s, a);
      if OwnStep(a, f) {
        OwnStepMakes(s, f, a);
      } else {
        OtherStepMakes(s, f, a);
      }
      StillMaking(Step(s, a), f, actions[1..]);
    }
  }

  /** A fill that nothing disturbs, once it and its connects have taken their steps, has made exactly
      the connections the pool lacked. */
  lemma FillReachesSize(s: State, f: nat, actions: seq<Action>)
    requires Inv(s) && Enabled(s, Upgrade(f)) && !s.closed && !s.filling && |s.conns| < s.size
    requires Legal(Step(s, Upgrade(f)), actions) && forall a :: a in actions ==> Undisturbed(a)
    requires OwnSteps(actions, f) >= Rank(Step(s, Upgrade(f)).fillers[f])
    ensures var t := RunFrom(Step(s, Upgrade(f)), actions);
      f < |t.fillers| && t.fillers[f].Over? && |t.conns| == t.size == s.size
  {
    hide Inv, WorkLeft, CountBusy;
    var t := Step(s, Upgrade(f));
    StepInv(s, Upgrade(f));
    UpgradeMakes(s, f);
    hide Step, Enabled;
    StillMaking(t, f, actions);
    FillEnds(t, f, actions);
    SizeKept(t, actions);
  }

  // ---------------------------------------------------------------- how often a fill connects

  predicate Attempt(a: Action, f: nat) {
    (a.Dial? || a.DialFails?) && a.f == f
  }

  function Attempts(actions: seq<Action>, f: nat): nat {
    if actions == [] then 0 else (if Attempt(actions[0], f) then 1 else 0) + Attempts(actions[1..], f)
  }

  /** The first connect of the fill to end ends in a failure. */
  predicate FirstFails(actions: seq<Action>, f: nat) {
    actions != [] &&
    var a := actions[0];
    if (a.DialFails? || a.KeyspaceFails? || a.Add?) && a.f == f then !a.Add? else FirstFails(actions[1..], f)
  }

  function CountDials(ws: seq<Worker>): nat {
    if ws == [] then 0 else CountDials(ws[..|ws| - 1]) + if ws[|ws| - 1].Dialling? then 1 else 0
  }

  lemma {:induction false} DialsUpdate(ws: seq<Worker>, i: nat, w: Worker)
    requires i < |ws|
    ensures CountDials(ws[i := w]) == CountDials(ws) - (if ws[i].Dialling? then 1 else 0) + if w.Dialling? then 1 else 0
  {
    var n := |ws| - 1;
    if i == n {
      assert ws[i := w][..n] == ws[..n];
    } else {
      DialsUpdate(ws[..n], i, w);
      assert ws[i := w][..n] == ws[..n][i := w];
    }
  }

  lemma {:induction false} AllDial(ws: seq<Worker>)
    requires forall i :: 0 <= i < |ws| ==> ws[i].Dialling?
    ensures CountDials(ws) == |ws|
  {
    if ws != [] {
      AllDial(ws[..|ws| - 1]);
    }
  }

  lemma {:induction false} NoneDials(ws: seq<Worker>)
    requires forall i :: 0 <= i < |ws| ==> !Busy(ws[i])
    ensures CountDials(ws) == 0
  {
    if ws != [] {
      NoneDials(ws[..|ws| - 1]);
    }
  }

  /** Attempts a fill still has to make, if its first connect has failed or is going to. */
  function ToDial(x: Filler, fails: bool): nat {
    if !x.Filling? then 0
    else if x.pending == 0 || |x.workers| != 1 then CountDials(x.workers)
    else
      match x.workers[0]
      case Dialling => 1 + if fails then 0 else x.pending
      case Holding(_) => if fails then 0 else x.pending
      case Done => x.pending
      case Failed => 0
  }

  predicate FirstAlone(x: Filler) {
    x.Filling? && x.pending > 0 ==> |x.workers| == 1
  }

  /** One connect of a fill goes on from w to y; `fails` is what the steps after it say. */
  lemma WorkerDials(x: Filler, w: nat, y: Worker, fails: bool)
    requires x.Filling? && w < |x.workers| && FirstAlone(x)
    requires if x.workers[w].Dialling? then y.Holding? || y.Failed? else x.workers[w].Holding? && (y.Failed? || y.Done?)
    ensures FirstAlone(x.(workers := x.workers[w := y]))
    ensures ToDial(x, if y.Holding? then fails else y.Failed?)
         == (if x.workers[w].Dialling? then 1 else 0) + ToDial(x.(workers := x.workers[w := y]), fails)
  {
    hide CountDials;
    DialsUpdate(x.workers, w, y);
  }

  predicate Counted(s: State, t: State, f: nat, actions: seq<Action>)
    requires actions != [] && f < |s.fillers| && f < |t.fillers|
  {
    && FirstAlone(t.fillers[f])
    && ToDial(s.fillers[f], FirstFails(actions, f))
    == (if Attempt(actions[0], f) then 1 else 0) + ToDial(t.fillers[f], FirstFails(actions[1..], f))
  }

  lemma ConnectDials(s: State, f: nat, actions: seq<Action>)
    requires actions != [] && Enabled(s, actions[0]) && !Step(s, actions[0]).stuck
    requires var a := actions[0]; (a.Dial? || a.DialFails? || a.KeyspaceFails? || a.Add?) && a.f == f
    requires FirstAlone(s.fillers[f])
    ensures f < |Step(s, actions[0]).fillers| && Counted(s, Step(s, actions[0]), f, actions)
  {
    hide ToDial, CountDials;
    var x, fails := s.fillers[f], FirstFails(actions[1..], f);
    match actions[0]
    case Dial(_, w) => WorkerDials(x, w, Holding(|s.open|), fails);
    case DialFails(_, w) => WorkerDials(x, w, Failed, fails);
    case KeyspaceFails(_, w, _) => WorkerDials(x, w, Failed, fails);
    case Add(_, w, _) => WorkerDials(x, w, Done, fails);
  }

  lemma FillDials(s: State, f: nat, actions: seq<Action>)
    requires actions != [] && Enabled(s, actions[0])
    requires var a := actions[0]; (a.FirstDone? || a.WaitDone? || a.StopFilling?) && a.f == f
    requires FirstAlone(s.fillers[f])
    ensures f < |Step(s, actions[0]).fillers| && Counted(s, Step(s, actions[0]), f, actions)
  {
    hide CountDials;
    if actions[0].FirstDone? {
      AllDial(Dials(s.fillers[f].pending));
    } else if actions[0].WaitDone? {
      assert forall i :: 0 <= i < |s.fillers[f].workers| ==> s.fillers[f].workers[i] in s.fillers[f].workers;
      NoneDials(s.fillers[f].workers);
    }
  }

  lemma {:induction false} RunDials(s: State, f: nat, actions: seq<Action>)
    requires Inv(s) && f < |s.fillers| && EndsWith(s, f, actions)
    requires (Active(s.fillers[f]) || s.fillers[f].Over?) && FirstAlone(s.fillers[f])
    ensures Attempts(actions, f) == ToDial(s.fillers[f], FirstFails(actions, f))
    decreases |actions|
  {
    hide Inv, Step, Enabled, FirstFails, CountDials;
    if actions != [] {
      var a := actions[0];
      StepInv(s, a);
      StepDials(s, f, actions);
      RunDials(Step(s, a), f, actions[1..]);
    }
  }

  lemma StepDials(s: State, f: nat, actions: seq<Action>)
    requires Inv(s) && f < |s.fillers| && actions != [] && EndsWith(s, f, actions)
    requires (Active(s.fillers[f]) || s.fillers[f].Over?) && FirstAlone(s.fillers[f])
    ensures var t := Step(s, actions[0]);
      f < |t.fillers| && (Active(t.fillers[f]) || t.fillers[f].Over?) && Counted(s, t, f, actions)
  {
    hide Inv, ToDial;
    var a := actions[0];
    if s.fillers[f].Over? {
      InactiveStays(s, f, a);
    } else if OwnStep(a, f) {
      StaysAFill(s, f, a);
      if Step(s, a).stuck {
        StuckNeverEnds(Step(s, a), f, actions[1..]);
        assert false;
      } else if a.FirstDone? || a.WaitDone? || a.StopFilling? {
        FillDials(s, f, actions);
      } else {
        ConnectDials(s, f, actions);
      }
    } else {
      OthersLeaveFill(s, f, a);
    }
  }

  /** However a fill runs to its end: it connects once if the pool was empty and that connect fails,
      and otherwise as often as the pool lacked connections. */
  lemma FillAttempts(s: State, f: nat, actions: seq<Action>)
    requires Inv(s) && Enabled(s, Upgrade(f)) && !s.closed && !s.filling && |s.conns| < s.size
    requires EndsWith(Step(s, Upgrade(f)), f, actions)
    ensures Attempts(actions, f) == if s.conns == [] && FirstFails(actions, f) then 1 else s.size - |s.conns|
  {
    hide CountDials, FirstFails;
    StepInv(s, Upgrade(f));
    AllDial(Dials(s.size - |s.conns|));
    AllDial([Dialling]);
    RunDials(Step(s, Upgrade(f)), f, actions);
  }

  // ---------------------------------------------------------------- dead connections in the pool

  ghost predicate CanLeave(s: State, c: nat) {
    exists actions :: LeavesWith(s, c, actions)
  }

  /** Taken out of the open pool. */
  predicate LeavesWith(s: State, c: nat, actions: seq<Action>) {
    Legal(s, actions) && Close !in actions && c !in RunFrom(s, actions).conns
  }

  /** Pooled and dead, its one report already handled. */
  predicate Forgotten(s: State, c: nat) {
    !s.closed && c in s.conns && c < |s.open| && !s.open[c] && c !in s.reports
  }

  lemma StaysPooled(conns: seq<nat>, c: nat, d: nat)
    requires c in conns && c != d
    ensures c in SwapRemove(conns, d)
  {
    hide SwapRemove;
    SwapRemoveIs(conns, d);
    assert c in multiset(conns);
    assert c in multiset(SwapRemove(conns, d));
  }

  lemma ForgottenStays(s: State, c: nat, a: Action)
    requires Forgotten(s, c) && Enabled(s, a) && a != Close
    ensures Forgotten(Step(s, a), c)
  {
    hide SwapRemove, DoUpgrade, Dials;
    match a
    case StartFill =>
    case Upgrade(f) => UpgradeKeeps(s, f);
    case Dial(_, _) =>
    case DialFails(_, _) =>
    case KeyspaceFails(_, _, _) =>
    case Add(_, _, _) =>
    case FirstDone(_) =>
    case WaitDone(_) =>
    case StopFilling(_) =>
    case Break(_) =>
    case HandleError(d) => StaysPooled(s.conns, c, d);
    case CloseNext(_) =>
  }

  lemma UpgradeKeeps(s: State, f: nat)
    requires f < |s.fillers|
    ensures var t := DoUpgrade(s, f);
      t.closed == s.closed && t.conns == s.conns && t.open == s.open && t.reports == s.reports
  {
  }

  lemma {:induction false} ForgottenForGood(s: State, c: nat, actions: seq<Action>)
    requires Forgotten(s, c) && Legal(s, actions) && Close !in actions
    ensures Forgotten(RunFrom(s, actions), c)
    decreases |actions|
  {
    hide Step, Enabled, Forgotten;
    if actions != [] {
      ForgottenStays(s, c, actions[0]);
      ForgottenForGood(Step(s, actions[0]), c, actions[1..]);
    }
  }

  /** A dead connection of an open pool can leave it if and only if its report is still to come. */
  lemma DeadLeavesIff(s: State, c: nat)
    requires Inv(s) && !s.closed && !s.stuck && c in s.conns && c < |s.open| && !s.open[c]
    ensures CanLeave(s, c) <==> c in s.reports
  {
    if c in s.reports {
      ReportedIsGone(s, c);
      hide Step;
      OneAction(s, HandleError(c));
      assert LeavesWith(s, c, [HandleError(c)]);
    } else {
      hide RunFrom, Legal;
      forall actions
        ensures !LeavesWith(s, c, actions)
      {
        if Legal(s, actions) && Close !in actions {
          ForgottenForGood(s, c, actions);
        }
      }
    }
  }

  // ---------------------------------------------------------------- runs that show both failures

  const DIALLED := State(1, false, true, [], [Filling(0, [Holding(0)])], [], [true], {}, false)

  lemma OneAction(s: State, a: Action)
    requires Enabled(s, a)
    ensures Legal(s, [a]) && RunFrom(s, [a]) == Step(s, a)
  {
    hide Step, Enabled;
    assert [a][1..] == [];
  }

  lemma FirstOf(s: State, a: Action, more: seq<Action>)
    requires Enabled(s, a) && Legal(Step(s, a), more)
    ensures Legal(s, [a] + more) && RunFrom(s, [a] + more) == RunFrom(Step(s, a), more)
  {
    hide Step, Enabled;
    assert ([a] + more)[1..] == more;
  }

  /** A pool of one whose first connect has dialled. */
  lemma Dialled(more: seq<Action>)
    requires Legal(DIALLED, more)
    ensures var actions := [StartFill] + ([Upgrade(0)] + ([Dial(0, 0)] + more));
      Legal(Init(1), actions) && RunFrom(Init(1), actions) == RunFrom(DIALLED, more)
  {
    var s1 := Init(1).(fillers := [Upgrading]);
    var s2 := State(1, false, true, [], [Filling(0, [Dialling])], [], [], {}, false);
    assert Step(Init(1), StartFill) == s1 by { assert [] + [Upgrading] == [Upgrading]; }
    assert Step(s1, Upgrade(0)) == s2;
    assert Step(s2, Dial(0, 0)) == DIALLED by {
      assert [] + [true] == [true] && [Dialling][0 := Holding(0)] == [Holding(0)];
      assert s2.fillers[0 := Filling(0, [Holding(0)])] == DIALLED.fillers;
    }
    hide RunFrom, Legal, Step;
    FirstOf(s2, Dial(0, 0), more);
    FirstOf(s1, Upgrade(0), [Dial(0, 0)] + more);
    FirstOf(Init(1), StartFill, [Upgrade(0)] + ([Dial(0, 0)] + more));
  }

  const LOCK_LOST_RUN := [StartFill, Upgrade(0), Dial(0, 0), Close, Add(0, 0, true)]

  /** Close, and then a connect that cannot close its socket: the lock is lost and the fill never ends. */
  lemma LockLostRun()
    ensures Legal(Init(1), LOCK_LOST_RUN)
    ensures var s := RunFrom(Init(1), LOCK_LOST_RUN); s.stuck && |s.fillers| == 1 && !CanEnd(s, 0)
  {
    var more := [Close] + [Add(0, 0, true)];
    var closed := DIALLED.(closed := true);
    assert Step(DIALLED, Close) == closed;
    var last := Step(closed, Add(0, 0, true));
    assert last.stuck && last.fillers == [Filling(0, [Holding(0)])];
    OneAction(closed, Add(0, 0, true));
    hide RunFrom, Legal, Step, CanEnd;
    FirstOf(DIALLED, Close, [Add(0, 0, true)]);
    Dialled(more);
    assert LOCK_LOST_RUN == [StartFill] + ([Upgrade(0)] + ([Dial(0, 0)] + more));
    InitInv(1);
    RunInv(Init(1), LOCK_LOST_RUN);
    FillCanEndIff(last, 0);
  }

  const FORGOTTEN_RUN := [StartFill, Upgrade(0), Dial(0, 0), Break(0), HandleError(0), Add(0, 0, false)]

  lemma ForgottenSteps()
    ensures var broken := DIALLED.(open := [false], reports := {0});
      Enabled(DIALLED, Break(0)) && Step(DIALLED, Break(0)) == broken
    ensures var broken, handled := DIALLED.(open := [false], reports := {0}), DIALLED.(open := [false]);
      Enabled(broken, HandleError(0)) && Step(broken, HandleError(0)) == handled
    ensures var handled := DIALLED.(open := [false]);
      Enabled(handled, Add(0, 0, false)) && Forgotten(Step(handled, Add(0, 0, false)), 0)
  {
    assert [true][0 := false] == [false];
  }

  /** A connection that dies, and is reported, before it is added stays in the pool for good. */
  lemma ForgottenRun()
    ensures Legal(Init(1), FORGOTTEN_RUN) && Forgotten(RunFrom(Init(1), FORGOTTEN_RUN), 0)
  {
    hide RunFrom, Legal, Step, Enabled, Forgotten;
    ForgottenSteps();
    var broken, handled := DIALLED.(open := [false], reports := {0}), DIALLED.(open := [false]);
    OneAction(handled, Add(0, 0, false));
    FirstOf(broken, HandleError(0), [Add(0, 0, false)]);
    var more := [Break(0)] + ([HandleError(0)] + [Add(0, 0, false)]);
    FirstOf(DIALLED, Break(0), [HandleError(0)] + [Add(0, 0, false)]);
    Dialled(more);
    assert FORGOTTEN_RUN == [StartFill] + ([Upgrade(0)] + ([Dial(0, 0)] + more));
  }
}
