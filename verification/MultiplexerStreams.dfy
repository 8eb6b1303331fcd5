// The multiplexer on top of the lock-free stream ids: GetStream and releaseStream are the atomic
// loads and swaps of StreamIds instead of one step each.
module MultiplexerStreams {
  import opened StreamBits
  import Ids = StreamIds
  import M = Multiplexer
  import Mux = MultiplexerInv
  import Runs = MultiplexerRuns

  datatype State = State(mux: M.State, ids: Ids.State)

  /** Goroutine 0 is the receiver, goroutine c + 1 the caller c. */
  datatype Action =
    | Other(a: M.Action)     // anything but taking or releasing a stream
    | CallGet(c: nat)        // a caller calls GetStream
    | CallClear(c: nat)      // a caller calls Clear in releaseStream
    | ReceiverClear          // the receiver does, for a call that had given up
    | Inside(t: nat)         // the next atomic step of a GetStream or Clear under way

  function Init(protocol: int, deadline: bool): State {
    State(M.Init(if protocol > 2 then 32768 else 128, deadline), Ids.New(protocol))
  }

  predicate TouchesStreams(a: M.Action) {
    a.GetStream? || a.Release? || a == M.Recv(M.Free)
  }

  /** Whoever acts is not inside GetStream or Clear. */
  predicate ActorFree(ids: Ids.State, a: M.Action) {
    match a
    case AddCall(c) => ids.Pc(c + 1).Idle?
    case Own(c, _) => ids.Pc(c + 1).Idle?
    case Send(c) => ids.Pc(c + 1).Idle?
    case Drop(c) => ids.Pc(c + 1).Idle?
    case Close(m) => m.CallerCloses? ==> ids.Pc(m.c + 1).Idle?
    case Recv(_) => ids.Pc(0).Idle?
    case _ => true
  }

  predicate Enabled(s: State, a: Action) {
    match a
    case Other(b) => M.Enabled(s.mux, b) && !TouchesStreams(b) && ActorFree(s.ids, b)
    case CallGet(c) => M.At(s.mux, c, M.Start) && s.ids.Pc(c + 1).Idle?
    case CallClear(c) => M.At(s.mux, c, M.Releasing) && s.ids.Pc(c + 1).Idle?
    case ReceiverClear => M.CanReceive(s.mux, M.Free) && s.ids.Pc(0).Idle?
    case Inside(t) => Ids.Shape(s.ids) && !s.ids.Pc(t).Idle?
  }

  /** Clear called on an id, whether or not anybody holds it. */
  function Clearing(ids: Ids.State, t: nat, id: nat): Ids.State {
    ids.(held := ids.held - {id}).At(t, Ids.ClearLoad(id))
  }

  /** What a step of the ids is to the multiplexer. */
  function MuxOf(t: nat, e: Ids.Effect): seq<M.Action> {
    match e
    case Stutter => []
    case Acquire(id) => if t == 0 then [] else [M.GetStream(t - 1, id)]
    case Release(_) => if t == 0 then [M.Recv(M.Free)] else [M.Release(t - 1)]
  }

  function MuxActions(s: State, a: Action): seq<M.Action>
    requires Enabled(s, a)
  {
    match a
    case Other(b) => [b]
    case Inside(t) => MuxOf(t, Ids.EffectOf(s.ids, Ids.Run(t)))
    case _ => []
  }

  function MuxStep(m: M.State, acts: seq<M.Action>): M.State {
    if acts == [] || !M.Enabled(m, acts[0]) then m else M.Step(m, acts[0])
  }

  function Step(s: State, a: Action): State
    requires Enabled(s, a)
  {
    var mux := MuxStep(s.mux, MuxActions(s, a));
    match a
    case Other(_) => State(mux, s.ids)
    case CallGet(c) => State(mux, s.ids.At(c + 1, Ids.LoadOffset))
    case CallClear(c) => State(mux, Clearing(s.ids, c + 1, s.mux.calls[c].stream))
    case ReceiverClear => State(mux, Clearing(s.ids, 0, s.mux.calls[s.mux.recv.call].stream))
    case Inside(t) => State(mux, Ids.RunStep(s.ids, t))
  }

  // ---------------------------------------------------------------- invariant

  /** Where the goroutine is in the multiplexer while it is inside GetStream or Clear. */
  predicate Tied(m: M.State, t: nat, pc: Ids.Pc) {
    match pc
    case Idle => true
    case CountDown => true
    case CountUp(id) => t > 0 && M.At(m, t - 1, M.Adding) && m.calls[t - 1].stream == id
    case ClearLoad(id) => Frees(m, t, id)
    case ClearCas(id, _) => Frees(m, t, id)
    case _ => t > 0 && M.At(m, t - 1, M.Start)
  }

  predicate Frees(m: M.State, t: nat, id: nat) {
    if t == 0 then M.CanReceive(m, M.Free) && m.calls[m.recv.call].stream == id
    else M.At(m, t - 1, M.Releasing) && m.calls[t - 1].stream == id
  }

  predicate AllTied(s: State) {
    forall t :: t in s.ids.pcs ==> Tied(s.mux, t, s.ids.pcs[t])
  }

  ghost predicate Inv(s: State) {
    && Mux.Inv(s.mux) && Ids.Inv(s.ids) && AllTied(s)
    && InUse(s.ids.words) == s.mux.used && Capacity(s.ids.words) == s.mux.numStreams
  }

  // ---------------------------------------------------------------- who owns what is being cleared

  /** The call whose stream the goroutine takes or frees. */
  function CallOf(m: M.State, t: nat): nat {
    if t > 0 then t - 1 else if m.recv.Freeing? then m.recv.call else 0
  }

  lemma OwnsWhatItFrees(m: M.State, t: nat, id: nat)
    requires Mux.Inv(m) && Frees(m, t, id)
    ensures CallOf(m, t) in m.calls && Mux.Owns(m.calls[CallOf(m, t)]) && m.calls[CallOf(m, t)].stream == id
    ensures id in m.used && id != 0
  {
    assert Mux.CallOk(m, CallOf(m, t));
  }

  lemma OwnsWhatItTook(m: M.State, c: nat)
    requires Mux.Inv(m) && M.At(m, c, M.Adding)
    ensures Mux.Owns(m.calls[c])
  {
    assert Mux.CallOk(m, c);
  }

  /** A call being freed by the receiver is not about to be freed by its caller, nor still being added. */
  lemma HeldElsewhere(m: M.State, c: nat)
    requires Mux.Inv(m) && Mux.Held(m.recv, c) && c in m.calls
    ensures !m.calls[c].pc.Releasing? && !m.calls[c].pc.Adding?
  {
    hide Mux.StreamsOk, Mux.TableOk, Mux.ServerOk;
    assert Mux.CallOk(m, c);
  }

  /** Nobody else is inside GetStream or Clear with an id that is about to be cleared. */
  lemma NobodyElse(s: State, t: nat, id: nat, u: nat)
    requires Inv(s) && Frees(s.mux, t, id) && s.ids.Pc(t).Idle? && u in s.ids.pcs
    ensures id !in Ids.Claim(s.ids.pcs[u])
  {
    hide Mux.Inv, Ids.Inv;
    var m := s.mux;
    OwnsWhatItFrees(m, t, id);
    if id in Ids.Claim(s.ids.pcs[u]) {
      assert Tied(m, u, s.ids.pcs[u]);
      match s.ids.pcs[u]
      case CountUp(_) =>
        OwnsWhatItTook(m, u - 1);
        OneOwner(m, CallOf(m, t), u - 1);
        if t == 0 {
          HeldElsewhere(m, u - 1);
        }
      case ClearLoad(_) => SameFreer(m, t, u, id);
      case ClearCas(_, _) => SameFreer(m, t, u, id);
    }
  }

  lemma OneOwner(m: M.State, c: nat, d: nat)
    requires Mux.Inv(m) && c in m.calls && d in m.calls && Mux.Owns(m.calls[c]) && Mux.Owns(m.calls[d])
    requires m.calls[c].stream == m.calls[d].stream
    ensures c == d
  {
    if c != d {
      Mux.OwnersDiffer(m, c, d);
    }
  }

  lemma SameFreer(m: M.State, t: nat, u: nat, id: nat)
    requires Mux.Inv(m) && Frees(m, t, id) && Frees(m, u, id)
    ensures t == u
  {
    hide Mux.Inv;
    OwnsWhatItFrees(m, t, id);
    OwnsWhatItFrees(m, u, id);
    OneOwner(m, CallOf(m, t), CallOf(m, u));
    if t != u && (t == 0 || u == 0) {
      HeldElsewhere(m, CallOf(m, t));
    }
  }

  /** Clear is only ever called on an id that was handed out and not cleared since. */
  lemma ClearsHeldId(s: State, t: nat, id: nat)
    requires Inv(s) && Frees(s.mux, t, id) && s.ids.Pc(t).Idle?
    ensures id in s.ids.held
  {
    hide Mux.Inv, Ids.Shape, Ids.Counted, InUse;
    OwnsWhatItFrees(s.mux, t, id);
    if id in Ids.Claims(s.ids.pcs) {
      var u :| u in s.ids.pcs && id in Ids.Claim(s.ids.pcs[u]);
      NobodyElse(s, t, id, u);
    }
  }

  // ---------------------------------------------------------------- steps that leave the streams alone

  /** Steps taken by caller d. */
  predicate ActsFor(a: M.Action, d: nat) {
    match a
    case AddCall(c) => c == d
    case Own(c, _) => c == d
    case Send(c) => c == d
    case Drop(c) => c == d
    case Close(m) => m == M.CallerCloses(d)
    case _ => false
  }

  lemma RecvLeaves(m: M.State, r: M.RecvMove, d: nat)
    requires M.CanReceive(m, r) && !r.Free? && d in m.calls
    ensures var n := M.RecvStep(m, r); n.used == m.used && n.numStreams == m.numStreams && d in n.calls
    ensures !m.calls[d].pc.Waiting? ==> M.RecvStep(m, r).calls[d] == m.calls[d]
  {
    hide M.DoLookup;
    match r
    case ReadHeader =>
    case ReadFails =>
    case Lookup =>
    case ReadBody(_) =>
    case BodyFails =>
    case Deliver =>
    case SeeTimeout =>
    case SeeDone =>
    case ReceiverCloses =>
  }

  lemma CloseLeaves(m: M.State, k: M.CloseMove, d: nat)
    requires M.CanClose(m, k) && d in m.calls
    ensures var n := M.CloseStep(m, k);
      n.used == m.used && n.numStreams == m.numStreams && n.recv == m.recv && d in n.calls
    ensures !m.calls[d].pc.Waiting? && k != M.CallerCloses(d) ==> M.CloseStep(m, k).calls[d] == m.calls[d]
    ensures M.CloseStep(m, k).calls[d].stream == m.calls[d].stream
  {
    hide M.StartClose;
    match k
    case CallerCloses(_) =>
    case OtherCloses =>
    case CloseNil =>
    case Notify(_) =>
    case Skip(_) =>
    case Cancel =>
    case ParentCancelled =>
  }

  lemma CallerLeaves(m: M.State, a: M.Action, d: nat)
    requires M.Enabled(m, a) && !TouchesStreams(a) && !a.Recv? && !a.Close? && d in m.calls
    ensures var n := M.Step(m, a);
      n.used == m.used && n.numStreams == m.numStreams && n.recv == m.recv && d in n.calls
    ensures !ActsFor(a, d) ==> M.Step(m, a).calls[d] == m.calls[d]
    ensures M.Step(m, a).calls[d].stream == m.calls[d].stream
  {
    hide M.DoAddCall, M.RecvStep, M.CloseStep;
    match a
    case Exec(_) =>
    case AddCall(_) =>
    case Own(_, _) =>
    case Send(_) =>
    case Drop(_) =>
    case Answer(_) =>
    case Socket(_) =>
  }

  /** The set of streams stays, and so does every caller that is inside GetStream or Clear. */
  lemma OtherLeaves(s: State, a: M.Action, t: nat)
    requires Inv(s) && Enabled(s, Other(a)) && t in s.ids.pcs
    ensures Tied(M.Step(s.mux, a), t, s.ids.pcs[t])
  {
    hide Mux.Inv, Ids.Inv, M.RecvStep, M.CloseStep, M.DoAddCall;
    var pc := s.ids.pcs[t];
    assert Tied(s.mux, t, pc);
    if !pc.Idle? && !pc.CountDown? {
      var d := CallOf(s.mux, t);
      match a
      case Recv(r) => RecvLeaves(s.mux, r, d);
      case Close(k) => CloseLeaves(s.mux, k, d);
      case _ => CallerLeaves(s.mux, a, d);
    }
  }

  lemma OtherKeepsUsed(s: State, a: M.Action)
    requires Inv(s) && Enabled(s, Other(a))
    ensures M.Step(s.mux, a).used == s.mux.used && M.Step(s.mux, a).numStreams == s.mux.numStreams
  {
    hide Mux.Inv, Ids.Inv, M.RecvStep, M.CloseStep, M.DoAddCall;
    match a
    case Recv(r) => RecvKeepsUsed(s.mux, r);
    case Close(k) => CloseKeepsUsed(s.mux, k);
    case Exec(_) =>
    case AddCall(_) =>
    case Own(_, _) =>
    case Send(_) =>
    case Drop(_) =>
    case Answer(_) =>
    case Socket(_) =>
  }

  lemma RecvKeepsUsed(m: M.State, r: M.RecvMove)
    requires M.CanReceive(m, r) && !r.Free?
    ensures M.RecvStep(m, r).used == m.used && M.RecvStep(m, r).numStreams == m.numStreams
  {
    hide M.DoLookup;
    match r
    case ReadHeader =>
    case ReadFails =>
    case Lookup =>
    case ReadBody(_) =>
    case BodyFails =>
    case Deliver =>
    case SeeTimeout =>
    case SeeDone =>
    case ReceiverCloses =>
  }

  lemma CloseKeepsUsed(m: M.State, k: M.CloseMove)
    requires M.CanClose(m, k)
    ensures M.CloseStep(m, k).used == m.used && M.CloseStep(m, k).numStreams == m.numStreams
  {
    hide M.StartClose;
    match k
    case CallerCloses(_) =>
    case OtherCloses =>
    case CloseNil =>
    case Notify(_) =>
    case Skip(_) =>
    case Cancel =>
    case ParentCancelled =>
  }

  lemma OtherInv(s: State, a: M.Action)
    requires Inv(s) && Enabled(s, Other(a))
    ensures Inv(Step(s, Other(a)))
  {
    hide Mux.Inv, Ids.Inv, M.Step, M.Enabled, Tied, InUse;
    Mux.StepInv(s.mux, a);
    OtherKeepsUsed(s, a);
    forall t | t in s.ids.pcs
      ensures Tied(M.Step(s.mux, a), t, s.ids.pcs[t])
    {
      OtherLeaves(s, a, t);
    }
  }

  // ---------------------------------------------------------------- steps into and inside the ids

  /** A step of the ids alone, by a goroutine that is tied where it goes. */
  lemma IdsMove(s: State, ids: Ids.State, t: nat, pc: Ids.Pc)
    requires Inv(s) && Ids.Inv(ids) && ids.words == s.ids.words && ids.pcs == s.ids.pcs[t := pc] && Tied(s.mux, t, pc)
    ensures Inv(State(s.mux, ids))
  {
    hide Mux.Inv, Ids.Inv, Tied, InUse;
    forall u | u in ids.pcs
      ensures Tied(s.mux, u, ids.pcs[u])
    {
      assert u != t ==> Tied(s.mux, u, s.ids.pcs[u]);
    }
  }

  lemma CallInv(s: State, a: Action)
    requires Inv(s) && Enabled(s, a) && (a.CallGet? || a.CallClear? || a.ReceiverClear?)
    ensures Inv(Step(s, a))
  {
    hide Mux.Inv, Ids.Inv, InUse;
    match a
    case CallGet(c) =>
      assert Ids.Shape(s.ids) by { ShapeOf(s.ids); }
      Ids.StepInv(s.ids, Ids.StartGet(c + 1));
      IdsMove(s, Step(s, a).ids, c + 1, Ids.LoadOffset);
    case CallClear(c) => ClearInv(s, c + 1, s.mux.calls[c].stream);
    case ReceiverClear => ClearInv(s, 0, s.mux.calls[s.mux.recv.call].stream);
  }

  lemma ShapeOf(ids: Ids.State)
    requires Ids.Inv(ids)
    ensures Ids.Shape(ids)
  {
  }

  lemma ClearInv(s: State, t: nat, id: nat)
    requires Inv(s) && Frees(s.mux, t, id) && s.ids.Pc(t).Idle?
    ensures Inv(State(s.mux, Clearing(s.ids, t, id)))
  {
    hide Mux.Inv, Ids.Inv, InUse, Frees;
    ClearsHeldId(s, t, id);
    ShapeOf(s.ids);
    Ids.StepInv(s.ids, Ids.StartClear(t, id));
    IdsMove(s, Clearing(s.ids, t, id), t, Ids.ClearLoad(id));
  }

  /** A step that changes nothing a caller could see keeps its goroutine where it is. */
  lemma QuietInv(s: State, t: nat)
    requires Inv(s) && Enabled(s, Inside(t)) && Ids.EffectOf(s.ids, Ids.Run(t)).Stutter?
    ensures Inv(State(s.mux, Ids.RunStep(s.ids, t)))
  {
    hide Mux.Inv, InUse, MaskFree, MaskTaken, Ids.Owned, Ids.Counted;
    var ids := Ids.RunStep(s.ids, t);
    Ids.RunInv(s.ids, t);
    Ids.StepRefinesSet(s.ids, Ids.Run(t));
    assert Tied(s.mux, t, s.ids.pcs[t]);
    StutterWords(s.ids, t);
    if s.ids.pcs[t].ClearLoad? {
      Ids.ClearLoadInv(s.ids, t, s.ids.pcs[t].id);
    }
    IdsMove(s, ids, t, ids.pcs[t]);
  }

  lemma StutterWords(ids: Ids.State, t: nat)
    requires Ids.Inv(ids) && !ids.Pc(t).Idle? && Ids.EffectOf(ids, Ids.Run(t)).Stutter?
    ensures Ids.RunStep(ids, t).words == ids.words && t in Ids.RunStep(ids, t).pcs
    ensures Ids.RunStep(ids, t).pcs == ids.pcs[t := Ids.RunStep(ids, t).pcs[t]]
  {
    hide InUse, MaskFree, MaskTaken, Ids.Owned, Ids.Counted;
  }

  lemma AcquireIds(ids: Ids.State, t: nat, id: nat)
    requires Ids.Inv(ids) && !ids.Pc(t).Idle? && Ids.EffectOf(ids, Ids.Run(t)) == Ids.Acquire(id)
    ensures ids.pcs[t].TryBit? && Ids.RunStep(ids, t).pcs == ids.pcs[t := Ids.CountUp(id)]
    ensures 0 < id < Capacity(ids.words) && id !in InUse(ids.words)
    ensures InUse(Ids.RunStep(ids, t).words) == InUse(ids.words) + {id} && |Ids.RunStep(ids, t).words| == |ids.words|
  {
    hide InUse, MaskFree, MaskTaken, Ids.Counted;
    Ids.StepRefinesSet(ids, Ids.Run(t));
    Ids.RunInv(ids, t);
    assert 0 in InUse(ids.words);
  }

  lemma ReleaseIds(ids: Ids.State, t: nat, id: nat)
    requires Ids.Inv(ids) && !ids.Pc(t).Idle? && Ids.EffectOf(ids, Ids.Run(t)) == Ids.Release(id)
    ensures ids.pcs[t].ClearCas? && ids.pcs[t].id == id && Ids.RunStep(ids, t).pcs == ids.pcs[t := Ids.CountDown]
    ensures InUse(Ids.RunStep(ids, t).words) == InUse(ids.words) - {id} && |Ids.RunStep(ids, t).words| == |ids.words|
  {
    hide InUse, MaskFree, MaskTaken, Ids.Counted, Ids.Owned;
    Ids.StepRefinesSet(ids, Ids.Run(t));
  }

  /** Goroutine t steps; what the others are tied to stays. */
  lemma OthersStayTied(s: State, n: M.State, pcs: map<nat, Ids.Pc>, t: nat, c: nat)
    requires AllTied(s) && c in s.mux.calls && c in n.calls && n.calls == s.mux.calls[c := n.calls[c]]
    requires t == c + 1 || (t == 0 && n.calls[c].pc == s.mux.calls[c].pc)
    requires n.calls[c].stream == s.mux.calls[c].stream || s.mux.calls[c].pc.Start?
    requires t > 0 ==> n.recv == s.mux.recv
    requires t > 0 && s.mux.recv.Freeing? ==> s.mux.recv.call in s.mux.calls && !s.mux.calls[s.mux.recv.call].pc.Start?
    requires t in pcs && pcs == s.ids.pcs[t := pcs[t]] && Tied(n, t, pcs[t])
    ensures forall u :: u in pcs ==> Tied(n, u, pcs[u])
  {
    forall u | u in pcs
      ensures Tied(n, u, pcs[u])
    {
      assert u != t ==> Tied(s.mux, u, s.ids.pcs[u]);
    }
  }

  lemma FreedIsRegistered(m: M.State)
    requires Mux.Inv(m) && m.recv.Freeing?
    ensures m.recv.call in m.calls && !m.calls[m.recv.call].pc.Start?
  {
    assert Mux.CallOk(m, m.recv.call);
  }

  /** A successful swap of GetStream is the multiplexer's own step: the stream was free. */
  lemma AcquireInv(s: State, t: nat, id: nat)
    requires Inv(s) && Enabled(s, Inside(t)) && Ids.EffectOf(s.ids, Ids.Run(t)) == Ids.Acquire(id)
    ensures t > 0 && M.Enabled(s.mux, M.GetStream(t - 1, id))
    ensures Inv(State(M.Step(s.mux, M.GetStream(t - 1, id)), Ids.RunStep(s.ids, t)))
  {
    hide Mux.Inv, InUse, Ids.Inv, Ids.RunStep, Ids.EffectOf, M.RecvStep, M.CloseStep, M.DoAddCall;
    Ids.RunInv(s.ids, t);
    AcquireIds(s.ids, t, id);
    assert Tied(s.mux, t, s.ids.pcs[t]);
    var a := M.GetStream(t - 1, id);
    Mux.StepInv(s.mux, a);
    if s.mux.recv.Freeing? {
      FreedIsRegistered(s.mux);
    }
    OthersStayTied(s, M.Step(s.mux, a), Ids.RunStep(s.ids, t).pcs, t, t - 1);
  }

  /** And a successful swap of Clear is its release. */
  lemma ReleaseInv(s: State, t: nat, id: nat)
    requires Inv(s) && Enabled(s, Inside(t)) && Ids.EffectOf(s.ids, Ids.Run(t)) == Ids.Release(id)
    ensures var a := if t == 0 then M.Recv(M.Free) else M.Release(t - 1);
      M.Enabled(s.mux, a) && Inv(State(M.Step(s.mux, a), Ids.RunStep(s.ids, t)))
  {
    hide Mux.Inv, InUse, Ids.Inv, Ids.RunStep, Ids.EffectOf, M.CloseStep, M.DoAddCall;
    Ids.RunInv(s.ids, t);
    ReleaseIds(s.ids, t, id);
    assert Tied(s.mux, t, s.ids.pcs[t]);
    var a := if t == 0 then M.Recv(M.Free) else M.Release(t - 1);
    Mux.StepInv(s.mux, a);
    if s.mux.recv.Freeing? {
      FreedIsRegistered(s.mux);
    }
    OthersStayTied(s, M.Step(s.mux, a), Ids.RunStep(s.ids, t).pcs, t, CallOf(s.mux, t));
  }

  // ---------------------------------------------------------------- every run

  lemma StepInv(s: State, a: Action)
    requires Inv(s) && Enabled(s, a)
    ensures Inv(Step(s, a))
    ensures MuxActions(s, a) == [] || M.Enabled(s.mux, MuxActions(s, a)[0])
  {
    hide Inv, M.Step, M.Enabled, Ids.RunStep, Ids.EffectOf;
    match a
    case Other(b) => OtherInv(s, b);
    case Inside(t) =>
      match Ids.EffectOf(s.ids, Ids.Run(t)) {
        case Stutter => QuietInv(s, t);
        case Acquire(id) => AcquireInv(s, t, id);
        case Release(id) => ReleaseInv(s, t, id);
      }
    case _ => CallInv(s, a);
  }

  predicate Legal(s: State, actions: seq<Action>)
    decreases |actions|
  {
    actions == [] || (Enabled(s, actions[0]) && Legal(Step(s, actions[0]), actions[1..]))
  }

  function RunFrom(s: State, actions: seq<Action>): State
    requires Legal(s, actions)
    decreases |actions|
  {
    if actions == [] then s else RunFrom(Step(s, actions[0]), actions[1..])
  }

  lemma InitInv(protocol: int, deadline: bool)
    ensures Inv(Init(protocol, deadline))
  {
    hide Ids.Inv, InUse;
    Ids.NewInv(protocol);
    FreshInUse(|Ids.New(protocol).words|);
    assert Mux.Inv(Init(protocol, deadline).mux);
  }

  /** Seen from the multiplexer every run is one of its own runs. */
  lemma {:induction false} IsMuxRun(s: State, actions: seq<Action>) returns (acts: seq<M.Action>)
    requires Inv(s) && Legal(s, actions)
    ensures Inv(RunFrom(s, actions))
    ensures Runs.Legal(s.mux, acts) && Runs.RunFrom(s.mux, acts) == RunFrom(s, actions).mux
    decreases |actions|
  {
    hide Inv, M.Step, M.Enabled, Enabled, MuxActions;
    if actions == [] {
      acts := [];
    } else {
      var a := actions[0];
      StepInv(s, a);
      StepMux(s, a);
      var rest := IsMuxRun(Step(s, a), actions[1..]);
      var first := MuxActions(s, a);
      if first == [] {
        acts := rest;
      } else {
        acts := [first[0]] + rest;
        assert acts[1..] == rest;
      }
    }
  }

  lemma StepMux(s: State, a: Action)
    requires Enabled(s, a)
    ensures Step(s, a).mux == MuxStep(s.mux, MuxActions(s, a))
  {
  }

  lemma ClearOnHeld(s: State, a: Action)
    requires Inv(s) && Enabled(s, a)
    ensures a.CallClear? ==> s.mux.calls[a.c].stream in s.ids.held
    ensures a.ReceiverClear? ==> s.mux.calls[s.mux.recv.call].stream in s.ids.held
  {
    hide Inv, M.Enabled;
    match a
    case CallClear(c) => ClearsHeldId(s, c + 1, s.mux.calls[c].stream);
    case ReceiverClear => ClearsHeldId(s, 0, s.mux.calls[s.mux.recv.call].stream);
    case _ =>
  }

  /** With the words underneath, in every run the set bits are the multiplexer's streams in use,
      "negative streams inuse" does not happen, and the next step calls Clear only on a held id. */
  lemma NoNegativeStreams(protocol: int, deadline: bool, actions: seq<Action>, a: Action)
    requires Legal(Init(protocol, deadline), actions)
    ensures var s := RunFrom(Init(protocol, deadline), actions); !s.ids.panicked && InUse(s.ids.words) == s.mux.used
    ensures var s := RunFrom(Init(protocol, deadline), actions);
      && (Enabled(s, a) && a.CallClear? ==> s.mux.calls[a.c].stream in s.ids.held)
      && (Enabled(s, a) && a.ReceiverClear? ==> s.mux.calls[s.mux.recv.call].stream in s.ids.held)
  {
    hide Mux.Inv, M.Step, M.Enabled, InUse, Step;
    InitInv(protocol, deadline);
    var _ := IsMuxRun(Init(protocol, deadline), actions);
    var s := RunFrom(Init(protocol, deadline), actions);
    if Enabled(s, a) {
      ClearOnHeld(s, a);
    }
  }
}
