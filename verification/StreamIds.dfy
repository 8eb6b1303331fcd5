// The lock-free stream id allocator of internal/streams as a transition system:
// any number of goroutines run GetStream and Clear, and every atomic load,
// compare-and-swap and counter update is one step.
module StreamIds {
  import opened StreamBits

  /** Where a goroutine stands: the next atomic action it will perform. */
  datatype Pc =
    | Idle
    | LoadOffset
    | CasOffset(seen: nat)
    | LoadWord(start: nat, i: nat)
    | TryBit(start: nat, i: nat, j: nat, bucket: bv64)
    | ReloadWord(start: nat, i: nat, j: nat)
    | CountUp(id: nat)
    | ClearLoad(id: nat)
    | ClearCas(id: nat, bucket: bv64)
    | CountDown

  /** `held` are the ids GetStream has returned and nobody has passed to Clear yet. */
  datatype State = State(
    words: seq<bv64>, offset: nat, inuse: int,
    pcs: map<nat, Pc>, held: set<nat>, panicked: bool)
  {
    function Pc(t: nat): Pc {
      if t in pcs then pcs[t] else Idle
    }

    function At(t: nat, pc: Pc): State {
      this.(pcs := pcs[t := pc])
    }
  }

  datatype Action = StartGet(t: nat) | StartClear(t: nat, id: nat) | Run(t: nat)

  function New(protocol: int): State {
    var maxStreams := if protocol > 2 then 32768 else 128;
    var buckets := maxStreams / BUCKET_BITS;
    State(FreshWords(buckets), buckets - 1, 0, map[], {}, false)
  }

  predicate WfPc(pc: Pc, buckets: nat) {
    match pc
    case CasOffset(seen) => seen < buckets
    case LoadWord(start, i) => i <= buckets
    case TryBit(start, i, j, _) => i < buckets && j <= BUCKET_BITS
    case ReloadWord(start, i, j) => i < buckets && j < BUCKET_BITS
    case CountUp(id) => 0 < id < buckets * BUCKET_BITS
    case ClearLoad(id) => 0 < id < buckets * BUCKET_BITS
    case ClearCas(id, _) => 0 < id < buckets * BUCKET_BITS
    case _ => true
  }

  predicate Shape(s: State) {
    && |s.words| > 0
    && s.offset < |s.words|
    && (forall t :: t in s.pcs ==> WfPc(s.pcs[t], |s.words|))
    && (forall id :: id in s.held ==> 0 < id < Capacity(s.words))
  }

  /** A goroutine that is not running may call GetStream, or Clear on an id that was handed out. */
  predicate Enabled(s: State, a: Action) {
    match a
    case StartGet(t) => s.Pc(t).Idle?
    case StartClear(t, id) => s.Pc(t).Idle? && id in s.held
    case Run(t) => !s.Pc(t).Idle?
  }

  function Apply(s: State, a: Action): State
    requires Shape(s) && Enabled(s, a)
  {
    match a
    case StartGet(t) => s.At(t, LoadOffset)
    case StartClear(t, id) => s.(held := s.held - {id}).At(t, ClearLoad(id))
    case Run(t) => RunStep(s, t)
  }

  function RunStep(s: State, t: nat): State
    requires Shape(s) && !s.Pc(t).Idle?
  {
    var n := |s.words|;
    match s.pcs[t]
    case LoadOffset => s.At(t, CasOffset(s.offset))
    case CasOffset(seen) =>
      if s.offset == seen
      then s.(offset := (seen + 1) % n).At(t, LoadWord((seen + 1) % n, 0))
      else s.At(t, LoadOffset)
    case LoadWord(start, i) =>
      if i == n then s.At(t, Idle) // every word was full: returns (0, false)
      else if s.words[(i + start) % n] == ALL_ONES then s.At(t, LoadWord(start, i + 1))
      else s.At(t, TryBit(start, i, 0, s.words[(i + start) % n]))
    case TryBit(start, i, j, bucket) =>
      if j == BUCKET_BITS then s.At(t, LoadWord(start, i + 1))
      else if !MaskFree(bucket, StreamOffset(j)) then s.At(t, TryBit(start, i, j + 1, bucket))
      else if s.words[(i + start) % n] == bucket then
        var id := StreamFromBucket((i + start) % n, j);
        s.(words := SetStream(s.words, id)).At(t, CountUp(id))
      else s.At(t, ReloadWord(start, i, j))
    case ReloadWord(start, i, j) => s.At(t, TryBit(start, i, j, s.words[(i + start) % n]))
    case CountUp(id) => s.(inuse := s.inuse + 1, held := s.held + {id}).At(t, Idle)
    case ClearLoad(id) =>
      var bucket := s.words[BucketOffset(id)];
      if !MaskTaken(bucket, StreamOffset(SlotOf(id))) then s.At(t, Idle) // already cleared: returns false
      else s.At(t, ClearCas(id, bucket))
    case ClearCas(id, bucket) =>
      if s.words[BucketOffset(id)] == bucket
      then s.(words := ClearStream(s.words, id)).At(t, CountDown)
      else s.At(t, ClearLoad(id))
    case CountDown =>
      s.(inuse := s.inuse - 1, panicked := s.panicked || s.inuse - 1 < 0).At(t, Idle)
    case Idle => s
  }

  // ---------------------------------------------------------------- invariant

  /** The id a goroutine answers for between changing hands and changing the bit. */
  function Claim(pc: Pc): set<nat> {
    match pc
    case CountUp(id) => {id}
    case ClearLoad(id) => {id}
    case ClearCas(id, _) => {id}
    case _ => {}
  }

  type Pcs = map<nat, Pc>

  function PcAt(pcs: Pcs, t: nat): Pc {
    if t in pcs then pcs[t] else Idle
  }

  function Claims(pcs: Pcs): set<nat> {
    set t, id | t in pcs && id in Claim(pcs[t]) :: id
  }

  /** Goroutines that set a bit and have not counted it yet. */
  function Ups(pcs: Pcs): set<nat> {
    set t | t in pcs && pcs[t].CountUp?
  }

  /** Goroutines that cleared a bit and have not counted it yet. */
  function Downs(pcs: Pcs): set<nat> {
    set t | t in pcs && pcs[t].CountDown?
  }

  predicate ClaimsDiffer(pcs: Pcs) {
    forall t, u :: t in pcs && u in pcs && t != u ==> Claim(pcs[t]) !! Claim(pcs[u])
  }

  /** A bit is on exactly when its id is reserved, held, or claimed by one goroutine. */
  predicate Owned(used: set<nat>, held: set<nat>, pcs: Pcs) {
    && used == {0} + held + Claims(pcs)
    && 0 !in held && 0 !in Claims(pcs) && held !! Claims(pcs)
    && ClaimsDiffer(pcs)
  }

  /** The counter is right up to the updates still to come. */
  predicate Counted(used: set<nat>, pcs: Pcs, count: int) {
    count == |used| - 1 - |Ups(pcs)| + |Downs(pcs)|
  }

  predicate Inv(s: State) {
    && Shape(s)
    && Owned(InUse(s.words), s.held, s.pcs)
    && Counted(InUse(s.words), s.pcs, s.inuse)
    && !s.panicked
  }

  lemma NewInv(protocol: int)
    ensures Inv(New(protocol))
    ensures Capacity(New(protocol).words) == if protocol > 2 then 32768 else 128
  {
    FreshInUse(|New(protocol).words|);
  }

  /** Distinct goroutines about to count up claim distinct ids. */
  lemma ClaimsFit(pcs: Pcs, ts: set<nat>, ids: set<nat>)
    requires ts <= Ups(pcs) && ClaimsDiffer(pcs)
    requires forall t :: t in ts ==> pcs[t].id in ids
    ensures |ts| <= |ids|
    decreases ts
  {
    if ts != {} {
      var t :| t in ts;
      forall u | u in ts - {t}
        ensures pcs[u].id in ids - {pcs[t].id}
      {
        assert Claim(pcs[t]) !! Claim(pcs[u]);
      }
      ClaimsFit(pcs, ts - {t}, ids - {pcs[t].id});
    }
  }

  /** The counter covers every pending decrement, so the panic in Clear cannot fire. */
  lemma CounterBound(used: set<nat>, held: set<nat>, pcs: Pcs, count: int)
    requires Owned(used, held, pcs) && Counted(used, pcs, count)
    ensures |Downs(pcs)| <= count < |used| + |Downs(pcs)|
  {
    forall t | t in Ups(pcs)
      ensures pcs[t].id in used - {0}
    {
      assert pcs[t].id in Claim(pcs[t]);
    }
    ClaimsFit(pcs, Ups(pcs), used - {0});
  }

  // ---------------------------------------------------------------- steps

  /** How a pc change moves the claims. */
  lemma ClaimsAfter(pcs: Pcs, t: nat, pc: Pc)
    requires ClaimsDiffer(pcs)
    requires Claim(pc) <= Claim(PcAt(pcs, t)) || Claim(pc) !! Claims(pcs)
    ensures Claims(pcs[t := pc]) == Claims(pcs) - Claim(PcAt(pcs, t)) + Claim(pc)
    ensures Claim(PcAt(pcs, t)) <= Claims(pcs)
    ensures ClaimsDiffer(pcs[t := pc])
  {
    var pcs' := pcs[t := pc];
    forall id | id in Claims(pcs) - Claim(PcAt(pcs, t)) + Claim(pc)
      ensures id in Claims(pcs')
    {
      if id in Claim(pc) {
        assert t in pcs' && id in Claim(pcs'[t]);
      } else {
        var u :| u in pcs && id in Claim(pcs[u]);
        assert u in pcs' && id in Claim(pcs'[u]);
      }
    }
    forall id | id in Claims(pcs')
      ensures id in Claims(pcs) - Claim(PcAt(pcs, t)) + Claim(pc)
    {
      var u :| u in pcs' && id in Claim(pcs'[u]);
      if u != t {
        assert u in pcs && id in Claim(pcs[u]);
      }
    }
    forall u | u in pcs && u != t
      ensures Claim(pc) !! Claim(pcs[u])
    {
      assert forall id :: id in Claim(pcs[u]) ==> id in Claims(pcs);
    }
  }

  function One(b: bool): int {
    if b then 1 else 0
  }

  /** The counter stays right when it moves with the bits and the pending updates. */
  lemma CountedAfter(used: set<nat>, pcs: Pcs, count: int, t: nat, pc: Pc, used': set<nat>, count': int)
    requires Counted(used, pcs, count)
    requires count' - count == |used'| - |used| - One(pc.CountUp?) + One(PcAt(pcs, t).CountUp?)
                               + One(pc.CountDown?) - One(PcAt(pcs, t).CountDown?)
    ensures Counted(used', pcs[t := pc], count')
  {
    assert Ups(pcs[t := pc]) - {t} == Ups(pcs) - {t};
    assert Downs(pcs[t := pc]) - {t} == Downs(pcs) - {t};
    Without(Ups(pcs), t);
    Without(Ups(pcs[t := pc]), t);
    Without(Downs(pcs), t);
    Without(Downs(pcs[t := pc]), t);
  }

  lemma Without(ts: set<nat>, t: nat)
    ensures |ts - {t}| == |ts| - One(t in ts)
  {
  }

  /** A step that changes neither the bits nor the claim of its goroutine. */
  lemma QuietStep(used: set<nat>, held: set<nat>, pcs: Pcs, count: int, t: nat, pc: Pc)
    requires Owned(used, held, pcs) && Counted(used, pcs, count) && Claim(pc) == Claim(PcAt(pcs, t))
    requires PcAt(pcs, t).CountUp? == pc.CountUp? && PcAt(pcs, t).CountDown? == pc.CountDown?
    ensures Owned(used, held, pcs[t := pc]) && Counted(used, pcs[t := pc], count)
  {
    hide Claims, ClaimsDiffer, Counted;
    ClaimsAfter(pcs, t, pc);
    assert Claims(pcs[t := pc]) == Claims(pcs);
    CountedAfter(used, pcs, count, t, pc, used, count);
  }

  /** GetStream's successful compare-and-swap claims an id nobody owned. */
  lemma TakeStep(used: set<nat>, held: set<nat>, pcs: Pcs, count: int, t: nat, id: nat)
    requires Owned(used, held, pcs) && Counted(used, pcs, count) && id !in used
    requires Claim(PcAt(pcs, t)) == {} && !PcAt(pcs, t).CountDown?
    ensures Owned(used + {id}, held, pcs[t := CountUp(id)]) && Counted(used + {id}, pcs[t := CountUp(id)], count)
    ensures id != 0
  {
    hide Claims, ClaimsDiffer, Counted;
    ClaimsAfter(pcs, t, CountUp(id));
    CountedAfter(used, pcs, count, t, CountUp(id), used + {id}, count);
  }

  lemma MoveToHeld(used: set<nat>, held: set<nat>, claims: set<nat>, id: nat)
    requires used == {0} + held + claims && held !! claims && id in claims && 0 !in claims
    ensures used == {0} + (held + {id}) + (claims - {id})
    ensures held + {id} !! claims - {id}
  {
  }

  /** GetStream's counter update hands the claimed id to the caller, who did not have it. */
  lemma HandOver(used: set<nat>, held: set<nat>, pcs: Pcs, count: int, t: nat, id: nat)
    requires Owned(used, held, pcs) && Counted(used, pcs, count) && PcAt(pcs, t) == CountUp(id)
    ensures Owned(used, held + {id}, pcs[t := Idle]) && Counted(used, pcs[t := Idle], count + 1)
    ensures id !in held && id != 0
  {
    hide Claims, ClaimsDiffer, Counted;
    ClaimsAfter(pcs, t, Idle);
    MoveToHeld(used, held, Claims(pcs), id);
    assert Claims(pcs[t := Idle]) == Claims(pcs) - {id};
    CountedAfter(used, pcs, count, t, Idle, used, count + 1);
  }

  /** Calling Clear turns a held id into a claim. */
  lemma TakeBack(used: set<nat>, held: set<nat>, pcs: Pcs, count: int, t: nat, id: nat)
    requires Owned(used, held, pcs) && Counted(used, pcs, count) && PcAt(pcs, t).Idle? && id in held
    ensures Owned(used, held - {id}, pcs[t := ClearLoad(id)]) && Counted(used, pcs[t := ClearLoad(id)], count)
  {
    hide Claims, ClaimsDiffer, Counted;
    ClaimsAfter(pcs, t, ClearLoad(id));
    CountedAfter(used, pcs, count, t, ClearLoad(id), used, count);
  }

  /** Clear's successful compare-and-swap gives up the claimed id. */
  lemma DropStep(used: set<nat>, held: set<nat>, pcs: Pcs, count: int, t: nat, id: nat)
    requires Owned(used, held, pcs) && Counted(used, pcs, count) && PcAt(pcs, t).ClearCas? && PcAt(pcs, t).id == id
    ensures Owned(used - {id}, held, pcs[t := CountDown]) && Counted(used - {id}, pcs[t := CountDown], count)
  {
    hide Claims, ClaimsDiffer, Counted;
    ClaimsAfter(pcs, t, CountDown);
    CountedAfter(used, pcs, count, t, CountDown, used - {id}, count);
  }

  /** The decrement of Clear finds the counter positive. */
  lemma FinishClear(used: set<nat>, held: set<nat>, pcs: Pcs, count: int, t: nat)
    requires Owned(used, held, pcs) && Counted(used, pcs, count) && PcAt(pcs, t).CountDown?
    ensures count >= 1
    ensures Owned(used, held, pcs[t := Idle]) && Counted(used, pcs[t := Idle], count - 1)
  {
    hide Claims, ClaimsDiffer, Counted;
    CounterBound(used, held, pcs, count);
    assert t in Downs(pcs);
    ClaimsAfter(pcs, t, Idle);
    assert Claims(pcs[t := Idle]) == Claims(pcs);
    CountedAfter(used, pcs, count, t, Idle, used, count - 1);
  }

  lemma StepInv(s: State, a: Action)
    requires Inv(s) && Enabled(s, a)
    ensures Inv(Apply(s, a))
  {
    hide Owned, Counted;
    match a
    case StartGet(t) => QuietStep(InUse(s.words), s.held, s.pcs, s.inuse, t, LoadOffset);
    case StartClear(t, id) => TakeBack(InUse(s.words), s.held, s.pcs, s.inuse, t, id);
    case Run(t) => RunInv(s, t);
  }

  lemma RunInv(s: State, t: nat)
    requires Inv(s) && !s.Pc(t).Idle?
    ensures Inv(RunStep(s, t))
  {
    hide Owned, Counted, InUse;
    var used := InUse(s.words);
    match s.pcs[t]
    case TryBit(_, _, _, _) => TryInv(s, t);
    case CountUp(id) => HandOver(used, s.held, s.pcs, s.inuse, t, id);
    case ClearLoad(id) => ClearLoadInv(s, t, id);
    case ClearCas(id, bucket) =>
      if s.words[BucketOffset(id)] == bucket {
        ClearRemoves(s.words, id);
        DropStep(used, s.held, s.pcs, s.inuse, t, id);
      } else {
        QuietStep(used, s.held, s.pcs, s.inuse, t, ClearLoad(id));
      }
    case CountDown => FinishClear(used, s.held, s.pcs, s.inuse, t);
    case LoadOffset => QuietStep(used, s.held, s.pcs, s.inuse, t, RunStep(s, t).pcs[t]);
    case CasOffset(_) => QuietStep(used, s.held, s.pcs, s.inuse, t, RunStep(s, t).pcs[t]);
    case LoadWord(_, _) => QuietStep(used, s.held, s.pcs, s.inuse, t, RunStep(s, t).pcs[t]);
    case ReloadWord(_, _, _) => QuietStep(used, s.held, s.pcs, s.inuse, t, RunStep(s, t).pcs[t]);
  }

  lemma TryInv(s: State, t: nat)
    requires Inv(s) && s.Pc(t).TryBit?
    ensures Inv(RunStep(s, t))
  {
    hide Owned, Counted, InUse, MaskFree;
    var TryBit(start, i, j, bucket) := s.pcs[t];
    var pos := (i + start) % |s.words|;
    if j < BUCKET_BITS && MaskFree(bucket, StreamOffset(j)) && s.words[pos] == bucket {
      var id := StreamFromBucket(pos, j);
      FreeSlot(s.words, pos, j);
      SetAdds(s.words, id);
      TakeStep(InUse(s.words), s.held, s.pcs, s.inuse, t, id);
    } else {
      QuietStep(InUse(s.words), s.held, s.pcs, s.inuse, t, RunStep(s, t).pcs[t]);
    }
  }

  /** Clear on an id it owns never finds the bit already cleared. */
  lemma ClearLoadInv(s: State, t: nat, id: nat)
    requires Inv(s) && s.Pc(t) == ClearLoad(id)
    ensures RunStep(s, t).Pc(t).ClearCas? && Inv(RunStep(s, t))
  {
    hide ClaimsDiffer, Counted, MaskTaken;
    assert id in Claim(s.pcs[t]);
    assert id in InUse(s.words);
    TestWord(s.words[BucketOffset(id)], StreamOffset(SlotOf(id)));
    QuietStep(InUse(s.words), s.held, s.pcs, s.inuse, t, ClearCas(id, s.words[BucketOffset(id)]));
  }

  // ---------------------------------------------------------------- every run

  function Exec(s: State, actions: seq<Action>): (r: State)
    requires Legal(s, actions)
    decreases |actions|
  {
    if actions == [] then s else Exec(Apply(s, actions[0]), actions[1..])
  }

  /** Each action of the sequence is possible where it happens. */
  predicate Legal(s: State, actions: seq<Action>)
    decreases |actions|
  {
    actions == [] || (Shape(s) && Enabled(s, actions[0]) && Legal(Apply(s, actions[0]), actions[1..]))
  }

  lemma {:induction false} ExecInv(s: State, actions: seq<Action>)
    requires Inv(s) && Legal(s, actions)
    ensures Inv(Exec(s, actions))
    decreases |actions|
  {
    if actions != [] {
      StepInv(s, actions[0]);
      ExecInv(Apply(s, actions[0]), actions[1..]);
    }
  }

  lemma {:induction false} ExecKeepsSize(s: State, actions: seq<Action>)
    requires Legal(s, actions)
    ensures |Exec(s, actions).words| == |s.words|
    decreases |actions|
  {
    if actions != [] {
      ExecKeepsSize(Apply(s, actions[0]), actions[1..]);
    }
  }

  /** Ids in somebody's hands are in range, marked in the words, and in one hand only. */
  predicate OneHolder(s: State, numStreams: nat) {
    && (forall id :: id in s.held ==> 1 <= id < numStreams && id in InUse(s.words))
    && (forall t, id :: t in s.pcs && id in Claim(s.pcs[t])
          ==> 1 <= id < numStreams && id in InUse(s.words) && id !in s.held)
    && (forall t, u :: t in s.pcs && u in s.pcs && t != u ==> Claim(s.pcs[t]) !! Claim(s.pcs[u]))
  }

  /** However the steps of any number of GetStream and Clear calls interleave: ids are in
      range, no id has two holders, the counter is exact up to the updates still to come,
      and "negative streams inuse" does not happen. */
  lemma EveryRunIsSafe(protocol: int, actions: seq<Action>)
    requires Legal(New(protocol), actions)
    ensures var s := Exec(New(protocol), actions);
            && OneHolder(s, if protocol > 2 then 32768 else 128)
            && |InUse(s.words)| - 1 == s.inuse + |Ups(s.pcs)| - |Downs(s.pcs)|
            && |Downs(s.pcs)| <= s.inuse
            && !s.panicked
  {
    hide Legal, Exec, InUse, New, Shape, Owned, OneHolder;
    NewInv(protocol);
    ExecInv(New(protocol), actions);
    ExecKeepsSize(New(protocol), actions);
    var s := Exec(New(protocol), actions);
    CounterBound(InUse(s.words), s.held, s.pcs, s.inuse);
    InvOneHolder(s);
  }

  lemma InvOneHolder(s: State)
    requires Inv(s)
    ensures OneHolder(s, Capacity(s.words))
  {
    hide InUse, Counted;
    forall t, id | t in s.pcs && id in Claim(s.pcs[t])
      ensures id in InUse(s.words) && id !in s.held && 1 <= id < Capacity(s.words)
    {
      assert id in Claims(s.pcs);
    }
  }

  // ---------------------------------------------------------------- refinement

  /** What one step does to the set of ids in use. */
  datatype Effect = Stutter | Acquire(id: nat) | Release(id: nat)

  predicate Permits(used: set<nat>, e: Effect) {
    match e
    case Stutter => true
    case Acquire(id) => id !in used
    case Release(id) => id in used && id != 0
  }

  function Effected(used: set<nat>, e: Effect): set<nat> {
    match e
    case Stutter => used
    case Acquire(id) => used + {id}
    case Release(id) => used - {id}
  }

  function EffectOf(s: State, a: Action): Effect
    requires Shape(s) && Enabled(s, a)
  {
    if !a.Run? then Stutter
    else
      var s' := Apply(s, a);
      match (s.pcs[a.t], s'.pcs[a.t])
      case (TryBit(_, _, _, _), CountUp(id)) => Acquire(id)
      case (ClearCas(id, _), CountDown) => Release(id)
      case _ => Stutter
  }

  /** The lock-free words refine an atomic set of ids: every step is one atomic acquire of a
      free id, one atomic release of a used one, or changes nothing a caller could see. */
  lemma StepRefinesSet(s: State, a: Action)
    requires Inv(s) && Enabled(s, a)
    ensures Permits(InUse(s.words), EffectOf(s, a))
    ensures InUse(Apply(s, a).words) == Effected(InUse(s.words), EffectOf(s, a))
  {
    hide Counted, InUse, ClaimsDiffer;
    if a.Run? {
      match s.pcs[a.t]
      case TryBit(start, i, j, bucket) =>
        var pos := (i + start) % |s.words|;
        if j < BUCKET_BITS && MaskFree(bucket, StreamOffset(j)) && s.words[pos] == bucket {
          FreeSlot(s.words, pos, j);
          SetAdds(s.words, StreamFromBucket(pos, j));
        }
      case ClearCas(id, bucket) =>
        assert id in Claim(s.pcs[a.t]);
        ClearRemoves(s.words, id);
      case _ =>
    }
  }
}
