// Runs of GetStream: it gives up only if no id was free all the while, and searches begin in turn.
module StreamIdsRuns {
  import opened StreamBits
  import opened StreamIds

  /** The k-th word a search from `start` looks at. */
  function WordAt(start: nat, k: nat, n: nat): nat
    requires n > 0
  {
    (k + start) % n
  }

  /** The word at `bucket` is none of the first i that a search from `start` looks at. */
  predicate Unseen(start: nat, i: nat, n: nat, bucket: nat)
    requires n > 0
  {
    forall k: nat :: k < i ==> WordAt(start, k, n) != bucket
  }

  /** The search has not passed the bit of id f. */
  predicate Ahead(pc: Pc, n: nat, f: nat)
    requires n > 0
  {
    var bucket, slot := BucketOffset(f), SlotOf(f);
    match pc
    case LoadWord(start, i) => Unseen(start, i, n, bucket)
    case TryBit(start, i, j, word) =>
      && Unseen(start, i, n, bucket)
      && (WordAt(start, i, n) == bucket ==> j <= slot && MaskFree(word, StreamOffset(slot)))
    case ReloadWord(start, i, j) => Unseen(start, i, n, bucket) && (WordAt(start, i, n) == bucket ==> j <= slot)
    case _ => true
  }

  lemma FreeMask(words: seq<bv64>, f: nat)
    requires f < Capacity(words) && f !in InUse(words)
    ensures words[BucketOffset(f)] != ALL_ONES && MaskFree(words[BucketOffset(f)], StreamOffset(SlotOf(f)))
  {
    FullWord(StreamOffset(SlotOf(f)));
    TestWord(words[BucketOffset(f)], StreamOffset(SlotOf(f)));
  }

  lemma LoadAhead(s: State, t: nat, f: nat, start: nat, i: nat)
    requires Shape(s) && s.Pc(t) == LoadWord(start, i) && i <= |s.words| && Ahead(s.Pc(t), |s.words|, f)
    requires f < Capacity(s.words) && f !in InUse(s.words)
    ensures Ahead(RunStep(s, t).Pc(t), |s.words|, f)
  {
    FreeMask(s.words, f);
    hide MaskFree, MaskTaken, InUse, StreamOffset, SetStream, ClearStream, WfPc;
    assert WordAt(start, i, |s.words|) == (i + start) % |s.words|;
    hide WordAt;
  }

  lemma TryAhead(s: State, t: nat, f: nat, start: nat, i: nat, j: nat, word: bv64)
    requires Shape(s) && s.Pc(t) == TryBit(start, i, j, word) && i < |s.words| && j <= BUCKET_BITS
    requires Ahead(s.Pc(t), |s.words|, f)
    ensures Ahead(RunStep(s, t).Pc(t), |s.words|, f)
  {
    hide MaskFree, MaskTaken, InUse, StreamOffset, SetStream, ClearStream, WfPc, WordAt;
  }

  lemma ReloadAhead(s: State, t: nat, f: nat, start: nat, i: nat, j: nat)
    requires Shape(s) && s.Pc(t) == ReloadWord(start, i, j) && i < |s.words| && Ahead(s.Pc(t), |s.words|, f)
    requires f < Capacity(s.words) && f !in InUse(s.words)
    ensures Ahead(RunStep(s, t).Pc(t), |s.words|, f)
  {
    FreeMask(s.words, f);
    hide MaskFree, MaskTaken, InUse, StreamOffset, SetStream, ClearStream, WfPc;
    assert WordAt(start, i, |s.words|) == (i + start) % |s.words|;
    hide WordAt;
  }

  lemma OwnStep(s: State, t: nat, f: nat)
    requires Shape(s) && !s.Pc(t).Idle? && Ahead(s.Pc(t), |s.words|, f)
    requires f < Capacity(s.words) && f !in InUse(s.words)
    ensures Ahead(RunStep(s, t).Pc(t), |s.words|, f)
  {
    assert WfPc(s.pcs[t], |s.words|);
    hide MaskFree, MaskTaken, InUse, StreamOffset, SetStream, ClearStream, Unseen, Shape;
    match s.pcs[t]
    case LoadOffset =>
    case CasOffset(seen) => NoneSeen((seen + 1) % |s.words|, |s.words|, BucketOffset(f));
    case LoadWord(start, i) => LoadAhead(s, t, f, start, i);
    case TryBit(start, i, j, word) => TryAhead(s, t, f, start, i, j, word);
    case ReloadWord(start, i, j) => ReloadAhead(s, t, f, start, i, j);
    case CountUp(_) =>
    case ClearLoad(_) =>
    case ClearCas(_, _) =>
    case CountDown =>
  }

  lemma NoneSeen(start: nat, n: nat, bucket: nat)
    requires n > 0
    ensures Unseen(start, 0, n, bucket)
  {
  }

  lemma RunLeaves(s: State, u: nat, t: nat)
    requires Shape(s) && !s.Pc(u).Idle?
    ensures |RunStep(s, u).words| == |s.words| && (u != t ==> RunStep(s, u).Pc(t) == s.Pc(t))
  {
    hide MaskFree, MaskTaken, StreamOffset;
    assert WfPc(s.pcs[u], |s.words|);
    match s.pcs[u]
    case LoadOffset =>
    case CasOffset(_) =>
    case LoadWord(_, _) =>
    case TryBit(_, _, _, _) =>
    case ReloadWord(_, _, _) =>
    case CountUp(_) =>
    case ClearLoad(_) =>
    case ClearCas(_, _) =>
    case CountDown =>
  }

  lemma StepAhead(s: State, a: Action, t: nat, f: nat)
    requires Shape(s) && Enabled(s, a) && Ahead(s.Pc(t), |s.words|, f)
    requires f < Capacity(s.words) && f !in InUse(s.words)
    ensures |Apply(s, a).words| == |s.words| && Ahead(Apply(s, a).Pc(t), |s.words|, f)
  {
    hide Ahead, InUse, RunStep, Shape;
    match a
    case StartGet(_) => Starting(LoadOffset, |s.words|, f);
    case StartClear(_, id) => Starting(ClearLoad(id), |s.words|, f);
    case Run(u) =>
      RunLeaves(s, u, t);
      if u == t {
        OwnStep(s, t, f);
      }
  }

  lemma Starting(pc: Pc, n: nat, f: nat)
    requires n > 0 && (pc.LoadOffset? || pc.ClearLoad?)
    ensures Ahead(pc, n, f)
  {
  }

  /** Id f is in nobody's hands at any time of the run. */
  predicate FreeAllAlong(s: State, actions: seq<Action>, f: nat)
    requires Legal(s, actions)
    decreases |actions|
  {
    f !in InUse(s.words) && (actions == [] || FreeAllAlong(Apply(s, actions[0]), actions[1..], f))
  }

  lemma {:induction false} RunAhead(s: State, actions: seq<Action>, t: nat, f: nat)
    requires Inv(s) && Legal(s, actions) && Ahead(s.Pc(t), |s.words|, f) && f < Capacity(s.words)
    requires FreeAllAlong(s, actions, f)
    ensures |Exec(s, actions).words| == |s.words| && Ahead(Exec(s, actions).Pc(t), |s.words|, f)
    decreases |actions|
  {
    hide InUse, Ahead, Apply, Enabled;
    if actions != [] {
      StepInv(s, actions[0]);
      StepAhead(s, actions[0], t, f);
      RunAhead(Apply(s, actions[0]), actions[1..], t, f);
    }
  }

  lemma Around(q: int, r: int, n: int)
    requires 0 <= r < n
    ensures (q * n + r) % n == r
  {
    var x := q * n + r;
    var d := x / n - q;
    assert d * n == r - x % n;
    assert d >= 1 ==> d * n >= n;
    assert d <= -1 ==> d * n <= -n;
  }

  /** Going round once, every word is looked at. */
  lemma EveryWordSeen(start: nat, n: nat, bucket: nat)
    requires bucket < n
    ensures !Unseen(start, n, n, bucket)
  {
    var q, r := start / n, start % n;
    assert start == q * n + r;
    var k: nat := if bucket >= r then bucket - r else bucket + n - r;
    var m := if bucket >= r then q else q + 1;
    assert k + start == m * n + bucket;
    Around(m, bucket, n);
    assert WordAt(start, k, n) == bucket;
  }

  /** In GetStream, without an id so far. */
  predicate Looking(pc: Pc) {
    pc.LoadOffset? || pc.CasOffset? || pc.LoadWord? || pc.TryBit? || pc.ReloadWord?
  }

  lemma GivesUp(s: State, t: nat)
    requires Shape(s) && Looking(s.Pc(t)) && RunStep(s, t).Pc(t).Idle?
    ensures s.Pc(t).LoadWord? && s.Pc(t).i == |s.words|
  {
    hide MaskFree, MaskTaken, StreamOffset, SetStream, ClearStream;
    assert WfPc(s.pcs[t], |s.words|);
  }

  /** However calls interleave, a GetStream that started during the run does not return without an id if
      some id was free all along. */
  lemma FailsOnlyWhenFull(s: State, actions: seq<Action>, t: nat, f: nat)
    requires Inv(s) && s.Pc(t).Idle? && Legal(s, actions) && f < Capacity(s.words)
    requires FreeAllAlong(s, actions, f)
    ensures var now := Exec(s, actions); Shape(now) && (Looking(now.Pc(t)) ==> !RunStep(now, t).Pc(t).Idle?)
  {
    hide InUse, Apply, Enabled, RunStep;
    ExecInv(s, actions);
    RunAhead(s, actions, t, f);
    var now := Exec(s, actions);
    if Looking(now.Pc(t)) && RunStep(now, t).Pc(t).Idle? {
      GivesUp(now, t);
      EveryWordSeen(now.Pc(t).start, |s.words|, BucketOffset(f));
    }
  }

  // ---------------------------------------------------------------- where searches begin

  predicate Begins(s: State, a: Action)
    requires Shape(s) && Enabled(s, a)
  {
    a.Run? && s.Pc(a.t).CasOffset? && Apply(s, a).Pc(a.t).LoadWord?
  }

  /** The words at which the searches of a run begin, in order. */
  function Starts(s: State, actions: seq<Action>): seq<nat>
    requires Legal(s, actions)
    decreases |actions|
  {
    if actions == [] then []
    else
      var next := Apply(s, actions[0]);
      (if Begins(s, actions[0]) then [next.Pc(actions[0].t).start] else []) + Starts(next, actions[1..])
  }

  /** The word after x, counted round n of them. */
  function After(x: nat, n: nat): nat {
    if x + 1 == n then 0 else x + 1
  }

  lemma AfterIs(x: nat, n: nat)
    requires x < n
    ensures (x + 1) % n == After(x, n)
  {
  }

  lemma BeginsAt(s: State, a: Action)
    requires Shape(s) && Enabled(s, a)
    ensures var next, n := Apply(s, a), |s.words|;
      && |next.words| == n && next.offset < n
      && next.offset == (if Begins(s, a) then After(s.offset, n) else s.offset)
      && (Begins(s, a) ==> next.Pc(a.t).start == next.offset)
  {
    hide MaskFree, MaskTaken, StreamOffset, Mask, After;
    AfterIs(s.offset, |s.words|);
  }

  lemma {:induction false} StartsRun(s: State, actions: seq<Action>, k: nat)
    requires s.offset < |s.words| && Legal(s, actions) && k < |Starts(s, actions)|
    ensures Starts(s, actions)[k] == After(if k == 0 then s.offset else Starts(s, actions)[k - 1], |s.words|)
    decreases |actions|
  {
    hide Apply, Enabled, Begins, Shape;
    var a, next := actions[0], Apply(s, actions[0]);
    BeginsAt(s, a);
    if !Begins(s, a) {
      StartsRun(next, actions[1..], k);
    } else if k > 0 {
      StartsRun(next, actions[1..], k - 1);
    }
  }

  /** In every run the first search begins at the first word and each other one at the word after the one
      before it began at. */
  lemma SearchesTakeTurns(protocol: int, actions: seq<Action>, k: nat)
    requires Legal(New(protocol), actions) && k < |Starts(New(protocol), actions)|
    ensures var starts, n := Starts(New(protocol), actions), if protocol > 2 then 512 else 2;
      starts[k] == if k == 0 || starts[k - 1] == n - 1 then 0 else starts[k - 1] + 1
  {
    hide Starts, Legal;
    NewInv(protocol);
    StartsRun(New(protocol), actions, k);
  }
}
