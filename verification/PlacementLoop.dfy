// networkTopology.replicaMap as it runs: Go maps updated in place, an early exit, and the
// guards that return an empty map. It computes Placement.ReplicaMap, and no guard fires.
module PlacementLoop {
  import opened Ring
  import opened DcPlacement
  import opened Placement
  import Compaction

  // ---------------------------------------------------------------- the early exit is harmless

  /** Every datacenter has its replicas. */
  ghost predicate Full(dcs: Factors, w: Walk) {
    forall dc :: dc in dcs ==> |w.Of(dc).picked| >= dcs[dc]
  }

  lemma FullStays(dcs: Factors, racks: RackMap, w: Walk, h: Host)
    requires Full(dcs, w)
    ensures Compaction.Alike(Step(dcs, racks, w, h), w)
  {
  }

  lemma {:induction false} RestIsIdle(dcs: Factors, racks: RackMap, hs: seq<Host>, n: nat)
    requires n <= |hs| && Full(dcs, WalkAll(dcs, racks, hs[..n]))
    ensures Compaction.Alike(WalkAll(dcs, racks, hs), WalkAll(dcs, racks, hs[..n]))
  {
    hide Step;
    if n == |hs| {
      assert hs[..n] == hs;
    } else {
      var before := hs[..|hs| - 1];
      assert before[..n] == hs[..n];
      RestIsIdle(dcs, racks, before, n);
      assert Full(dcs, WalkAll(dcs, racks, before));
      FullStays(dcs, racks, WalkAll(dcs, racks, before), hs[|hs| - 1]);
    }
  }

  ghost function SumRf(ds: set<string>, dcs: Factors): nat
    requires ds <= dcs.Keys
  {
    if ds == {} then 0 else var d :| d in ds; dcs[d] + SumRf(ds - {d}, dcs)
  }

  lemma {:induction false} SumRemove(ds: set<string>, dcs: Factors, d: string)
    requires ds <= dcs.Keys && d in ds
    ensures SumRf(ds, dcs) == dcs[d] + SumRf(ds - {d}, dcs)
    decreases ds
  {
    var e :| e in ds && SumRf(ds, dcs) == dcs[e] + SumRf(ds - {e}, dcs);
    if e != d {
      SumRemove(ds - {e}, dcs, d);
      SumRemove(ds - {d}, dcs, e);
      assert ds - {e} - {d} == ds - {d} - {e};
    }
  }

  function OutOf(hs: seq<Host>, dc: string): seq<Host> {
    if hs == [] then []
    else OutOf(hs[..|hs| - 1], dc) + if hs[|hs| - 1].dc == dc then [] else [hs[|hs| - 1]]
  }

  lemma {:induction false} OutOfSize(hs: seq<Host>, dc: string)
    ensures |hs| == |InDc(hs, dc)| + |OutOf(hs, dc)|
    ensures forall h :: h in OutOf(hs, dc) ==> h in hs && h.dc != dc
  {
    if hs != [] {
      OutOfSize(hs[..|hs| - 1], dc);
    }
  }

  lemma {:induction false} OutOfIn(hs: seq<Host>, dc: string, e: string)
    requires e != dc
    ensures InDc(OutOf(hs, dc), e) == InDc(hs, e)
  {
    if hs != [] {
      var h := hs[|hs| - 1];
      OutOfIn(hs[..|hs| - 1], dc, e);
      InDcSnoc(OutOf(hs[..|hs| - 1], dc), h, e);
      if h.dc == dc {
        assert OutOf(hs, dc) == OutOf(hs[..|hs| - 1], dc);
      }
    }
  }

  ghost predicate WithinQuota(ds: set<string>, dcs: Factors, hs: seq<Host>)
    requires ds <= dcs.Keys
  {
    && (forall h :: h in hs ==> h.dc in ds)
    && (forall d :: d in ds ==> |InDc(hs, d)| <= dcs[d])
  }

  lemma WithoutDc(ds: set<string>, dcs: Factors, hs: seq<Host>, d: string)
    requires ds <= dcs.Keys && WithinQuota(ds, dcs, hs) && d in ds
    ensures WithinQuota(ds - {d}, dcs, OutOf(hs, d))
    ensures |hs| == |InDc(hs, d)| + |OutOf(hs, d)|
  {
    OutOfSize(hs, d);
    forall e | e in ds - {d}
      ensures |InDc(OutOf(hs, d), e)| <= dcs[e]
    {
      OutOfIn(hs, d, e);
    }
  }

  lemma {:induction false} AtMostTotal(ds: set<string>, dcs: Factors, hs: seq<Host>)
    requires ds <= dcs.Keys && WithinQuota(ds, dcs, hs)
    ensures |hs| <= SumRf(ds, dcs)
    decreases ds
  {
    if hs != [] {
      var d := hs[0].dc;
      SumRemove(ds, dcs, d);
      WithoutDc(ds, dcs, hs, d);
      AtMostTotal(ds - {d}, dcs, OutOf(hs, d));
    }
  }

  /** With as many replicas as the factors add up to, every datacenter has its own. */
  lemma TotalMeansFull(dcs: Factors, hs: seq<Host>, d: string)
    requires WithinQuota(dcs.Keys, dcs, hs) && d in dcs && |hs| >= SumRf(dcs.Keys, dcs)
    ensures |InDc(hs, d)| == dcs[d]
  {
    SumRemove(dcs.Keys, dcs, d);
    WithoutDc(dcs.Keys, dcs, hs, d);
    AtMostTotal(dcs.Keys - {d}, dcs, OutOf(hs, d));
  }

  // ---------------------------------------------------------------- the Go maps

  function CountIn(counts: map<string, nat>, dc: string): nat {
    if dc in counts then counts[dc] else 0
  }

  function SeenIn(seen: map<string, set<string>>, dc: string): set<string> {
    if dc in seen then seen[dc] else {}
  }

  function SkippedIn(skipped: map<string, seq<Host>>, dc: string): seq<Host> {
    if dc in skipped then skipped[dc] else []
  }

  /** The maps say what the walk has done. */
  ghost predicate Mirrors(counts: map<string, nat>, seen: map<string, set<string>>,
                          skipped: map<string, seq<Host>>, w: Walk)
  {
    forall dc :: CountIn(counts, dc) == |w.Of(dc).picked|
                 && SeenIn(seen, dc) == w.Of(dc).racks
                 && SkippedIn(skipped, dc) == w.Of(dc).skipped
  }

  predicate HaveRF(dcs: Factors, counts: map<string, nat>) {
    |counts| == |dcs| && forall dc :: dc in dcs ==> dcs[dc] == CountIn(counts, dc)
  }

  lemma {:induction false} WithinAll(dcs: Factors, racks: RackMap, hs: seq<Host>)
    requires forall h :: h in hs ==> h.rack in Known(racks, h.dc)
    ensures WithinQuota(dcs.Keys, dcs, WalkAll(dcs, racks, hs).replicas)
    ensures forall dc :: |WalkAll(dcs, racks, hs).Of(dc).picked| <= Rf(dcs, dc)
  {
    var replicas := WalkAll(dcs, racks, hs).replicas;
    forall dc
      ensures |InDc(replicas, dc)| <= Rf(dcs, dc)
      ensures InDc(replicas, dc) == WalkAll(dcs, racks, hs).Of(dc).picked
    {
      ReplicasIn(dcs, racks, hs, dc);
      InDcMembers(hs, dc);
      QuotaAndRacks(Rf(dcs, dc), Known(racks, dc), InDc(hs, dc));
    }
    forall h | h in replicas
      ensures h.dc in dcs
    {
      InDcMembers(replicas, h.dc);
      assert h in InDc(replicas, h.dc);
    }
  }

  /** When the loop stops early, the rest of the turn would add nothing. */
  lemma EarlyExit(dcs: Factors, racks: RackMap, hs: seq<Host>, n: nat, counts: map<string, nat>,
                  seen: map<string, set<string>>, skipped: map<string, seq<Host>>)
    requires n <= |hs| && forall h :: h in hs ==> h.rack in Known(racks, h.dc)
    requires Mirrors(counts, seen, skipped, WalkAll(dcs, racks, hs[..n]))
    requires |WalkAll(dcs, racks, hs[..n]).replicas| >= SumRf(dcs.Keys, dcs) || HaveRF(dcs, counts)
    ensures WalkAll(dcs, racks, hs).replicas == WalkAll(dcs, racks, hs[..n]).replicas
  {
    hide Step, DcWalk;
    var w := WalkAll(dcs, racks, hs[..n]);
    WithinAll(dcs, racks, hs[..n]);
    forall dc | dc in dcs
      ensures |w.Of(dc).picked| >= dcs[dc]
    {
      if HaveRF(dcs, counts) {
        assert CountIn(counts, dc) == |w.Of(dc).picked|;
      } else {
        TotalMeansFull(dcs, w.replicas, dc);
        ReplicasIn(dcs, racks, hs[..n], dc);
      }
    }
    RestIsIdle(dcs, racks, hs, n);
  }

  // ---------------------------------------------------------------- the loops

  lemma RacksSnoc(hs: seq<Host>, h: Host)
    ensures RacksByDc(hs + [h]) == RacksByDc(hs)[h.dc := Known(RacksByDc(hs), h.dc) + {h.rack}]
  {
    hide RacksByDc, RacksOf, InDc;
    var a := RacksByDc(hs + [h]);
    var b := RacksByDc(hs)[h.dc := Known(RacksByDc(hs), h.dc) + {h.rack}];
    assert DcsOf(hs + [h]) == DcsOf(hs) + {h.dc};
    forall dc | dc in a
      ensures a[dc] == b[dc]
    {
      InDcSnoc(hs, h, dc);
      RacksOfConcat(InDc(hs, dc), [h]);
      RacksOfOne(h);
      assert InDc(hs, dc) + [] == InDc(hs, dc);
      assert a[dc] == Known(a, dc) == RacksOf(InDc(hs + [h], dc));
      assert Known(RacksByDc(hs), dc) == RacksOf(InDc(hs, dc));
    }
  }

  lemma RacksNext(hosts: seq<Host>, i: nat)
    requires i < |hosts|
    ensures var known := RacksByDc(hosts[..i]);
      RacksByDc(hosts[..i + 1]) == known[hosts[i].dc := Known(known, hosts[i].dc) + {hosts[i].rack}]
  {
    hide RacksByDc, Known;
    RacksSnoc(hosts[..i], hosts[i]);
    assert hosts[..i + 1] == hosts[..i] + [hosts[i]];
  }

  /** The first loop: which racks each datacenter has. */
  method CollectRacks(hosts: seq<Host>) returns (dcRacks: RackMap)
    ensures dcRacks == RacksByDc(hosts)
  {
    dcRacks := map[];
    assert RacksByDc([]) == map[];
    hide RacksByDc, Known;
    for i := 0 to |hosts|
      invariant dcRacks == RacksByDc(hosts[..i])
    {
      RacksNext(hosts, i);
      dcRacks := dcRacks[hosts[i].dc := Known(dcRacks, hosts[i].dc) + {hosts[i].rack}];
    }
    assert hosts[..|hosts|] == hosts;
  }

  method TotalRF(dcs: Factors) returns (total: nat)
    ensures total == SumRf(dcs.Keys, dcs)
  {
    total := 0;
    var todo := dcs.Keys;
    while todo != {}
      invariant todo <= dcs.Keys && total + SumRf(todo, dcs) == SumRf(dcs.Keys, dcs)
      decreases todo
    {
      var dc :| dc in todo;
      SumRemove(todo, dcs, dc);
      total := total + dcs[dc];
      todo := todo - {dc};
    }
  }

  /** The drain of the hosts set aside, until the quota is met. */
  method Drain(skippedHosts: seq<Host>, r: nat, rf: nat) returns (drained: seq<Host>, k: nat)
    requires r <= rf
    ensures k == Min(|skippedHosts|, rf - r) && drained == skippedHosts[..k]
  {
    k := 0;
    drained := [];
    while k < |skippedHosts| && r + k < rf
      invariant k <= |skippedHosts| && r + k <= rf && drained == skippedHosts[..k]
    {
      drained := drained + [skippedHosts[k]];
      k := k + 1;
    }
  }

  /** Datacenters without a factor are never counted. */
  ghost predicate OnlyWanted(dcs: Factors, counts: map<string, nat>, seen: map<string, set<string>>) {
    forall dc :: dc !in dcs ==> CountIn(counts, dc) == 0 && SeenIn(seen, dc) == {}
  }

  /** The maps are shared by the turns of all tokens; every turn starts by emptying them. */
  method Reset(dcs: Factors, counts0: map<string, nat>, seen0: map<string, set<string>>,
               skipped0: map<string, seq<Host>>)
    returns (counts: map<string, nat>, seen: map<string, set<string>>, skipped: map<string, seq<Host>>)
    requires OnlyWanted(dcs, counts0, seen0)
    ensures OnlyWanted(dcs, counts, seen)
    ensures forall dc :: CountIn(counts, dc) == 0 && SeenIn(seen, dc) == {} && SkippedIn(skipped, dc) == []
  {
    counts, seen, skipped := counts0, seen0, skipped0;
    var left := skipped.Keys;
    while left != {}
      invariant forall dc :: dc !in left ==> SkippedIn(skipped, dc) == []
      decreases left
    {
      var dc :| dc in left;
      skipped := skipped[dc := []];
      left := left - {dc};
    }
    var todo := dcs.Keys;
    while todo != {}
      invariant forall dc :: dc !in todo ==> CountIn(counts, dc) == 0 && SeenIn(seen, dc) == {}
      decreases todo
    {
      var dc :| dc in todo;
      counts := counts[dc := 0];
      if dc in seen {
        seen := seen[dc := {}];
      }
      todo := todo - {dc};
    }
  }

  /** The inner loop: one turn from token i, left as soon as the quotas are met. `overflow`
      is the guard "Replica overflow". */
  method WalkToken(dcs: Factors, dcRacks: RackMap, tokens: seq<HostToken>, i: nat, totalRF: nat,
                   counts0: map<string, nat>, seen0: map<string, set<string>>, skipped0: map<string, seq<Host>>)
    returns (replicas: seq<Host>, overflow: bool,
             counts: map<string, nat>, seen: map<string, set<string>>, skipped: map<string, seq<Host>>)
    requires i < |tokens| && totalRF == SumRf(dcs.Keys, dcs) && OnlyWanted(dcs, counts0, seen0)
    requires forall k :: 0 <= k < |tokens| ==> tokens[k].host.rack in Known(dcRacks, tokens[k].host.dc)
    ensures !overflow && OnlyWanted(dcs, counts, seen)
    ensures replicas == WalkAll(dcs, dcRacks, Rotation(tokens, i)).replicas
  {
    hide DcWalk, SumRf, WalkAll, Step, DcStep, Mirrors, Rotation, HaveRF, Known, OnlyWanted;
    ghost var hs := Rotation(tokens, i);
    RotationKnown(dcRacks, tokens, i);
    replicas, overflow := [], false;
    counts, seen, skipped := Reset(dcs, counts0, seen0, skipped0);
    WalkNone(dcs, dcRacks, counts, seen, skipped);
    assert hs[..0] == [];
    var j := 0;
    while j < |tokens| && |replicas| < totalRF && !HaveRF(dcs, counts)
      invariant 0 <= j <= |tokens| && !overflow && OnlyWanted(dcs, counts, seen)
      invariant replicas == WalkAll(dcs, dcRacks, hs[..j]).replicas
      invariant Mirrors(counts, seen, skipped, WalkAll(dcs, dcRacks, hs[..j]))
    {
      var p := i + j;
      if p >= |tokens| {
        p := p - |tokens|;
      }
      var h := tokens[p].host;
      RotationAt(tokens, i, j);
      ghost var w := WalkAll(dcs, dcRacks, hs[..j]);
      assert hs[..j + 1] == hs[..j] + [h];
      WalkSnoc(dcs, dcRacks, hs[..j], h);
      NeverOver(dcs, dcRacks, hs, j, h.dc);
      MirrorsAt(counts, seen, skipped, w, h.dc);
      if Rf(dcs, h.dc) != 0 {
        overflow := overflow || CountIn(counts, h.dc) > Rf(dcs, h.dc);
        var added, count, racks, rest := Visit(Rf(dcs, h.dc), Known(dcRacks, h.dc), h, CountIn(counts, h.dc),
                                               SeenIn(seen, h.dc), SkippedIn(skipped, h.dc), w.Of(h.dc));
        StepMirrors(dcs, dcRacks, w, h, counts, seen, skipped, added);
        replicas := replicas + added;
        StillWanted(dcs, counts, seen, h.dc, count, racks);
        counts, seen, skipped := counts[h.dc := count], seen[h.dc := racks], skipped[h.dc := rest];
      } else {
        Compaction.StepWithout(dcs, dcRacks, w, h);
        AlikeMirrors(counts, seen, skipped, w, Step(dcs, dcRacks, w, h));
      }
      j := j + 1;
    }
    if j < |tokens| {
      EarlyExit(dcs, dcRacks, hs, j, counts, seen, skipped);
    } else {
      assert hs[..j] == hs;
    }
  }

  lemma MirrorsAt(counts: map<string, nat>, seen: map<string, set<string>>,
                  skipped: map<string, seq<Host>>, w: Walk, dc: string)
    requires Mirrors(counts, seen, skipped, w)
    ensures CountIn(counts, dc) == |w.Of(dc).picked|
    ensures SeenIn(seen, dc) == w.Of(dc).racks && SkippedIn(skipped, dc) == w.Of(dc).skipped
  {
    assert CountIn(counts, dc) == |w.Of(dc).picked|;
  }

  lemma AlikeMirrors(counts: map<string, nat>, seen: map<string, set<string>>,
                     skipped: map<string, seq<Host>>, w: Walk, w': Walk)
    requires Mirrors(counts, seen, skipped, w) && Compaction.Alike(w', w)
    ensures Mirrors(counts, seen, skipped, w')
  {
    forall dc
      ensures CountIn(counts, dc) == |w'.Of(dc).picked|
              && SeenIn(seen, dc) == w'.Of(dc).racks
              && SkippedIn(skipped, dc) == w'.Of(dc).skipped
    {
      MirrorsAt(counts, seen, skipped, w, dc);
    }
  }

  /** Writing one datacenter's values back keeps the maps in step with the walk. */
  lemma StepMirrors(dcs: Factors, dcRacks: RackMap, w: Walk, h: Host, counts: map<string, nat>,
                    seen: map<string, set<string>>, skipped: map<string, seq<Host>>, added: seq<Host>)
    requires Mirrors(counts, seen, skipped, w)
    requires DcStep(Rf(dcs, h.dc), Known(dcRacks, h.dc), w.Of(h.dc), h).picked == w.Of(h.dc).picked + added
    ensures var st := DcStep(Rf(dcs, h.dc), Known(dcRacks, h.dc), w.Of(h.dc), h);
            Mirrors(counts[h.dc := |st.picked|], seen[h.dc := st.racks], skipped[h.dc := st.skipped],
                    Step(dcs, dcRacks, w, h))
    ensures Step(dcs, dcRacks, w, h).replicas == w.replicas + added
  {
    hide DcStep;
    var st := DcStep(Rf(dcs, h.dc), Known(dcRacks, h.dc), w.Of(h.dc), h);
    forall dc
      ensures CountIn(counts[h.dc := |st.picked|], dc) == |Step(dcs, dcRacks, w, h).Of(dc).picked|
              && SeenIn(seen[h.dc := st.racks], dc) == Step(dcs, dcRacks, w, h).Of(dc).racks
              && SkippedIn(skipped[h.dc := st.skipped], dc) == Step(dcs, dcRacks, w, h).Of(dc).skipped
    {
      MirrorsAt(counts, seen, skipped, w, dc);
      StepOf(dcs, dcRacks, w, h, dc);
    }
  }

  lemma NeverOver(dcs: Factors, racks: RackMap, hs: seq<Host>, n: nat, dc: string)
    requires n <= |hs| && forall h :: h in hs ==> h.rack in Known(racks, h.dc)
    ensures |WalkAll(dcs, racks, hs[..n]).Of(dc).picked| <= Rf(dcs, dc)
  {
    WithinAll(dcs, racks, hs[..n]);
  }

  lemma RotationKnown(dcRacks: RackMap, tokens: seq<HostToken>, i: nat)
    requires i < |tokens|
    requires forall k :: 0 <= k < |tokens| ==> tokens[k].host.rack in Known(dcRacks, tokens[k].host.dc)
    ensures forall h :: h in Rotation(tokens, i) ==> h.rack in Known(dcRacks, h.dc)
  {
    forall h | h in Rotation(tokens, i)
      ensures h.rack in Known(dcRacks, h.dc)
    {
      var j :| 0 <= j < |tokens| && Rotation(tokens, i)[j] == h;
      RotationAt(tokens, i, j);
    }
  }

  lemma StillWanted(dcs: Factors, counts: map<string, nat>, seen: map<string, set<string>>,
                    dc: string, count: nat, racks: set<string>)
    requires OnlyWanted(dcs, counts, seen) && dc in dcs
    ensures OnlyWanted(dcs, counts[dc := count], seen[dc := racks])
  {
  }

  lemma WalkNone(dcs: Factors, dcRacks: RackMap, counts: map<string, nat>,
                 seen: map<string, set<string>>, skipped: map<string, seq<Host>>)
    requires forall dc :: CountIn(counts, dc) == 0 && SeenIn(seen, dc) == {} && SkippedIn(skipped, dc) == []
    ensures WalkAll(dcs, dcRacks, []).replicas == []
    ensures Mirrors(counts, seen, skipped, WalkAll(dcs, dcRacks, []))
  {
  }

  /** The body of the inner loop for a host whose datacenter wants replicas. */
  method Visit(rf: nat, known: set<string>, h: Host, count0: nat, seen0: set<string>, skipped0: seq<Host>, ghost st: Dc)
    returns (added: seq<Host>, count: nat, seen: set<string>, skipped: seq<Host>)
    requires count0 == |st.picked| && seen0 == st.racks && skipped0 == st.skipped
    ensures var st' := DcStep(rf, known, st, h);
            st'.picked == st.picked + added && count == |st'.picked| && seen == st'.racks && skipped == st'.skipped
  {
    added, count, seen, skipped := [], count0, seen0, skipped0;
    if count >= rf || h.rack !in known {
      // enough replicas already, or a rack nobody knows
    } else if h.rack in seen && |seen| == |known| {
      added := [h];
      count := count + 1;
    } else if h.rack !in seen {
      seen := seen + {h.rack};
      added := [h];
      count := count + 1;
      if |seen| == |known| {
        var drained, k := Drain(skipped, count, rf);
        added := added + drained;
        count := count + k;
        skipped := skipped[k..];
      }
    } else {
      skipped := skipped + [h];
    }
  }

  lemma {:induction false} EntriesWhole(dcs: Factors, ring: TokenRing, n: nat)
    requires n <= |ring.tokens|
    requires forall i :: 0 <= i < n ==> Rf(dcs, ring.tokens[i].host.dc) > 0
    ensures |Entries(dcs, ring, n)| == n
  {
    hide Entry;
    if n > 0 {
      EntriesWhole(dcs, ring, n - 1);
    }
  }

  /** When every datacenter of the ring has replicas, no token is left out. */
  lemma NothingLeftOut(dcs: Factors, ring: TokenRing)
    requires WellFormed(ring)
    requires |set dc | dc in dcs && dc in RacksByDc(ring.hosts) && dcs[dc] > 0| == |RacksByDc(ring.hosts)|
    ensures |ReplicaMap(dcs, ring)| == |ring.tokens|
  {
    hide Entries;
    var with := set dc | dc in dcs && dc in RacksByDc(ring.hosts) && dcs[dc] > 0;
    RacksFull(with, RacksByDc(ring.hosts).Keys);
    EntriesWhole(dcs, ring, |ring.tokens|);
  }

  lemma TokensKnown(ring: TokenRing)
    requires WellFormed(ring)
    ensures var ts, racks := ring.tokens, RacksByDc(ring.hosts);
      forall k :: 0 <= k < |ts| ==> ts[k].host.rack in Known(racks, ts[k].host.dc)
  {
    hide RacksByDc;
  }

  /** The maps as they are made, before the first turn. */
  method Started(dcs: Factors, dcRacks: RackMap)
    returns (counts: map<string, nat>, seen: map<string, set<string>>)
    ensures counts.Keys == seen.Keys == dcRacks.Keys && OnlyWanted(dcs, counts, seen)
  {
    counts, seen := map dc | dc in dcRacks :: 0, map dc | dc in dcRacks :: {};
  }

  /** What one token adds to the map. */
  lemma EntriesNext(dcs: Factors, ring: TokenRing, i: nat)
    requires WellFormed(ring) && i < |ring.tokens|
    ensures var th := ring.tokens[i];
      if Rf(dcs, th.host.dc) == 0 then Entries(dcs, ring, i + 1) == Entries(dcs, ring, i)
      else
        var replicas := WalkAll(dcs, RacksByDc(ring.hosts), Rotation(ring.tokens, i)).replicas;
        && Entries(dcs, ring, i + 1) == Entries(dcs, ring, i) + [HostTokens(th.token, replicas)]
        && replicas != [] && replicas[0] == th.host
  {
    hide RacksByDc, WalkAll, WellFormed;
    if Rf(dcs, ring.tokens[i].host.dc) > 0 {
      StartsWithPrimary(dcs, ring, i);
    }
  }

  /** The guard after the loop: tokens are missing though every datacenter of the ring has replicas. */
  method LeftOut(dcs: Factors, ring: TokenRing, dcRacks: RackMap, replicaRing: seq<HostTokens>) returns (warned: bool)
    requires WellFormed(ring) && dcRacks == RacksByDc(ring.hosts) && replicaRing == ReplicaMap(dcs, ring)
    ensures !warned
  {
    hide RacksByDc, WellFormed, ReplicaMap;
    var dcsWithReplicas := |set dc | dc in dcs && dc in dcRacks && dcs[dc] > 0|;
    if dcsWithReplicas == |dcRacks| {
      NothingLeftOut(dcs, ring);
      return |replicaRing| != |ring.tokens|;
    }
    return false;
  }

  /** The whole of replicaMap. `warned` is set by any of the four guards that return an empty
      map: none fires on a ring that newTokenRing built. */
  method ComputeReplicaMap(dcs: Factors, ring: TokenRing) returns (replicaRing: seq<HostTokens>, warned: bool)
    requires WellFormed(ring)
    ensures !warned && replicaRing == ReplicaMap(dcs, ring)
  {
    TokensKnown(ring);
    assert Entries(dcs, ring, 0) == [];
    hide RacksByDc, Rotation, SumRf, WalkAll, OnlyWanted, WellFormed, Known, Entries, Rf;
    var dcRacks := CollectRacks(ring.hosts);
    var totalRF := TotalRF(dcs);
    replicaRing, warned := [], false;
    var counts, seen := Started(dcs, dcRacks);
    var skipped: map<string, seq<Host>> := map[];
    for i := 0 to |ring.tokens|
      invariant !warned && replicaRing == Entries(dcs, ring, i) && OnlyWanted(dcs, counts, seen)
    {
      var th := ring.tokens[i];
      EntriesNext(dcs, ring, i);
      if Rf(dcs, th.host.dc) != 0 {
        var replicas, overflow;
        replicas, overflow, counts, seen, skipped :=
          WalkToken(dcs, dcRacks, ring.tokens, i, totalRF, counts, seen, skipped);
        warned := warned || overflow || |replicas| == 0 || replicas[0].addr != th.host.addr;
        replicaRing := replicaRing + [HostTokens(th.token, replicas)];
      }
    }
    var leftOut := LeftOut(dcs, ring, dcRacks, replicaRing);
    warned := warned || leftOut;
  }
}
