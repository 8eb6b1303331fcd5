// NetworkTopology placement (topology.go:258-412): the replicas of a token are what one
// walk around the ring collects for all datacenters together.
module Placement {
  import opened Common
  import opened Ring
  import opened DcPlacement

  type Factors = map<string, nat>
  type RackMap = map<string, set<string>>

  datatype HostTokens = HostTokens(token: int, hosts: seq<Host>)

  /** The replicas in the order they were found, and how far each datacenter is. */
  datatype Walk = Walk(replicas: seq<Host>, progress: map<string, Dc>) {
    function Of(dc: string): Dc {
      if dc in progress then progress[dc] else Dc([], {}, [])
    }
  }

  function Rf(dcs: Factors, dc: string): nat {
    if dc in dcs then dcs[dc] else 0
  }

  function Known(racks: RackMap, dc: string): set<string> {
    if dc in racks then racks[dc] else {}
  }

  function DcsOf(hosts: seq<Host>): set<string> {
    set h | h in hosts :: h.dc
  }

  /** dcRacks: the racks of each datacenter that has hosts in the ring. */
  function RacksByDc(hosts: seq<Host>): (r: RackMap)
    ensures r.Keys == DcsOf(hosts)
    ensures forall dc :: Known(r, dc) == RacksOf(InDc(hosts, dc))
    ensures forall h :: h in hosts ==> h.dc in r && h.rack in r[h.dc]
  {
    var r := map dc | dc in DcsOf(hosts) :: RacksOf(InDc(hosts, dc));
    assert forall dc :: Known(r, dc) == RacksOf(InDc(hosts, dc)) by {
      forall dc
        ensures Known(r, dc) == RacksOf(InDc(hosts, dc))
      {
        InDcMembers(hosts, dc);
      }
    }
    assert forall h :: h in hosts ==> h.dc in r && h.rack in r[h.dc] by {
      forall h | h in hosts
        ensures h.dc in r && h.rack in r[h.dc]
      {
        InDcMembers(hosts, h.dc);
        assert h in InDc(hosts, h.dc);
      }
    }
    r
  }

  /** Meeting one host: its datacenter takes a step, and what it picks is appended. */
  function Step(dcs: Factors, racks: RackMap, w: Walk, h: Host): Walk {
    var before := w.Of(h.dc);
    var after := DcStep(Rf(dcs, h.dc), Known(racks, h.dc), before, h);
    Walk(w.replicas + after.picked[|before.picked|..], w.progress[h.dc := after])
  }

  function WalkAll(dcs: Factors, racks: RackMap, hs: seq<Host>): Walk {
    if hs == [] then Walk([], map[])
    else Step(dcs, racks, WalkAll(dcs, racks, hs[..|hs| - 1]), hs[|hs| - 1])
  }

  /** The replicas of the i-th token: one full turn, starting at its own host. */
  function Entry(dcs: Factors, ring: TokenRing, i: nat): seq<Host>
    requires i < |ring.tokens|
  {
    WalkAll(dcs, RacksByDc(ring.hosts), Rotation(ring.tokens, i)).replicas
  }

  /** The replica ring: tokens of datacenters without replicas have no entry. */
  function Entries(dcs: Factors, ring: TokenRing, n: nat): seq<HostTokens>
    requires n <= |ring.tokens|
  {
    if n == 0 then []
    else
      var th := ring.tokens[n - 1];
      Entries(dcs, ring, n - 1)
      + if Rf(dcs, th.host.dc) == 0 then [] else [HostTokens(th.token, Entry(dcs, ring, n - 1))]
  }

  function ReplicaMap(dcs: Factors, ring: TokenRing): seq<HostTokens> {
    Entries(dcs, ring, |ring.tokens|)
  }

  // ---------------------------------------------------------------- datacenters do not interfere

  lemma {:induction false} WalkSnoc(dcs: Factors, racks: RackMap, hs: seq<Host>, h: Host)
    ensures WalkAll(dcs, racks, hs + [h]) == Step(dcs, racks, WalkAll(dcs, racks, hs), h)
  {
    assert (hs + [h])[..|hs|] == hs;
  }

  lemma DcWalkSnoc(rf: nat, known: set<string>, hs: seq<Host>, h: Host)
    ensures DcWalk(rf, known, hs + [h]) == DcStep(rf, known, DcWalk(rf, known, hs), h)
  {
    assert (hs + [h])[..|hs|] == hs;
  }

  lemma StepOf(dcs: Factors, racks: RackMap, w: Walk, h: Host, dc: string)
    ensures Step(dcs, racks, w, h).Of(dc)
            == if h.dc == dc then DcStep(Rf(dcs, dc), Known(racks, dc), w.Of(dc), h) else w.Of(dc)
  {
    hide DcStep;
  }

  /** Each datacenter goes through its own hosts alone. */
  lemma {:induction false} WalkOf(dcs: Factors, racks: RackMap, hs: seq<Host>, dc: string)
    ensures WalkAll(dcs, racks, hs).Of(dc) == DcWalk(Rf(dcs, dc), Known(racks, dc), InDc(hs, dc))
  {
    if hs != [] {
      hide Step, DcStep, DcWalk, InDc;
      var before := hs[..|hs| - 1];
      var h := hs[|hs| - 1];
      assert hs == before + [h];
      WalkOf(dcs, racks, before, dc);
      StepOf(dcs, racks, WalkAll(dcs, racks, before), h, dc);
      InDcSnoc(before, h, dc);
      DcWalkSnoc(Rf(dcs, dc), Known(racks, dc), InDc(before, dc), h);
      assert InDc(before, dc) + [] == InDc(before, dc);
    }
  }

  /** A datacenter's walk handles only hosts it met. */
  lemma {:induction false} DcHosts(rf: nat, known: set<string>, hs: seq<Host>)
    ensures forall h :: h in DcWalk(rf, known, hs).picked || h in DcWalk(rf, known, hs).skipped ==> h in hs
  {
    if hs != [] {
      DcHosts(rf, known, hs[..|hs| - 1]);
    }
  }

  lemma {:induction false} AllInDc(hs: seq<Host>, dc: string, d: string)
    requires forall h :: h in hs ==> h.dc == dc
    ensures InDc(hs, d) == if d == dc then hs else []
  {
    if hs != [] {
      AllInDc(hs[..|hs| - 1], dc, d);
      assert hs[|hs| - 1].dc == dc;
    }
  }

  /** A step adds to one datacenter's replicas what that datacenter picks. */
  lemma StepReplicas(dcs: Factors, racks: RackMap, w: Walk, h: Host, dc: string)
    requires InDc(w.replicas, dc) == w.Of(dc).picked
    requires forall x :: x in Step(dcs, racks, w, h).Of(h.dc).picked ==> x.dc == h.dc
    ensures InDc(Step(dcs, racks, w, h).replicas, dc) == Step(dcs, racks, w, h).Of(dc).picked
  {
    hide DcStep, InDc;
    PickedGrows(Rf(dcs, h.dc), Known(racks, h.dc), w.Of(h.dc), h);
    var more := Step(dcs, racks, w, h).Of(h.dc).picked[|w.Of(h.dc).picked|..];
    AllInDc(more, h.dc, dc);
    InDcConcat(w.replicas, more, dc);
  }

  /** The replicas of a datacenter are what its own walk picks. */
  lemma {:induction false} ReplicasIn(dcs: Factors, racks: RackMap, hs: seq<Host>, dc: string)
    ensures InDc(WalkAll(dcs, racks, hs).replicas, dc) == WalkAll(dcs, racks, hs).Of(dc).picked
    ensures InDc(WalkAll(dcs, racks, hs).replicas, dc) == DcWalk(Rf(dcs, dc), Known(racks, dc), InDc(hs, dc)).picked
  {
    WalkOf(dcs, racks, hs, dc);
    if hs != [] {
      hide Step, DcWalk;
      var before := hs[..|hs| - 1];
      var h := hs[|hs| - 1];
      ReplicasIn(dcs, racks, before, dc);
      WalkOf(dcs, racks, hs, h.dc);
      DcHosts(Rf(dcs, h.dc), Known(racks, h.dc), InDc(hs, h.dc));
      InDcMembers(hs, h.dc);
      StepReplicas(dcs, racks, WalkAll(dcs, racks, before), h, dc);
    }
  }

  lemma PickedGrows(rf: nat, known: set<string>, st: Dc, h: Host)
    ensures st.picked <= DcStep(rf, known, st, h).picked
  {
  }

  lemma {:induction false} ReplicasOnlyGrow(dcs: Factors, racks: RackMap, hs: seq<Host>, n: nat)
    requires n <= |hs|
    ensures WalkAll(dcs, racks, hs[..n]).replicas <= WalkAll(dcs, racks, hs).replicas
  {
    if n < |hs| {
      ReplicasOnlyGrow(dcs, racks, hs[..|hs| - 1], n);
      assert hs[..|hs| - 1][..n] == hs[..n];
    } else {
      assert hs[..n] == hs;
    }
  }

  // ---------------------------------------------------------------- each entry

  /** What a NetworkTopology entry promises, whatever the ring and the factors. */
  ghost predicate EntryOk(dcs: Factors, ring: TokenRing, primary: Host, replicas: seq<Host>) {
    && replicas != [] && replicas[0] == primary
    && (forall h :: h in replicas ==> h.dc in dcs && |InDc(replicas, h.dc)| <= dcs[h.dc])
    && (forall dc :: |RacksOf(InDc(replicas, dc))| == Min(|InDc(replicas, dc)|, |RacksOf(InDc(ring.hosts, dc))|))
    && (forall h :: h in replicas ==> h in ring.hosts)
  }

  lemma RotationMembers(ring: TokenRing, i: nat)
    requires WellFormed(ring) && i < |ring.tokens|
    ensures forall h :: h in Rotation(ring.tokens, i) ==> h in ring.hosts
  {
    var ts := ring.tokens;
    assert forall x :: x in ts[i..] || x in ts[..i] ==> x in ts;
  }

  lemma RacksKnownIn(ring: TokenRing, i: nat, dc: string)
    requires WellFormed(ring) && i < |ring.tokens|
    ensures RacksKnown(Known(RacksByDc(ring.hosts), dc), InDc(Rotation(ring.tokens, i), dc))
  {
    RotationMembers(ring, i);
    InDcMembers(Rotation(ring.tokens, i), dc);
    InDcMembers(ring.hosts, dc);
  }

  /** The walk starts by taking the token's own host. */
  lemma StartsWithPrimary(dcs: Factors, ring: TokenRing, i: nat)
    requires WellFormed(ring) && i < |ring.tokens| && Rf(dcs, ring.tokens[i].host.dc) > 0
    ensures Entry(dcs, ring, i) != [] && Entry(dcs, ring, i)[0] == ring.tokens[i].host
  {
    var hs := Rotation(ring.tokens, i);
    var racks := RacksByDc(ring.hosts);
    var h := ring.tokens[i].host;
    assert hs[..1] == [h];
    ReplicasOnlyGrow(dcs, racks, hs, 1);
    FirstHost(dcs, racks, h);
  }

  lemma FirstHost(dcs: Factors, racks: RackMap, h: Host)
    requires Rf(dcs, h.dc) > 0 && h.rack in Known(racks, h.dc)
    ensures WalkAll(dcs, racks, [h]).replicas == [h]
  {
    assert [h][..0] == [];
    assert WalkAll(dcs, racks, []) == Walk([], map[]);
  }

  lemma EntryPromises(dcs: Factors, ring: TokenRing, i: nat)
    requires WellFormed(ring) && i < |ring.tokens| && Rf(dcs, ring.tokens[i].host.dc) > 0
    ensures EntryOk(dcs, ring, ring.tokens[i].host, Entry(dcs, ring, i))
  {
    var hs := Rotation(ring.tokens, i);
    var racks := RacksByDc(ring.hosts);
    var replicas := Entry(dcs, ring, i);
    StartsWithPrimary(dcs, ring, i);
    forall dc
      ensures |InDc(replicas, dc)| <= Rf(dcs, dc)
      ensures |RacksOf(InDc(replicas, dc))| == Min(|InDc(replicas, dc)|, |RacksOf(InDc(ring.hosts, dc))|)
    {
      RacksKnownIn(ring, i, dc);
      ReplicasIn(dcs, racks, hs, dc);
      QuotaAndRacks(Rf(dcs, dc), Known(racks, dc), InDc(hs, dc));
    }
    forall h | h in replicas
      ensures h in ring.hosts && h.dc in dcs
    {
      ReplicasIn(dcs, racks, hs, h.dc);
      InDcMembers(replicas, h.dc);
      DcHosts(Rf(dcs, h.dc), Known(racks, h.dc), InDc(hs, h.dc));
      InDcMembers(hs, h.dc);
      RotationMembers(ring, i);
    }
  }

  /** The hosts a datacenter should have had by now: the first of its preferred ones. */
  function Due(dcs: Factors, ring: TokenRing, hs: seq<Host>, dc: string): seq<Host> {
    Take(Preferred(RacksOf(InDc(ring.hosts, dc)), InDc(hs, dc)), Rf(dcs, dc))
  }

  /** Which hosts an entry has, and in which order: after each host of the turn there are, at the front
      of the entry and of every datacenter, exactly the preferred hosts of the turn so far. */
  lemma EntryFollowsTurn(dcs: Factors, ring: TokenRing, i: nat, n: nat) returns (m: nat)
    requires WellFormed(ring) && i < |ring.tokens| && n <= |ring.tokens|
    ensures m <= |Entry(dcs, ring, i)| && (n == |ring.tokens| ==> m == |Entry(dcs, ring, i)|)
    ensures var front, hs := Entry(dcs, ring, i)[..m], Rotation(ring.tokens, i)[..n];
      forall dc :: InDc(front, dc) == Due(dcs, ring, hs, dc)
  {
    hide RacksByDc, Rotation, InDc, WalkAll, DcWalk, Preferred, RacksOf;
    var hs := Rotation(ring.tokens, i);
    var racks := RacksByDc(ring.hosts);
    var front := WalkAll(dcs, racks, hs[..n]).replicas;
    ReplicasOnlyGrow(dcs, racks, hs, n);
    m := |front|;
    assert Entry(dcs, ring, i)[..m] == front;
    assert n == |ring.tokens| ==> hs[..n] == hs;
    forall dc
      ensures InDc(front, dc) == Due(dcs, ring, hs[..n], dc)
    {
      ReplicasIn(dcs, racks, hs[..n], dc);
      PartKnown(ring, i, n, dc);
      PicksPreferred(Rf(dcs, dc), Known(racks, dc), InDc(hs[..n], dc));
    }
  }

  lemma PartKnown(ring: TokenRing, i: nat, n: nat, dc: string)
    requires WellFormed(ring) && i < |ring.tokens| && n <= |ring.tokens|
    ensures Known(RacksByDc(ring.hosts), dc) == RacksOf(InDc(ring.hosts, dc))
    ensures RacksKnown(Known(RacksByDc(ring.hosts), dc), InDc(Rotation(ring.tokens, i)[..n], dc))
  {
    hide RacksByDc, Rotation;
    var hs := Rotation(ring.tokens, i);
    RacksKnownIn(ring, i, dc);
    InDcMembers(hs, dc);
    InDcMembers(hs[..n], dc);
    assert forall h :: h in hs[..n] ==> h in hs;
  }

  // ---------------------------------------------------------------- one token per host

  /** Every host of the ring owns exactly one token. */
  predicate OneTokenEach(ring: TokenRing) {
    NoRepeat(ring.hosts) && multiset(HostsOf(ring.tokens)) == multiset(ring.hosts)
  }

  lemma HostsOfConcat(a: seq<HostToken>, b: seq<HostToken>)
    ensures HostsOf(a + b) == HostsOf(a) + HostsOf(b)
  {
  }

  lemma RotationIsAll(ts: seq<HostToken>, i: nat)
    requires i <= |ts|
    ensures multiset(Rotation(ts, i)) == multiset(HostsOf(ts))
  {
    HostsOfConcat(ts[..i], ts[i..]);
    assert ts == ts[..i] + ts[i..];
  }

  lemma {:induction false} NoRepeatCounts(hs: seq<Host>, h: Host)
    requires NoRepeat(hs)
    ensures multiset(hs)[h] <= 1
  {
    if hs != [] {
      var before := hs[..|hs| - 1];
      assert hs == before + [hs[|hs| - 1]];
      NoRepeatCounts(before, h);
    }
  }

  lemma CountsNoRepeat(hs: seq<Host>)
    requires forall h :: multiset(hs)[h] <= 1
    ensures NoRepeat(hs)
  {
    forall i, j | 0 <= i < j < |hs|
      ensures hs[i] != hs[j]
    {
      assert hs == hs[..j] + hs[j..];
      assert hs[i] in hs[..j] && hs[j] in hs[j..];
      assert multiset(hs[..j])[hs[i]] >= 1 && multiset(hs[j..])[hs[j]] >= 1;
      assert multiset(hs)[hs[j]] == multiset(hs[..j])[hs[j]] + multiset(hs[j..])[hs[j]];
    }
  }

  /** No entry uses a host more often than the host has tokens. */
  lemma ReplicasWithinTokens(dcs: Factors, ring: TokenRing, i: nat, h: Host)
    requires WellFormed(ring) && i < |ring.tokens|
    ensures multiset(Entry(dcs, ring, i))[h] <= multiset(HostsOf(ring.tokens))[h]
  {
    hide RacksByDc;
    var hs := Rotation(ring.tokens, i);
    var racks := RacksByDc(ring.hosts);
    ReplicasIn(dcs, racks, hs, h.dc);
    RacksKnownIn(ring, i, h.dc);
    QuotaAndRacks(Rf(dcs, h.dc), Known(racks, h.dc), InDc(hs, h.dc));
    InDcCount(Entry(dcs, ring, i), h.dc, h);
    InDcCount(hs, h.dc, h);
    RotationIsAll(ring.tokens, i);
  }

  /** A datacenter whose racks all own tokens gets its full quota, or as many replicas as it
      has tokens, whatever the order of racks around the ring. */
  lemma QuotaIsFilled(dcs: Factors, ring: TokenRing, i: nat, dc: string)
    requires WellFormed(ring) && i < |ring.tokens|
    requires RacksOf(InDc(ring.hosts, dc)) == RacksOf(InDc(HostsOf(ring.tokens), dc))
    ensures |InDc(Entry(dcs, ring, i), dc)| == Min(Rf(dcs, dc), |InDc(HostsOf(ring.tokens), dc)|)
  {
    hide RacksByDc;
    var hs := Rotation(ring.tokens, i);
    var racks := RacksByDc(ring.hosts);
    RotationIsAll(ring.tokens, i);
    InDcSize(hs, HostsOf(ring.tokens), dc);
    SameRacks(hs, HostsOf(ring.tokens), dc);
    ReplicasIn(dcs, racks, hs, dc);
    ExactCount(Rf(dcs, dc), Known(racks, dc), InDc(hs, dc));
  }

  lemma SameRacks(a: seq<Host>, b: seq<Host>, dc: string)
    requires multiset(a) == multiset(b)
    ensures RacksOf(InDc(a, dc)) == RacksOf(InDc(b, dc))
  {
    assert forall h :: h in a <==> h in multiset(a);
    assert forall h :: h in b <==> h in multiset(b);
    SameMembersSameRacks(a, b, dc);
  }

  /** With one token per host an entry repeats no host and holds min(rf, hosts) replicas of
      every datacenter. */
  lemma OneTokenEntries(dcs: Factors, ring: TokenRing, i: nat)
    requires WellFormed(ring) && OneTokenEach(ring) && i < |ring.tokens|
    ensures NoRepeat(Entry(dcs, ring, i))
    ensures forall dc :: |InDc(Entry(dcs, ring, i), dc)| == Min(Rf(dcs, dc), |InDc(ring.hosts, dc)|)
  {
    forall h
      ensures multiset(Entry(dcs, ring, i))[h] <= 1
    {
      ReplicasWithinTokens(dcs, ring, i, h);
      NoRepeatCounts(ring.hosts, h);
    }
    CountsNoRepeat(Entry(dcs, ring, i));
    forall dc
      ensures |InDc(Entry(dcs, ring, i), dc)| == Min(Rf(dcs, dc), |InDc(ring.hosts, dc)|)
    {
      SameRacks(ring.hosts, HostsOf(ring.tokens), dc);
      InDcSize(ring.hosts, HostsOf(ring.tokens), dc);
      QuotaIsFilled(dcs, ring, i, dc);
    }
  }

  /** A factor as large as its datacenter uses every token of it. */
  lemma LargeFactorUsesAll(ring: TokenRing, i: nat, h: Host)
    requires WellFormed(ring) && i < |ring.tokens|
    requires forall x :: x in ring.hosts ==> x in HostsOf(ring.tokens)
    ensures var dcs := map[h.dc := |InDc(HostsOf(ring.tokens), h.dc)|];
            multiset(Entry(dcs, ring, i))[h] == multiset(HostsOf(ring.tokens))[h]
  {
    hide Entry, InDc, RacksOf;
    var all := HostsOf(ring.tokens);
    var dcs := map[h.dc := |InDc(all, h.dc)|];
    var entry := Entry(dcs, ring, i);
    SameMembersSameRacks(ring.hosts, all, h.dc);
    QuotaIsFilled(dcs, ring, i, h.dc);
    forall x: Host
      ensures multiset(InDc(entry, h.dc))[x] <= multiset(InDc(all, h.dc))[x]
    {
      if x.dc == h.dc {
        ReplicasWithinTokens(dcs, ring, i, x);
        InDcCount(entry, h.dc, x);
        InDcCount(all, h.dc, x);
      } else {
        InDcMembers(entry, h.dc);
      }
    }
    SameBag(InDc(entry, h.dc), InDc(all, h.dc));
    InDcCount(entry, h.dc, h);
    InDcCount(all, h.dc, h);
  }

  lemma SameMembersSameRacks(a: seq<Host>, b: seq<Host>, dc: string)
    requires forall h :: h in a <==> h in b
    ensures RacksOf(InDc(a, dc)) == RacksOf(InDc(b, dc))
  {
    InDcMembers(a, dc);
    InDcMembers(b, dc);
    assert forall h :: h in InDc(a, dc) <==> h in InDc(b, dc);
  }

  lemma SameBag(a: seq<Host>, b: seq<Host>)
    requires multiset(a) <= multiset(b) && |a| == |b|
    ensures multiset(a) == multiset(b)
  {
    assert multiset(b) == multiset(a) + (multiset(b) - multiset(a));
    assert |multiset(a)| == |a| && |multiset(b)| == |b|;
  }

  /** The code does not stop a host with several tokens from being listed twice. Where every
      host owns a token, entries are free of repeats for all replication factors exactly when
      no host owns two. */
  lemma RepeatFreeIffOneToken(ring: TokenRing)
    requires WellFormed(ring)
    requires forall x :: x in ring.hosts ==> x in HostsOf(ring.tokens)
    ensures (forall dcs: Factors, i: nat :: i < |ring.tokens| ==> NoRepeat(Entry(dcs, ring, i)))
            <==> NoRepeat(HostsOf(ring.tokens))
  {
    var all := HostsOf(ring.tokens);
    if NoRepeat(all) {
      forall dcs: Factors, i: nat | i < |ring.tokens|
        ensures NoRepeat(Entry(dcs, ring, i))
      {
        forall h
          ensures multiset(Entry(dcs, ring, i))[h] <= 1
        {
          ReplicasWithinTokens(dcs, ring, i, h);
          NoRepeatCounts(all, h);
        }
        CountsNoRepeat(Entry(dcs, ring, i));
      }
    } else if forall h: Host :: multiset(all)[h] <= 1 {
      CountsNoRepeat(all);
    } else {
      var h: Host :| multiset(all)[h] > 1;
      var dcs: Factors := map[h.dc := |InDc(all, h.dc)|];
      LargeFactorUsesAll(ring, 0, h);
      if NoRepeat(Entry(dcs, ring, 0)) {
        NoRepeatCounts(Entry(dcs, ring, 0), h);
      }
    }
  }
}
