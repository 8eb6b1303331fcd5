// Looking replicas up on the replica ring (topology.go:51-66). The ring has no entries for
// tokens of datacenters without replicas; the lookup gives the same hosts all the same.
module Compaction {
  import opened Common
  import opened Ring
  import opened DcPlacement
  import opened Placement

  function EntryTokens(es: seq<HostTokens>): (r: seq<int>)
    ensures |r| == |es| && forall i :: 0 <= i < |es| ==> r[i] == es[i].token
  {
    seq(|es|, i requires 0 <= i < |es| => es[i].token)
  }

  function ReplicasFor(es: seq<HostTokens>, t: int): Option<HostTokens> {
    if es == [] then None
    else
      var p := FirstAtLeast(EntryTokens(es), t);
      Some(if p >= |es| then es[0] else es[p])
  }

  // ---------------------------------------------------------------- hosts that do not matter

  /** The hosts of datacenters with replicas. */
  function Counting(dcs: Factors, hs: seq<Host>): seq<Host> {
    if hs == [] then []
    else Counting(dcs, hs[..|hs| - 1]) + if Rf(dcs, hs[|hs| - 1].dc) > 0 then [hs[|hs| - 1]] else []
  }

  lemma {:induction false} CountingConcat(dcs: Factors, a: seq<Host>, b: seq<Host>)
    ensures Counting(dcs, a + b) == Counting(dcs, a) + Counting(dcs, b)
  {
    if b == [] {
      assert a + b == a;
    } else {
      CountingConcat(dcs, a, b[..|b| - 1]);
      assert (a + b)[..|a + b| - 1] == a + b[..|b| - 1];
    }
  }

  lemma {:induction false} CountingNone(dcs: Factors, hs: seq<Host>)
    requires forall h :: h in hs ==> Rf(dcs, h.dc) == 0
    ensures Counting(dcs, hs) == []
  {
    if hs != [] {
      CountingNone(dcs, hs[..|hs| - 1]);
      assert hs[|hs| - 1] in hs;
    }
  }

  /** Two walks a reader of replicas and progress cannot tell apart. */
  ghost predicate Alike(a: Walk, b: Walk) {
    a.replicas == b.replicas && forall dc :: a.Of(dc) == b.Of(dc)
  }

  lemma StepAlike(dcs: Factors, racks: RackMap, a: Walk, b: Walk, h: Host)
    requires Alike(a, b)
    ensures Alike(Step(dcs, racks, a, h), Step(dcs, racks, b, h))
  {
    hide DcStep;
    forall dc
      ensures Step(dcs, racks, a, h).Of(dc) == Step(dcs, racks, b, h).Of(dc)
    {
      StepOf(dcs, racks, a, h, dc);
      StepOf(dcs, racks, b, h, dc);
    }
  }

  /** A host of a datacenter without replicas changes nothing. */
  lemma StepWithout(dcs: Factors, racks: RackMap, w: Walk, h: Host)
    requires Rf(dcs, h.dc) == 0
    ensures Alike(Step(dcs, racks, w, h), w)
  {
  }

  lemma {:induction false} OnlyCountingMatters(dcs: Factors, racks: RackMap, hs: seq<Host>)
    ensures Alike(WalkAll(dcs, racks, hs), WalkAll(dcs, racks, Counting(dcs, hs)))
  {
    if hs != [] {
      hide Step;
      var before := hs[..|hs| - 1];
      var h := hs[|hs| - 1];
      OnlyCountingMatters(dcs, racks, before);
      if Rf(dcs, h.dc) == 0 {
        StepWithout(dcs, racks, WalkAll(dcs, racks, before), h);
        assert Counting(dcs, hs) == Counting(dcs, before);
      } else {
        StepAlike(dcs, racks, WalkAll(dcs, racks, before), WalkAll(dcs, racks, Counting(dcs, before)), h);
        WalkSnoc(dcs, racks, Counting(dcs, before), h);
      }
    }
  }

  predicate NoneCount(dcs: Factors, ts: seq<HostToken>) {
    forall i :: 0 <= i < |ts| ==> Rf(dcs, ts[i].host.dc) == 0
  }

  /** Going round from p to i, no token in between counts. */
  predicate NoneBetween(dcs: Factors, ts: seq<HostToken>, p: nat, i: nat)
    requires p <= |ts| && i <= |ts|
  {
    if p <= i then NoneCount(dcs, ts[p..i]) else NoneCount(dcs, ts[p..]) && NoneCount(dcs, ts[..i])
  }

  lemma HostsNone(dcs: Factors, ts: seq<HostToken>)
    requires NoneCount(dcs, ts)
    ensures Counting(dcs, HostsOf(ts)) == []
  {
    CountingNone(dcs, HostsOf(ts));
  }

  lemma CountingRotation(dcs: Factors, ts: seq<HostToken>, i: nat)
    requires i <= |ts|
    ensures Counting(dcs, Rotation(ts, i)) == Counting(dcs, HostsOf(ts[i..])) + Counting(dcs, HostsOf(ts[..i]))
  {
    CountingConcat(dcs, HostsOf(ts[i..]), HostsOf(ts[..i]));
  }

  lemma CountingSplit(dcs: Factors, ts: seq<HostToken>, i: nat)
    requires i <= |ts|
    ensures Counting(dcs, HostsOf(ts)) == Counting(dcs, HostsOf(ts[..i])) + Counting(dcs, HostsOf(ts[i..]))
  {
    assert ts == ts[..i] + ts[i..];
    HostsOfConcat(ts[..i], ts[i..]);
    CountingConcat(dcs, HostsOf(ts[..i]), HostsOf(ts[i..]));
  }

  /** Moving the start over tokens that do not count leaves the counted hosts alone. */
  lemma SameCounting(dcs: Factors, ts: seq<HostToken>, p: nat, i: nat)
    requires p < |ts| && i < |ts| && NoneBetween(dcs, ts, p, i)
    ensures Counting(dcs, Rotation(ts, p)) == Counting(dcs, Rotation(ts, i))
  {
    hide Counting, HostsOf, Rotation, NoneCount;
    CountingRotation(dcs, ts, p);
    CountingRotation(dcs, ts, i);
    if p <= i {
      HostsNone(dcs, ts[p..i]);
      CountingSplit(dcs, ts[p..], i - p);
      CountingSplit(dcs, ts[..i], p);
      assert ts[p..][..i - p] == ts[p..i] && ts[p..][i - p..] == ts[i..];
      assert ts[..i][..p] == ts[..p] && ts[..i][p..] == ts[p..i];
    } else {
      HostsNone(dcs, ts[p..]);
      HostsNone(dcs, ts[..i]);
      CountingSplit(dcs, ts[i..], p - i);
      CountingSplit(dcs, ts[..p], i);
      assert ts[i..][..p - i] == ts[i..p] && ts[i..][p - i..] == ts[p..];
      assert ts[..p][..i] == ts[..i] && ts[..p][i..] == ts[i..p];
    }
  }

  lemma SameEntry(dcs: Factors, ring: TokenRing, p: nat, i: nat)
    requires p < |ring.tokens| && i < |ring.tokens| && NoneBetween(dcs, ring.tokens, p, i)
    ensures Entry(dcs, ring, p) == Entry(dcs, ring, i)
  {
    hide RacksByDc;
    var racks := RacksByDc(ring.hosts);
    SameCounting(dcs, ring.tokens, p, i);
    OnlyCountingMatters(dcs, racks, Rotation(ring.tokens, p));
    OnlyCountingMatters(dcs, racks, Rotation(ring.tokens, i));
  }

  // ---------------------------------------------------------------- the entries by token

  predicate Counts(dcs: Factors, ts: seq<HostToken>, i: nat)
    requires i < |ts|
  {
    Rf(dcs, ts[i].host.dc) > 0
  }

  /** The tokens that have an entry. */
  function Kept(dcs: Factors, ts: seq<HostToken>, n: nat): seq<nat>
    requires n <= |ts|
  {
    if n == 0 then []
    else Kept(dcs, ts, n - 1) + if Counts(dcs, ts, n - 1) then [n - 1] else []
  }

  lemma {:induction false} KeptCounts(dcs: Factors, ts: seq<HostToken>, n: nat)
    requires n <= |ts|
    ensures forall k :: 0 <= k < |Kept(dcs, ts, n)| ==> Kept(dcs, ts, n)[k] < n && Counts(dcs, ts, Kept(dcs, ts, n)[k])
    ensures forall k, l :: 0 <= k < l < |Kept(dcs, ts, n)| ==> Kept(dcs, ts, n)[k] < Kept(dcs, ts, n)[l]
  {
    if n > 0 {
      KeptCounts(dcs, ts, n - 1);
    }
  }

  lemma {:induction false} KeptNone(dcs: Factors, ts: seq<HostToken>, n: nat)
    requires n <= |ts| && NoneCount(dcs, ts)
    ensures Kept(dcs, ts, n) == []
  {
    if n > 0 {
      KeptNone(dcs, ts, n - 1);
    }
  }

  lemma {:induction false} KeptHas(dcs: Factors, ts: seq<HostToken>, n: nat, i: nat) returns (k: nat)
    requires i < n <= |ts| && Counts(dcs, ts, i)
    ensures k < |Kept(dcs, ts, n)| && Kept(dcs, ts, n)[k] == i
  {
    if i == n - 1 {
      k := |Kept(dcs, ts, n)| - 1;
    } else {
      k := KeptHas(dcs, ts, n - 1, i);
    }
  }

  lemma {:induction false} EntriesAreKept(dcs: Factors, ring: TokenRing, n: nat)
    requires n <= |ring.tokens|
    ensures |Entries(dcs, ring, n)| == |Kept(dcs, ring.tokens, n)|
  {
    if n > 0 {
      hide Entry;
      EntriesAreKept(dcs, ring, n - 1);
    }
  }

  lemma {:induction false} EntryAt(dcs: Factors, ring: TokenRing, n: nat, k: nat)
    requires n <= |ring.tokens| && k < |Kept(dcs, ring.tokens, n)|
    ensures k < |Entries(dcs, ring, n)| && Kept(dcs, ring.tokens, n)[k] < |ring.tokens|
    ensures var i := Kept(dcs, ring.tokens, n)[k];
            Entries(dcs, ring, n)[k] == HostTokens(ring.tokens[i].token, Entry(dcs, ring, i))
  {
    hide Entry;
    EntriesAreKept(dcs, ring, n);
    if n > 0 {
      EntriesAreKept(dcs, ring, n - 1);
      if k < |Kept(dcs, ring.tokens, n - 1)| {
        EntryAt(dcs, ring, n - 1, k);
      }
    }
  }

  /** A counting token is found at its place among the entries. */
  lemma EntryOfToken(dcs: Factors, ring: TokenRing, i: nat) returns (k: nat)
    requires i < |ring.tokens| && Counts(dcs, ring.tokens, i)
    ensures k < |ReplicaMap(dcs, ring)| && k < |Kept(dcs, ring.tokens, |ring.tokens|)|
    ensures Kept(dcs, ring.tokens, |ring.tokens|)[k] == i && ReplicaMap(dcs, ring)[k].token == ring.tokens[i].token
  {
    hide Entry, Entries, Kept;
    k := KeptHas(dcs, ring.tokens, |ring.tokens|, i);
    EntryAt(dcs, ring, |ring.tokens|, k);
  }

  /** The lookup lands on an entry: no counting token lies between the token's own position and it. */
  lemma LandsAfter(dcs: Factors, ring: TokenRing, t: int, q: nat, i: nat)
    requires WellFormed(ring) && q == FirstAtLeast(EntryTokens(ReplicaMap(dcs, ring)), t) < |ReplicaMap(dcs, ring)|
    requires q < |Kept(dcs, ring.tokens, |ring.tokens|)|
    requires i == Kept(dcs, ring.tokens, |ring.tokens|)[q] < |ring.tokens|
    requires ReplicaMap(dcs, ring)[q].token == ring.tokens[i].token
    ensures NoneBetween(dcs, ring.tokens, PrimaryIndex(ring.tokens, t), i)
  {
    hide Entry, Entries, Kept, FirstAtLeast, TokensIn, EntryTokens;
    var ts := ring.tokens;
    var p := FirstAtLeast(TokensIn(ts), t);
    KeptCounts(dcs, ts, |ts|);
    assert p <= i;
    forall k | p <= k < i
      ensures Rf(dcs, ts[k].host.dc) == 0
    {
      if Counts(dcs, ts, k) {
        var _ := EntryOfToken(dcs, ring, k);
      }
    }
  }

  /** The lookup wraps: no counting token lies between the token's own position and the first entry's. */
  lemma WrapsAround(dcs: Factors, ring: TokenRing, t: int, i: nat)
    requires WellFormed(ring) && FirstAtLeast(EntryTokens(ReplicaMap(dcs, ring)), t) == |ReplicaMap(dcs, ring)|
    requires 0 < |Kept(dcs, ring.tokens, |ring.tokens|)|
    requires i == Kept(dcs, ring.tokens, |ring.tokens|)[0] < |ring.tokens|
    ensures NoneBetween(dcs, ring.tokens, PrimaryIndex(ring.tokens, t), i)
  {
    hide Entry, Entries, Kept, FirstAtLeast, TokensIn, EntryTokens;
    var ts := ring.tokens;
    var p := FirstAtLeast(TokensIn(ts), t);
    KeptCounts(dcs, ts, |ts|);
    forall k | 0 <= k < |ts| && (p <= k || k < i)
      ensures Rf(dcs, ts[k].host.dc) == 0
    {
      if Counts(dcs, ts, k) {
        var _ := EntryOfToken(dcs, ring, k);
      }
    }
    assert p > i;
    assert ts[0..i] == ts[..i];
  }

  lemma HasEntries(dcs: Factors, ring: TokenRing)
    requires !NoneCount(dcs, ring.tokens)
    ensures ReplicaMap(dcs, ring) != [] && |ReplicaMap(dcs, ring)| == |Kept(dcs, ring.tokens, |ring.tokens|)|
  {
    hide Entry, Entries, Kept;
    var ts := ring.tokens;
    var some :| 0 <= some < |ts| && Rf(dcs, ts[some].host.dc) != 0;
    var first := EntryOfToken(dcs, ring, some);
    EntriesAreKept(dcs, ring, |ts|);
  }

  /** The entry the lookup finds belongs to the first counting token at or after the token's
      own position, going round. */
  lemma LookupPosition(dcs: Factors, ring: TokenRing, t: int) returns (i: nat)
    requires WellFormed(ring) && !NoneCount(dcs, ring.tokens)
    ensures i < |ring.tokens| && ring.tokens != []
    ensures ReplicasFor(ReplicaMap(dcs, ring), t)
            == Some(HostTokens(ring.tokens[i].token, Entry(dcs, ring, i)))
    ensures NoneBetween(dcs, ring.tokens, PrimaryIndex(ring.tokens, t), i)
  {
    hide Entry, Entries, Kept, FirstAtLeast, TokensIn, EntryTokens, NoneCount, NoneBetween, WellFormed, PrimaryIndex;
    HasEntries(dcs, ring);
    var ts := ring.tokens;
    var kept := Kept(dcs, ts, |ts|);
    var q := FirstAtLeast(EntryTokens(ReplicaMap(dcs, ring)), t);
    if q < |kept| {
      EntryAt(dcs, ring, |ts|, q);
      i := kept[q];
      LandsAfter(dcs, ring, t, q, i);
    } else {
      EntryAt(dcs, ring, |ts|, 0);
      i := kept[0];
      WrapsAround(dcs, ring, t, i);
    }
  }

  /** Leaving out the tokens of datacenters without replicas is sound: the lookup returns the
      hosts a full turn from the token's own position collects, wrap-around included. */
  lemma LookupIsSound(dcs: Factors, ring: TokenRing, t: int)
    requires WellFormed(ring) && ring.tokens != []
    ensures var found := ReplicasFor(ReplicaMap(dcs, ring), t);
            && (found.None? <==> NoneCount(dcs, ring.tokens))
            && (found.Some? ==> found.value.hosts == Entry(dcs, ring, PrimaryIndex(ring.tokens, t)))
  {
    hide Entry, Entries, Kept;
    if NoneCount(dcs, ring.tokens) {
      EntriesAreKept(dcs, ring, |ring.tokens|);
      KeptNone(dcs, ring.tokens, |ring.tokens|);
    } else {
      var i := LookupPosition(dcs, ring, t);
      SameEntry(dcs, ring, PrimaryIndex(ring.tokens, t), i);
    }
  }

  /** Where no datacenter of the ring has replicas, a turn collects nobody. */
  lemma NoOwners(dcs: Factors, ring: TokenRing, p: nat)
    requires p < |ring.tokens| && NoneCount(dcs, ring.tokens)
    ensures Entry(dcs, ring, p) == []
  {
    var hs := Rotation(ring.tokens, p);
    CountingNone(dcs, hs);
    hide RacksByDc, Rotation, Step, Counting;
    OnlyCountingMatters(dcs, RacksByDc(ring.hosts), hs);
  }
}
