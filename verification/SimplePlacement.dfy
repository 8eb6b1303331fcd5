// simpleStrategy.replicaMap (topology.go:165-187): the first rf different hosts from the
// token on.
module SimplePlacement {
  import opened Common
  import opened Ring
  import opened DcPlacement
  import opened Placement
  import opened Compaction

  /** The hosts in order of first appearance, at most rf of them. */
  function FirstDifferent(rf: nat, hs: seq<Host>): seq<Host> {
    if hs == [] then []
    else
      var before := FirstDifferent(rf, hs[..|hs| - 1]);
      if |before| < rf && hs[|hs| - 1] !in before then before + [hs[|hs| - 1]] else before
  }

  function SimpleEntries(rf: nat, ring: TokenRing): (r: seq<HostTokens>)
    ensures |r| == |ring.tokens|
    ensures var ts := ring.tokens;
      forall i :: 0 <= i < |r| ==> r[i] == HostTokens(ts[i].token, FirstDifferent(rf, Rotation(ts, i)))
  {
    seq(|ring.tokens|, i requires 0 <= i < |ring.tokens| =>
      HostTokens(ring.tokens[i].token, FirstDifferent(rf, Rotation(ring.tokens, i))))
  }

  function HostSet(hs: seq<Host>): set<Host> {
    set h | h in hs
  }

  lemma {:induction false} NoneTwice(rf: nat, hs: seq<Host>)
    ensures NoRepeat(FirstDifferent(rf, hs)) && |FirstDifferent(rf, hs)| <= rf
    ensures rf > 0 && hs != [] ==> FirstDifferent(rf, hs) != [] && FirstDifferent(rf, hs)[0] == hs[0]
  {
    if hs != [] {
      NoneTwice(rf, hs[..|hs| - 1]);
    }
  }

  lemma HostSetSnoc(hs: seq<Host>, h: Host)
    ensures HostSet(hs + [h]) == HostSet(hs) + {h}
  {
  }

  lemma {:induction false} AllUnlessFull(rf: nat, hs: seq<Host>)
    ensures HostSet(FirstDifferent(rf, hs)) <= HostSet(hs)
    ensures |FirstDifferent(rf, hs)| < rf ==> HostSet(FirstDifferent(rf, hs)) == HostSet(hs)
  {
    if hs != [] {
      var before := hs[..|hs| - 1];
      var h := hs[|hs| - 1];
      var kept := FirstDifferent(rf, before);
      AllUnlessFull(rf, before);
      assert h in kept <==> h in HostSet(kept);
      hide HostSet;
      assert hs == before + [h];
      HostSetSnoc(before, h);
      HostSetSnoc(kept, h);
    }
  }

  lemma {:induction false} NoRepeatSize(hs: seq<Host>)
    requires NoRepeat(hs)
    ensures |HostSet(hs)| == |hs|
  {
    if hs == [] {
      assert HostSet(hs) == {};
    } else {
      var before := hs[..|hs| - 1];
      assert hs == before + [hs[|hs| - 1]];
      NoRepeatSize(before);
      HostSetSnoc(before, hs[|hs| - 1]);
    }
  }

  lemma SubsetSize(a: set<Host>, b: set<Host>)
    requires a <= b
    ensures |a| <= |b|
  {
    assert b == a + (b - a);
  }

  /** No repeats, the first host first, and min(rf, hosts) replicas. */
  lemma FirstDifferentIs(rf: nat, hs: seq<Host>)
    ensures NoRepeat(FirstDifferent(rf, hs))
    ensures |FirstDifferent(rf, hs)| == Min(rf, |HostSet(hs)|)
    ensures rf > 0 && hs != [] ==> FirstDifferent(rf, hs) != [] && FirstDifferent(rf, hs)[0] == hs[0]
  {
    hide FirstDifferent, HostSet;
    NoneTwice(rf, hs);
    AllUnlessFull(rf, hs);
    NoRepeatSize(FirstDifferent(rf, hs));
    SubsetSize(HostSet(FirstDifferent(rf, hs)), HostSet(hs));
  }

  /** The hosts that do not come earlier, in the order of the walk. */
  function Newcomers(hs: seq<Host>): seq<Host> {
    if hs == [] then []
    else
      var before := hs[..|hs| - 1];
      Newcomers(before) + if hs[|hs| - 1] in before then [] else [hs[|hs| - 1]]
  }

  lemma {:induction false} NewcomersAre(hs: seq<Host>)
    ensures forall h :: h in Newcomers(hs) <==> h in hs
  {
    if hs != [] {
      NewcomersAre(hs[..|hs| - 1]);
      assert hs == hs[..|hs| - 1] + [hs[|hs| - 1]];
    }
  }

  /** Which hosts, and in which order: the first rf of those that do not come earlier. */
  lemma {:induction false} FirstNewcomers(rf: nat, hs: seq<Host>)
    ensures FirstDifferent(rf, hs) == Take(Newcomers(hs), rf)
  {
    if hs != [] {
      var before, h := hs[..|hs| - 1], hs[|hs| - 1];
      FirstNewcomers(rf, before);
      NewcomersAre(before);
    }
  }

  /** What every SimpleStrategy entry promises. */
  lemma SimpleEntryPromises(rf: nat, ring: TokenRing, i: nat)
    requires i < |ring.tokens| && rf > 0
    ensures var hosts := SimpleEntries(rf, ring)[i].hosts;
            && hosts != [] && hosts[0] == ring.tokens[i].host
            && NoRepeat(hosts)
            && |hosts| == Min(rf, |HostSet(HostsOf(ring.tokens))|)
  {
    hide FirstDifferent, Rotation, SimpleEntries, HostSet, HostsOf;
    var hs := Rotation(ring.tokens, i);
    FirstDifferentIs(rf, hs);
    RotationAt(ring.tokens, i, 0);
    RotationIsAll(ring.tokens, i);
    SameHostSet(hs, HostsOf(ring.tokens));
  }

  lemma SameHostSet(a: seq<Host>, b: seq<Host>)
    requires multiset(a) == multiset(b)
    ensures HostSet(a) == HostSet(b)
  {
    assert forall h :: h in a <==> h in multiset(a);
    assert forall h :: h in b <==> h in multiset(b);
  }

  /** The inner loop: `seen` marks the hosts already taken. */
  method FirstHosts(rf: nat, tokens: seq<HostToken>, i: nat) returns (replicas: seq<Host>)
    requires i < |tokens|
    ensures replicas == FirstDifferent(rf, Rotation(tokens, i))
  {
    hide Rotation;
    ghost var hs := Rotation(tokens, i);
    replicas := [];
    var seen: map<Host, bool> := map[];
    var j := 0;
    while j < |tokens| && |replicas| < rf
      invariant 0 <= j <= |tokens|
      invariant replicas == FirstDifferent(rf, hs[..j])
      invariant forall h :: h in seen <==> h in replicas
    {
      var h := tokens[(i + j) % |tokens|].host;
      RotationAt(tokens, i, j);
      Wraps(i, j, |tokens|);
      assert hs[..j + 1][..j] == hs[..j];
      if h !in seen {
        replicas := replicas + [h];
        seen := seen[h := true];
      }
      j := j + 1;
    }
    RestIgnored(rf, hs, j);
  }

  lemma {:induction false} RestIgnored(rf: nat, hs: seq<Host>, n: nat)
    requires n <= |hs| && (n == |hs| || |FirstDifferent(rf, hs[..n])| >= rf)
    ensures FirstDifferent(rf, hs) == FirstDifferent(rf, hs[..n])
  {
    if n < |hs| {
      assert hs[..|hs| - 1][..n] == hs[..n];
      RestIgnored(rf, hs[..|hs| - 1], n);
    } else {
      assert hs[..n] == hs;
    }
  }

  // ---------------------------------------------------------------- the closing sort

  predicate SortedEntries(es: seq<HostTokens>) {
    forall i, j :: 0 <= i < j < |es| ==> es[i].token <= es[j].token
  }

  /** sort.Sort by insertion: what is in order stays where it is. */
  method SortEntries(es: seq<HostTokens>) returns (r: seq<HostTokens>)
    ensures SortedEntries(r) && multiset(r) == multiset(es)
    ensures SortedEntries(es) ==> r == es
  {
    r := es;
    for i := 0 to |es|
      invariant |r| == |es| && SortedEntries(r[..i]) && multiset(r) == multiset(es)
      invariant SortedEntries(es) ==> r == es
    {
      r := SinkEntry(r, i);
    }
    assert r[..|es|] == r;
  }

  /** In order, but for the entry at j, which may belong further down. */
  predicate SortedBut(es: seq<HostTokens>, j: nat) {
    forall k, l :: 0 <= k < l < |es| && l != j ==> es[k].token <= es[l].token
  }

  function SwapDown(es: seq<HostTokens>, j: nat): (r: seq<HostTokens>)
    requires 0 < j < |es|
    ensures |r| == |es| && multiset(r) == multiset(es)
    ensures forall k :: 0 <= k < |es| ==> r[k] == if k == j then es[j - 1] else if k == j - 1 then es[j] else es[k]
  {
    es[j := es[j - 1]][j - 1 := es[j]]
  }

  lemma SwapSinks(es: seq<HostTokens>, n: nat, j: nat)
    requires 0 < j < n <= |es| && SortedBut(es[..n], j) && es[j].token < es[j - 1].token
    ensures SortedBut(SwapDown(es, j)[..n], j - 1)
  {
    hide SwapDown;
    assert es[..n][j - 1] == es[j - 1];
  }

  method SinkEntry(es: seq<HostTokens>, i: nat) returns (r: seq<HostTokens>)
    requires i < |es| && SortedEntries(es[..i])
    ensures |r| == |es| && SortedEntries(r[..i + 1]) && multiset(r) == multiset(es)
    ensures SortedEntries(es) ==> r == es
  {
    r := es;
    var j: nat := i;
    assert SortedBut(r[..i + 1], i) by { SinkStarts(es, i); }
    hide SwapDown, SortedBut;
    while j > 0 && r[j].token < r[j - 1].token
      invariant j <= i && |r| == |es| && multiset(r) == multiset(es)
      invariant SortedBut(r[..i + 1], j)
      invariant SortedEntries(es) ==> r == es
    {
      SwapSinks(r, i + 1, j);
      r := SwapDown(r, j);
      j := j - 1;
    }
    SinkEnds(r[..i + 1], j);
  }

  lemma SinkStarts(es: seq<HostTokens>, i: nat)
    requires i < |es| && SortedEntries(es[..i])
    ensures SortedBut(es[..i + 1], i)
  {
    assert forall k :: 0 <= k < i ==> es[..i + 1][k] == es[..i][k];
  }

  lemma SinkEnds(es: seq<HostTokens>, j: nat)
    requires j < |es| && SortedBut(es, j) && (j == 0 || es[j].token >= es[j - 1].token)
    ensures SortedEntries(es)
  {
  }

  lemma EntriesSorted(rf: nat, ring: TokenRing)
    requires Sorted(ring.tokens)
    ensures SortedEntries(SimpleEntries(rf, ring))
  {
    hide FirstDifferent, Rotation, SimpleEntries;
  }

  /** The whole of replicaMap, the closing sort included: on a ring in order it has nothing to do. */
  method ComputeSimpleEntries(rf: nat, ring: TokenRing) returns (entries: seq<HostTokens>)
    ensures SortedEntries(entries) && multiset(entries) == multiset(SimpleEntries(rf, ring))
    ensures Sorted(ring.tokens) ==> entries == SimpleEntries(rf, ring)
  {
    hide FirstDifferent, Rotation, SimpleEntries;
    entries := [];
    for i := 0 to |ring.tokens|
      invariant entries == SimpleEntries(rf, ring)[..i]
    {
      var replicas := FirstHosts(rf, ring.tokens, i);
      entries := entries + [HostTokens(ring.tokens[i].token, replicas)];
    }
    assert entries == SimpleEntries(rf, ring);
    if Sorted(ring.tokens) {
      EntriesSorted(rf, ring);
    }
    entries := SortEntries(entries);
  }

  // ---------------------------------------------------------------- any other sort

  predicate SortedTokens(ts: seq<int>) {
    forall i, j :: 0 <= i < j < |ts| ==> ts[i] <= ts[j]
  }

  lemma LastIsGreatest(a: seq<int>, b: seq<int>)
    requires SortedTokens(a) && SortedTokens(b) && multiset(a) == multiset(b) && a != []
    ensures |b| == |a| && b[|a| - 1] == a[|a| - 1]
  {
    assert |a| == |multiset(a)| && |b| == |multiset(b)|;
    var n := |a| - 1;
    assert a[n] in multiset(b) && b[n] in multiset(a);
    var i :| 0 <= i < |b| && b[i] == a[n];
    var j :| 0 <= j < |a| && a[j] == b[n];
  }

  lemma WithoutLast(a: seq<int>)
    requires a != []
    ensures a == a[..|a| - 1] + [a[|a| - 1]]
    ensures multiset(a[..|a| - 1]) == multiset(a) - multiset{a[|a| - 1]}
    ensures SortedTokens(a) ==> SortedTokens(a[..|a| - 1])
  {
    assert a == a[..|a| - 1] + [a[|a| - 1]];
  }

  lemma {:induction false} OneOrder(a: seq<int>, b: seq<int>)
    requires SortedTokens(a) && SortedTokens(b) && multiset(a) == multiset(b)
    ensures a == b
    decreases |a|
  {
    hide SortedTokens;
    if a == [] {
      assert |multiset(b)| == |b|;
    } else {
      LastIsGreatest(a, b);
      WithoutLast(a);
      WithoutLast(b);
      OneOrder(a[..|a| - 1], b[..|b| - 1]);
    }
  }

  lemma TakeOut(es: seq<HostTokens>, j: nat)
    requires j < |es|
    ensures multiset(es[..j] + es[j + 1..]) == multiset(es) - multiset{es[j]}
    ensures multiset(EntryTokens(es)) == multiset(EntryTokens(es[..j] + es[j + 1..])) + multiset{es[j].token}
  {
    assert es == es[..j] + [es[j]] + es[j + 1..];
    assert EntryTokens(es[..j] + es[j + 1..]) == EntryTokens(es)[..j] + EntryTokens(es)[j + 1..];
    assert EntryTokens(es) == EntryTokens(es)[..j] + [es[j].token] + EntryTokens(es)[j + 1..];
  }

  lemma {:induction false} SameTokens(a: seq<HostTokens>, b: seq<HostTokens>)
    requires multiset(a) == multiset(b)
    ensures multiset(EntryTokens(a)) == multiset(EntryTokens(b))
    decreases |a|
  {
    if a == [] {
      assert |multiset(b)| == |b|;
    } else {
      var n := |a| - 1;
      var x := a[n];
      assert x in multiset(b);
      var j :| 0 <= j < |b| && b[j] == x;
      var b' := b[..j] + b[j + 1..];
      hide EntryTokens;
      assert a[..n] + a[n + 1..] == a[..n];
      TakeOut(a, n);
      TakeOut(b, j);
      SameTokens(a[..n], b');
    }
  }

  /** Whatever sort.Sort does, it leaves every token at its position, so it can only exchange entries
      of one token; with different tokens it changes nothing. */
  lemma SortMovesOnlyTies(es: seq<HostTokens>, sorted: seq<HostTokens>)
    requires SortedEntries(es) && SortedEntries(sorted) && multiset(sorted) == multiset(es)
    ensures |sorted| == |es| && forall i :: 0 <= i < |es| ==> sorted[i].token == es[i].token
    ensures (forall i, j :: 0 <= i < j < |es| ==> es[i].token != es[j].token) ==> sorted == es
  {
    hide EntryTokens;
    SameTokens(es, sorted);
    OneOrder(EntryTokens(es), EntryTokens(sorted));
    if forall i, j :: 0 <= i < j < |es| ==> es[i].token != es[j].token {
      forall i | 0 <= i < |es|
        ensures sorted[i] == es[i]
      {
        assert sorted[i] in multiset(es);
        var j :| 0 <= j < |es| && es[j] == sorted[i];
        assert es[j].token == es[i].token;
      }
    }
  }

  // ---------------------------------------------------------------- looking replicas up

  /** The lookup gives the first rf different hosts from the token's own position on. */
  lemma SimpleLookup(rf: nat, ring: TokenRing, t: int)
    requires ring.tokens != []
    ensures var p, found := PrimaryIndex(ring.tokens, t), ReplicasFor(SimpleEntries(rf, ring), t);
      found == Some(HostTokens(ring.tokens[p].token, FirstDifferent(rf, Rotation(ring.tokens, p))))
  {
    hide FirstDifferent, Rotation, FirstAtLeast;
    assert EntryTokens(SimpleEntries(rf, ring)) == TokensIn(ring.tokens);
  }
}
