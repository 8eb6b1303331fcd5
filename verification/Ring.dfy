// Hosts, tokens and the token ring (token.go). A host's datacenter, rack, tokens and
// address do not change; a token is a point of a totally ordered set.
module Ring {

  datatype Host = Host(addr: nat, dc: string, rack: string, tokens: seq<int>)

  datatype HostToken = HostToken(token: int, host: Host)

  datatype TokenRing = TokenRing(tokens: seq<HostToken>, hosts: seq<Host>)

  predicate Sorted(ts: seq<HostToken>) {
    forall i, j :: 0 <= i < j < |ts| ==> ts[i].token <= ts[j].token
  }

  /** Every token belongs to a host of the ring, and tokens ascend. */
  predicate WellFormed(ring: TokenRing) {
    && Sorted(ring.tokens)
    && (forall i :: 0 <= i < |ring.tokens| ==> ring.tokens[i].host in ring.hosts)
  }

  function HostsOf(ts: seq<HostToken>): (r: seq<Host>)
    ensures |r| == |ts| && forall i :: 0 <= i < |ts| ==> r[i] == ts[i].host
  {
    if ts == [] then [] else [ts[0].host] + HostsOf(ts[1..])
  }

  /** The hosts of a datacenter, in order. */
  function InDc(hs: seq<Host>, dc: string): seq<Host> {
    if hs == [] then []
    else InDc(hs[..|hs| - 1], dc) + if hs[|hs| - 1].dc == dc then [hs[|hs| - 1]] else []
  }

  lemma InDcSnoc(hs: seq<Host>, h: Host, dc: string)
    ensures InDc(hs + [h], dc) == InDc(hs, dc) + if h.dc == dc then [h] else []
  {
    assert (hs + [h])[..|hs|] == hs;
  }

  lemma {:induction false} InDcConcat(a: seq<Host>, b: seq<Host>, dc: string)
    ensures InDc(a + b, dc) == InDc(a, dc) + InDc(b, dc)
  {
    if b == [] {
      assert a + b == a;
    } else {
      var c, h := b[..|b| - 1], b[|b| - 1];
      assert InDc(a + b, dc) == InDc(a + c, dc) + if h.dc == dc then [h] else [] by {
        assert a + b == a + c + [h];
        InDcSnoc(a + c, h, dc);
      }
      InDcConcat(a, c, dc);
    }
  }

  lemma {:induction false} InDcMembers(hs: seq<Host>, dc: string)
    ensures forall h :: h in InDc(hs, dc) <==> h in hs && h.dc == dc
  {
    if hs != [] {
      InDcMembers(hs[..|hs| - 1], dc);
      assert hs == hs[..|hs| - 1] + [hs[|hs| - 1]];
    }
  }

  lemma {:induction false} InDcCount(hs: seq<Host>, dc: string, h: Host)
    requires h.dc == dc
    ensures multiset(InDc(hs, dc))[h] == multiset(hs)[h]
  {
    if hs != [] {
      InDcCount(hs[..|hs| - 1], dc, h);
      assert hs == hs[..|hs| - 1] + [hs[|hs| - 1]];
    }
  }

  /** The size of a datacenter's part depends on which hosts there are, not on their order. */
  lemma {:induction false} InDcSize(a: seq<Host>, b: seq<Host>, dc: string)
    requires multiset(a) == multiset(b)
    ensures |InDc(a, dc)| == |InDc(b, dc)|
  {
    InDcMembers(a, dc);
    InDcMembers(b, dc);
    forall h: Host
      ensures multiset(InDc(a, dc))[h] == multiset(InDc(b, dc))[h]
    {
      if h.dc == dc {
        InDcCount(a, dc, h);
        InDcCount(b, dc, h);
      } else {
        assert h !in InDc(a, dc) && h !in InDc(b, dc);
      }
    }
    assert multiset(InDc(a, dc)) == multiset(InDc(b, dc));
    SameSize(InDc(a, dc), InDc(b, dc));
  }

  lemma SameSize(a: seq<Host>, b: seq<Host>)
    requires multiset(a) == multiset(b)
    ensures |a| == |b|
  {
    assert |multiset(a)| == |a| && |multiset(b)| == |b|;
  }

  /** The order the placement walks visit hosts in, starting at token i. */
  function Rotation(ts: seq<HostToken>, i: nat): (r: seq<Host>)
    requires i <= |ts|
    ensures |r| == |ts|
  {
    HostsOf(ts[i..]) + HostsOf(ts[..i])
  }

  lemma RotationAt(ts: seq<HostToken>, i: nat, j: nat)
    requires i < |ts| && j < |ts|
    ensures Rotation(ts, i)[j] == ts[if i + j >= |ts| then i + j - |ts| else i + j].host
  {
  }

  /** sort.Search for the first token not less than t. */
  function FirstAtLeast(tokens: seq<int>, t: int): (p: nat)
    ensures p <= |tokens|
    ensures forall k :: 0 <= k < p ==> tokens[k] < t
    ensures p < |tokens| ==> tokens[p] >= t
  {
    if tokens == [] || tokens[0] >= t then 0 else 1 + FirstAtLeast(tokens[1..], t)
  }

  function TokensIn(ts: seq<HostToken>): (r: seq<int>)
    ensures |r| == |ts| && forall i :: 0 <= i < |ts| ==> r[i] == ts[i].token
  {
    seq(|ts|, i requires 0 <= i < |ts| => ts[i].token)
  }

  /** GetHostForToken: the owner of the range t falls in; past the last token it wraps. */
  function PrimaryIndex(ts: seq<HostToken>, t: int): (p: nat)
    requires ts != []
    ensures p < |ts| && forall k :: 0 <= k < p ==> ts[k].token < t
    ensures ts[p].token >= t || (p == 0 && forall k :: 0 <= k < |ts| ==> ts[k].token < t)
  {
    var p := FirstAtLeast(TokensIn(ts), t);
    if p == |ts| then 0 else p
  }

  // ---------------------------------------------------------------- newTokenRing

  function FirstAbove(ts: seq<HostToken>, t: int): (p: nat)
    requires Sorted(ts)
    ensures p <= |ts|
    ensures forall k :: 0 <= k < p ==> ts[k].token <= t
    ensures forall k :: p <= k < |ts| ==> ts[k].token > t
  {
    if ts == [] || ts[|ts| - 1].token <= t then |ts| else FirstAbove(ts[..|ts| - 1], t)
  }

  function Insert(ts: seq<HostToken>, x: HostToken): (r: seq<HostToken>)
    requires Sorted(ts)
    ensures Sorted(r) && multiset(r) == multiset(ts) + multiset{x}
  {
    var p := FirstAbove(ts, x.token);
    assert ts == ts[..p] + ts[p..];
    ts[..p] + [x] + ts[p..]
  }

  /** sort.Sort on the collected tokens. */
  function SortTokens(ts: seq<HostToken>): (r: seq<HostToken>)
    ensures Sorted(r) && multiset(r) == multiset(ts)
  {
    if ts == [] then []
    else
      assert ts == ts[..|ts| - 1] + [ts[|ts| - 1]];
      Insert(SortTokens(ts[..|ts| - 1]), ts[|ts| - 1])
  }

  function TokensOf(h: Host): (r: seq<HostToken>)
    ensures |r| == |h.tokens| && forall i :: 0 <= i < |r| ==> r[i] == HostToken(h.tokens[i], h)
  {
    seq(|h.tokens|, i requires 0 <= i < |h.tokens| => HostToken(h.tokens[i], h))
  }

  function AllTokens(hosts: seq<Host>): (r: seq<HostToken>)
    ensures forall x :: x in r ==> x.host in hosts
  {
    if hosts == [] then []
    else AllTokens(hosts[..|hosts| - 1]) + TokensOf(hosts[|hosts| - 1])
  }

  lemma {:induction false} PairCount(ts: seq<int>, h: Host, pairs: seq<HostToken>, x: HostToken)
    requires |pairs| == |ts| && forall i :: 0 <= i < |ts| ==> pairs[i] == HostToken(ts[i], h)
    ensures multiset(pairs)[x] == if x.host == h then multiset(ts)[x.token] else 0
    decreases |ts|
  {
    if ts != [] {
      var n := |ts| - 1;
      PairCount(ts[..n], h, pairs[..n], x);
      assert ts == ts[..n] + [ts[n]] && pairs == pairs[..n] + [pairs[n]];
    }
  }

  lemma TokensGrow(before: seq<Host>, h: Host, x: HostToken)
    ensures multiset(before + [h])[x.host] == multiset(before)[x.host] + if h == x.host then 1 else 0
    ensures multiset(AllTokens(before + [h]))[x]
         == multiset(AllTokens(before))[x] + if h == x.host then multiset(h.tokens)[x.token] else 0
  {
    assert (before + [h])[..|before|] == before;
    PairCount(h.tokens, h, TokensOf(h), x);
  }

  /** Each host brings each of its tokens, as often as it is listed. */
  lemma {:induction false} TokenCount(hosts: seq<Host>, x: HostToken)
    ensures multiset(AllTokens(hosts))[x] == multiset(hosts)[x.host] * multiset(x.host.tokens)[x.token]
  {
    if hosts != [] {
      hide AllTokens;
      var before, h := hosts[..|hosts| - 1], hosts[|hosts| - 1];
      TokenCount(before, x);
      assert hosts == before + [h];
      TokensGrow(before, h, x);
      OnceMore(multiset(before)[x.host], multiset(x.host.tokens)[x.token]);
    }
  }

  lemma OnceMore(n: nat, m: nat)
    ensures (n + 1) * m == n * m + m
  {
  }

  /** A token is on the ring if and only if it is one of the tokens of a host in the list. */
  lemma OnRing(hosts: seq<Host>, x: HostToken)
    ensures x in RingOf(hosts).tokens <==> x.host in hosts && x.token in x.host.tokens
    ensures multiset(RingOf(hosts).tokens)[x] == multiset(hosts)[x.host] * multiset(x.host.tokens)[x.token]
  {
    hide RingOf, AllTokens;
    TokenCount(hosts, x);
    var r := RingOf(hosts).tokens;
    assert x in r <==> multiset(r)[x] > 0;
    assert x.host in hosts <==> multiset(hosts)[x.host] > 0;
    assert x.token in x.host.tokens <==> multiset(x.host.tokens)[x.token] > 0;
    Positive(multiset(hosts)[x.host], multiset(x.host.tokens)[x.token]);
  }

  lemma Positive(a: nat, b: nat)
    ensures a * b > 0 <==> a > 0 && b > 0
  {
  }

  lemma SameMembers(a: seq<HostToken>, b: seq<HostToken>)
    requires multiset(a) == multiset(b)
    ensures forall i :: 0 <= i < |a| ==> a[i] in b
  {
    forall i | 0 <= i < |a|
      ensures a[i] in b
    {
      assert a[i] in multiset(a);
    }
  }

  /** The ring over a list of hosts. */
  function RingOf(hosts: seq<Host>): (r: TokenRing)
    ensures WellFormed(r) && r.hosts == hosts && multiset(r.tokens) == multiset(AllTokens(hosts))
  {
    var ts := SortTokens(AllTokens(hosts));
    SameMembers(ts, AllTokens(hosts));
    TokenRing(ts, hosts)
  }

  /** newTokenRing's nested loops over hosts and their tokens. */
  method NewTokenRing(hosts: seq<Host>) returns (ring: TokenRing)
    ensures ring == RingOf(hosts)
  {
    var tokens: seq<HostToken> := [];
    for i := 0 to |hosts|
      invariant tokens == AllTokens(hosts[..i])
    {
      var h := hosts[i];
      ghost var before := tokens;
      for j := 0 to |h.tokens|
        invariant tokens == before + TokensOf(h)[..j]
      {
        tokens := tokens + [HostToken(h.tokens[j], h)];
      }
      assert hosts[..i + 1][..i] == hosts[..i];
    }
    assert hosts[..|hosts|] == hosts;
    ring := TokenRing(SortTokens(tokens), hosts);
  }
}
