// The iterator of tokenAwareHostPolicy.Pick (policies.go:768-826): local replicas, then remote
// replicas by tier, then whatever the fallback policy offers that was not tried yet.
module TokenAwareIterator {
  import opened Common
  import opened HostIterators

  /** What Pick fixes: host states, tiers, the options, the replicas and the fallback's own order. */
  datatype Query = Query(up: nat -> bool, tier: nat -> nat, maxTier: nat, nonLocal: bool,
                         replicas: seq<nat>, fallback: seq<nat>)

  /** HostTier stays within MaxHostTier. */
  predicate TiersOk(q: Query) {
    forall h :: h in q.replicas ==> q.tier(h) <= q.maxTier
  }

  function LocalUp(q: Query): nat -> bool {
    (h: nat) => q.tier(h) == 0 && q.up(h)
  }

  function InTier(q: Query, t: nat): nat -> bool {
    (h: nat) => q.tier(h) == t
  }

  function Local(q: Query, hosts: seq<nat>): seq<nat> {
    Filter(LocalUp(q), hosts)
  }

  /** The replicas of one tier. */
  function TierOf(q: Query, hosts: seq<nat>, t: nat): seq<nat> {
    Filter(InTier(q, t), hosts)
  }

  function Tiers(q: Query, hosts: seq<nat>): (r: seq<seq<nat>>)
    ensures |r| == q.maxTier && forall t :: 0 <= t < q.maxTier ==> r[t] == TierOf(q, hosts, t + 1)
  {
    seq(q.maxTier, t requires 0 <= t < q.maxTier => TierOf(q, hosts, t + 1))
  }

  /** The loop over remote replicas: it ends at the first tier that has none. */
  function Visit(up: nat -> bool, tiers: seq<seq<nat>>): seq<nat> {
    if tiers == [] || tiers[0] == [] then [] else Filter(up, tiers[0]) + Visit(up, tiers[1..])
  }

  function Remote(q: Query): seq<nat> {
    if q.nonLocal then Visit(q.up, Tiers(q, q.replicas)) else []
  }

  /** The fallback's hosts that were not used, each once. */
  function Fresh(hosts: seq<nat>, used: set<nat>): seq<nat> {
    if hosts == [] then []
    else if hosts[0] in used then Fresh(hosts[1..], used)
    else [hosts[0]] + Fresh(hosts[1..], used + {hosts[0]})
  }

  function Set(s: seq<nat>): set<nat> {
    set x | x in s
  }

  function Order(q: Query): seq<nat> {
    var first := Local(q, q.replicas) + Remote(q);
    first + Fresh(q.fallback, Set(first))
  }

  // ---------------------------------------------------------------- what the order promises

  lemma {:induction false} FreshMember(hosts: seq<nat>, used: set<nat>, x: nat)
    ensures x in Fresh(hosts, used) <==> x in hosts && x !in used
  {
    if hosts != [] {
      if hosts[0] in used {
        FreshMember(hosts[1..], used, x);
      } else {
        FreshMember(hosts[1..], used + {hosts[0]}, x);
      }
    }
  }

  lemma {:induction false} FreshNoRepeat(hosts: seq<nat>, used: set<nat>)
    ensures NoRepeat(Fresh(hosts, used))
  {
    if hosts != [] {
      if hosts[0] in used {
        FreshNoRepeat(hosts[1..], used);
      } else {
        FreshNoRepeat(hosts[1..], used + {hosts[0]});
        FreshMember(hosts[1..], used + {hosts[0]}, hosts[0]);
      }
    }
  }

  /** The first n hosts of the fallback, without those used or listed earlier. */
  function StillNew(hosts: seq<nat>, used: set<nat>, n: nat): seq<nat>
    requires n <= |hosts|
  {
    if n == 0 then []
    else
      var h := hosts[n - 1];
      StillNew(hosts, used, n - 1) + if h in used || h in hosts[..n - 1] then [] else [h]
  }

  lemma {:induction false} StillNewCons(hosts: seq<nat>, used: set<nat>, n: nat)
    requires 0 < n <= |hosts|
    ensures var more := StillNew(hosts[1..], used + {hosts[0]}, n - 1);
      StillNew(hosts, used, n) == if hosts[0] in used then more else [hosts[0]] + more
  {
    if n == 1 {
      assert hosts[..0] == [];
    } else {
      StillNewCons(hosts, used, n - 1);
      assert hosts[..n - 1] == [hosts[0]] + hosts[1..][..n - 2];
    }
  }

  /** The fallback's hosts come in the fallback's own order. */
  lemma {:induction false} FreshInOrder(hosts: seq<nat>, used: set<nat>)
    ensures Fresh(hosts, used) == StillNew(hosts, used, |hosts|)
    decreases |hosts|
  {
    hide StillNew;
    if hosts == [] {
      assert StillNew(hosts, used, 0) == [] by { NoneNew(hosts, used); }
    } else {
      StillNewCons(hosts, used, |hosts|);
      if hosts[0] in used {
        assert used + {hosts[0]} == used;
      }
      FreshInOrder(hosts[1..], used + {hosts[0]});
    }
  }

  lemma NoneNew(hosts: seq<nat>, used: set<nat>)
    ensures StillNew(hosts, used, 0) == []
  {
  }

  /** No host of the fallback is missed. */
  lemma MissesNoHost(q: Query, h: nat)
    requires h in q.fallback
    ensures h in Order(q)
  {
    var first := Local(q, q.replicas) + Remote(q);
    FreshMember(q.fallback, Set(first), h);
  }

  /** The loop over remote replicas gets as far as tier t. */
  predicate Reached(q: Query, from: nat, t: nat) {
    forall u: nat :: from < u <= t ==> TierOf(q, q.replicas, u) != []
  }

  /** The hosts tried as replicas: up, and local or of a remote tier the loop gets to. */
  predicate Tried(q: Query, h: nat) {
    q.up(h) && (q.tier(h) == 0 || (q.nonLocal && q.tier(h) <= q.maxTier && Reached(q, 0, q.tier(h))))
  }

  lemma {:induction false} VisitCount(q: Query, tiers: seq<seq<nat>>, t: nat, x: nat)
    requires |tiers| + t == q.maxTier
    requires forall i :: 0 <= i < |tiers| ==> tiers[i] == TierOf(q, q.replicas, t + i + 1)
    ensures multiset(Visit(q.up, tiers))[x]
         == if q.up(x) && t < q.tier(x) <= q.maxTier && Reached(q, t, q.tier(x)) then multiset(q.replicas)[x] else 0
    decreases |tiers|
  {
    hide Filter;
    if tiers != [] {
      assert tiers[0] == TierOf(q, q.replicas, t + 1);
      if tiers[0] != [] {
        FilterCount(q.up, tiers[0], x);
        FilterCount(InTier(q, t + 1), q.replicas, x);
        VisitCount(q, tiers[1..], t + 1, x);
        assert Reached(q, t + 1, q.tier(x)) <==> Reached(q, t, q.tier(x)) by { ReachedFrom(q, t, q.tier(x)); }
      }
    }
  }

  lemma ReachedFrom(q: Query, from: nat, t: nat)
    requires TierOf(q, q.replicas, from + 1) != []
    ensures Reached(q, from + 1, t) <==> Reached(q, from, t)
  {
  }

  /** How often a host is tried as a replica. */
  lemma TriedCount(q: Query, x: nat)
    ensures multiset(Local(q, q.replicas) + Remote(q))[x] == if Tried(q, x) then multiset(q.replicas)[x] else 0
  {
    hide Filter, Visit, Reached;
    FilterCount(LocalUp(q), q.replicas, x);
    VisitCount(q, Tiers(q, q.replicas), 0, x);
  }

  lemma {:induction false} NoRepeatCount(s: seq<nat>)
    ensures NoRepeat(s) <==> forall x :: multiset(s)[x] <= 1
  {
    if s != [] {
      var x, rest := s[0], s[1..];
      NoRepeatCount(rest);
      assert s == [x] + rest;
      assert NoRepeat(s) <==> NoRepeat(rest) && x !in rest by { NoRepeatCons(x, rest); }
      assert x in rest <==> multiset(rest)[x] > 0;
      if NoRepeat(rest) && x !in rest {
        assert forall y :: multiset(s)[y] == multiset{x}[y] + multiset(rest)[y];
      } else if NoRepeat(rest) {
        assert multiset(s)[x] > 1;
      } else {
        var y :| multiset(rest)[y] > 1;
        assert multiset(s)[y] > 1;
      }
    }
  }

  lemma NoRepeatCons(x: nat, rest: seq<nat>)
    ensures NoRepeat([x] + rest) <==> NoRepeat(rest) && x !in rest
  {
    var s := [x] + rest;
    assert forall i :: 0 <= i < |rest| ==> rest[i] == s[i + 1];
    if x in rest {
      var i :| 0 <= i < |rest| && rest[i] == x;
      assert s[0] == s[i + 1];
    }
  }

  lemma Disjoint(a: seq<nat>, b: seq<nat>)
    requires NoRepeat(b) && forall x :: x in a ==> x !in b
    ensures NoRepeat(a + b) <==> NoRepeat(a)
  {
    var s := a + b;
    assert forall i :: 0 <= i < |a| ==> a[i] == s[i];
    if NoRepeat(a) {
      forall i, j | 0 <= i < j < |s|
        ensures s[i] != s[j]
      {
        if i < |a| <= j {
          assert a[i] in a && b[j - |a|] in b;
        }
      }
    }
  }

  /** No host comes twice if and only if no replica that is tried is listed twice. */
  lemma NoHostTwiceIff(q: Query)
    ensures NoRepeat(Order(q)) <==> forall x :: x in q.replicas && Tried(q, x) ==> multiset(q.replicas)[x] == 1
  {
    hide Filter, Visit, Fresh, Tried;
    var first := Local(q, q.replicas) + Remote(q);
    FreshNoRepeat(q.fallback, Set(first));
    forall x | x in first
      ensures x !in Fresh(q.fallback, Set(first))
    {
      FreshMember(q.fallback, Set(first), x);
    }
    Disjoint(first, Fresh(q.fallback, Set(first)));
    NoRepeatCount(first);
    forall x
      ensures multiset(first)[x] == if Tried(q, x) then multiset(q.replicas)[x] else 0
    {
      TriedCount(q, x);
    }
  }

  /** A local replica listed twice is offered twice. */
  lemma ReplicaOfferedTwice()
    ensures var q := Query(_ => true, _ => 0, 0, false, [1, 1], [1]); Order(q) == [1, 1]
  {
    var q := Query(_ => true, _ => 0, 0, false, [1, 1], [1]);
    assert [1, 1][1..] == [1] && [1][1..] == [];
    assert Filter(LocalUp(q), [1]) == [1] + Filter(LocalUp(q), []);
    assert Local(q, [1, 1]) == [1, 1];
    assert Remote(q) == [] && [1, 1] + [] == [1, 1];
    assert 1 in Set([1, 1]);
    assert Fresh([1], Set([1, 1])) == Fresh([], Set([1, 1])) == [];
    assert Order(q) == [1, 1] + [];
  }

  /** The up local replicas come first, in the replicas' order. */
  lemma LocalFirst(q: Query)
    ensures Local(q, q.replicas) <= Order(q)
    ensures forall x :: x in Local(q, q.replicas) <==> x in q.replicas && q.tier(x) == 0 && q.up(x)
  {
    forall x
      ensures x in Local(q, q.replicas) <==> x in q.replicas && q.tier(x) == 0 && q.up(x)
    {
      FilterMember(LocalUp(q), q.replicas, x);
    }
  }

  // ---------------------------------------------------------------- remote replicas before the fallback

  /** The up remote replicas, tier by tier, as NonLocalReplicasFallback describes them. */
  function AllTiers(up: nat -> bool, tiers: seq<seq<nat>>): seq<nat> {
    if tiers == [] then [] else Filter(up, tiers[0]) + AllTiers(up, tiers[1..])
  }

  /** No tier without replicas lies before one with an up replica. */
  predicate NoGap(up: nat -> bool, tiers: seq<seq<nat>>) {
    forall i, j :: 0 <= i < j < |tiers| && tiers[i] == [] ==> Filter(up, tiers[j]) == []
  }

  lemma {:induction false} NothingAfter(up: nat -> bool, tiers: seq<seq<nat>>)
    ensures AllTiers(up, tiers) == [] <==> forall j :: 0 <= j < |tiers| ==> Filter(up, tiers[j]) == []
  {
    if tiers != [] {
      NothingAfter(up, tiers[1..]);
      assert forall j :: 0 < j < |tiers| ==> tiers[j] == tiers[1..][j - 1];
      assert forall j :: 0 <= j < |tiers[1..]| ==> tiers[1..][j] == tiers[j + 1];
    }
  }

  /** The remote replicas are all tried before the fallback exactly when no empty tier hides later ones. */
  lemma {:induction false} RemoteCompleteIff(up: nat -> bool, tiers: seq<seq<nat>>)
    ensures Visit(up, tiers) == AllTiers(up, tiers) <==> NoGap(up, tiers)
  {
    hide Filter;
    if tiers != [] {
      var rest := tiers[1..];
      assert forall j :: 0 <= j < |rest| ==> rest[j] == tiers[j + 1];
      assert forall j :: 0 < j < |tiers| ==> tiers[j] == rest[j - 1];
      NothingAfter(up, rest);
      RemoteCompleteIff(up, rest);
      if tiers[0] == [] {
        assert Filter(up, tiers[0]) == [] by { FilterNone(up); }
        assert AllTiers(up, tiers) == AllTiers(up, rest);
      } else {
        assert Visit(up, tiers) == AllTiers(up, tiers) <==> Visit(up, rest) == AllTiers(up, rest) by {
          SamePrefix(Filter(up, tiers[0]), Visit(up, rest), AllTiers(up, rest));
        }
      }
    }
  }

  lemma {:induction false} AllTiersMember(q: Query, hosts: seq<nat>, tiers: seq<seq<nat>>, t: nat, x: nat)
    requires |tiers| + t == q.maxTier && forall i :: 0 <= i < |tiers| ==> tiers[i] == TierOf(q, hosts, t + i + 1)
    requires x in hosts && q.up(x) && t < q.tier(x) <= q.maxTier
    ensures x in AllTiers(q.up, tiers)
    decreases |tiers|
  {
    FilterMember(q.up, tiers[0], x);
    FilterMember(InTier(q, t + 1), hosts, x);
    if q.tier(x) != t + 1 {
      AllTiersMember(q, hosts, tiers[1..], t + 1, x);
    }
  }

  /** Without such a gap every up replica, near or far, is tried before the fallback's hosts. */
  lemma ReplicasBeforeFallback(q: Query, x: nat)
    requires TiersOk(q) && q.nonLocal && NoGap(q.up, Tiers(q, q.replicas)) && x in q.replicas && q.up(x)
    ensures x in Local(q, q.replicas) + Remote(q)
  {
    hide Filter, Visit, AllTiers;
    LocalFirst(q);
    RemoteCompleteIff(q.up, Tiers(q, q.replicas));
    if q.tier(x) > 0 {
      AllTiersMember(q, q.replicas, Tiers(q, q.replicas), 0, x);
    }
  }

  lemma FilterNone(up: nat -> bool)
    ensures Filter(up, []) == []
  {
  }

  lemma SamePrefix(a: seq<nat>, b: seq<nat>, c: seq<nat>)
    ensures a + b == a + c <==> b == c
  {
    if a + b == a + c {
      assert b == (a + b)[|a|..] && c == (a + c)[|a|..];
    }
  }

  /** A replica in the farther tier, none in the nearer: it is not tried before the fallback. */
  lemma EmptyTierHidesReplica()
    ensures var q := Query(_ => true, h => h, 2, true, [2], []);
      Remote(q) == [] && AllTiers(q.up, Tiers(q, q.replicas)) == [2]
  {
    var q := Query(_ => true, h => h, 2, true, [2], []);
    var tiers := Tiers(q, q.replicas);
    assert Filter(InTier(q, 1), [2]) == [] + Filter(InTier(q, 1), []);
    assert tiers[0] == [];
    assert Filter(InTier(q, 2), [2]) == [2] + Filter(InTier(q, 2), []);
    assert tiers[1] == [2];
    assert Filter(q.up, [2]) == [2] + Filter(q.up, []);
    var last: seq<seq<nat>> := tiers[1..];
    assert last == [[2]] && last[1..] == [];
  }
}
