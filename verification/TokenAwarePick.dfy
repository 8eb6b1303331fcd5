// The closure Pick returns, with the counters it keeps between calls.
module TokenAwarePick {
  import opened Common
  import opened HostIterators
  import opened TokenAwareIterator

  /** What the remote loop hands out from position k of tier j on. */
  function VisitFrom(up: nat -> bool, tiers: seq<seq<nat>>, j: nat, k: nat): seq<nat> {
    if j < |tiers| && k < |tiers[j]| then Filter(up, tiers[j][k..]) + Visit(up, tiers[j + 1..]) else []
  }

  lemma VisitFromStart(up: nat -> bool, tiers: seq<seq<nat>>, j: nat)
    requires j <= |tiers|
    ensures VisitFrom(up, tiers, j, 0) == Visit(up, tiers[j..])
  {
    if j < |tiers| {
      assert tiers[j..][1..] == tiers[j + 1..];
      assert tiers[j][0..] == tiers[j];
    }
  }

  lemma VisitStep(up: nat -> bool, tiers: seq<seq<nat>>, j: nat, k: nat)
    requires j < |tiers| && k < |tiers[j]|
    ensures var h := tiers[j][k];
      VisitFrom(up, tiers, j, k) == (if up(h) then [h] else [])
        + if k + 1 < |tiers[j]| then VisitFrom(up, tiers, j, k + 1) else VisitFrom(up, tiers, j + 1, 0)
  {
    var s := tiers[j];
    assert s[k..][1..] == s[k + 1..];
    VisitFromStart(up, tiers, j + 1);
    if k + 1 == |s| {
      assert s[k + 1..] == [];
      assert Filter(up, s[k..]) == if up(s[k]) then [s[k]] else [];
    }
  }

  lemma VisitDone(up: nat -> bool, tiers: seq<seq<nat>>, j: nat, k: nat)
    requires j < |tiers| ==> k >= |tiers[j]|
    ensures VisitFrom(up, tiers, j, k) == []
  {
  }

  lemma SetCons(x: nat, s: seq<nat>)
    ensures Set([x] + s) == {x} + Set(s) && Set([]) == {}
  {
  }

  lemma TierSnoc(q: Query, hosts: seq<nat>, h: nat, t: nat)
    ensures TierOf(q, hosts + [h], t) == TierOf(q, hosts, t) + if q.tier(h) == t then [h] else []
  {
    FilterConcat(InTier(q, t), hosts, [h]);
    assert Filter(InTier(q, t), [h]) == (if q.tier(h) == t then [h] else []) + Filter(InTier(q, t), []);
  }

  lemma LocalStep(q: Query, i: nat)
    requires i < |q.replicas|
    ensures var h := q.replicas[i];
      Local(q, q.replicas[i..]) == (if q.tier(h) == 0 && q.up(h) then [h] else []) + Local(q, q.replicas[i + 1..])
  {
    assert q.replicas[i..][1..] == q.replicas[i + 1..];
  }

  lemma FreshStep(hosts: seq<nat>, f: nat, used: set<nat>)
    requires f < |hosts|
    ensures Fresh(hosts[f..], used) ==
      if hosts[f] in used then Fresh(hosts[f + 1..], used) else [hosts[f]] + Fresh(hosts[f + 1..], used + {hosts[f]})
  {
    assert hosts[f..][1..] == hosts[f + 1..];
  }

  class Iterator {
    const q: Query
    var i: nat
    var j: nat
    var k: nat
    var remote: seq<seq<nat>>
    var used: set<nat>
    var f: nat   // how far the fallback's iterator has come

    ghost predicate Gathered()
      reads this`i, this`remote
    {
      && i <= |q.replicas| && |remote| == q.maxTier
      && (forall t :: 0 <= t < q.maxTier ==> remote[t] == if q.nonLocal then TierOf(q, q.replicas[..i], t + 1) else [])
    }

    ghost predicate Valid()
      reads this
    {
      && TiersOk(q) && i <= |q.replicas| && Gathered() && f <= |q.fallback| && j <= q.maxTier
      && (i < |q.replicas| || !q.nonLocal ==> j == 0 && k == 0)
    }

    ghost function LocalLeft(): seq<nat>
      requires i <= |q.replicas|
      reads this`i
    {
      Local(q, q.replicas[i..])
    }

    ghost function RemoteLeft(): seq<nat>
      reads this`j, this`k
    {
      if q.nonLocal then VisitFrom(q.up, Tiers(q, q.replicas), j, k) else []
    }

    /** What the iterator will still hand out. */
    ghost function Remaining(): seq<nat>
      requires Valid()
      reads this
    {
      LocalLeft() + RemoteLeft() + Fresh(q.fallback[f..], used + Set(LocalLeft()) + Set(RemoteLeft()))
    }

    constructor (q: Query)
      requires TiersOk(q)
      ensures this.q == q && Valid() && Remaining() == Order(q)
    {
      hide Filter, Visit, Fresh;
      this.q := q;
      i, j, k, f, used := 0, 0, 0, 0, {};
      remote := seq(q.maxTier, _ => []);
      new;
      forall t | 0 <= t < q.maxTier
        ensures remote[t] == if q.nonLocal then TierOf(q, q.replicas[..i], t + 1) else []
      {
        FilterNone(InTier(q, t + 1));
        assert q.replicas[..0] == [];
      }
      assert q.replicas[0..] == q.replicas && q.fallback[0..] == q.fallback;
      var tiers := Tiers(q, q.replicas);
      VisitFromStart(q.up, tiers, 0);
      assert tiers[0..] == tiers;
      var first := Local(q, q.replicas) + Remote(q);
      assert used + Set(LocalLeft()) + Set(RemoteLeft()) == Set(first);
    }

    method NextLocal() returns (r: Option<nat>)
      requires Valid()
      modifies this`i, this`remote, this`used
      ensures Valid()
      ensures r.Some? ==> old(LocalLeft()) == [r.value] + LocalLeft() && used == old(used) + {r.value}
      ensures r.None? ==> old(LocalLeft()) == [] && i == |q.replicas| && used == old(used)
    {
      hide Filter, Local;
      while i < |q.replicas|
        invariant Valid() && LocalLeft() == old(LocalLeft()) && used == old(used)
        decreases |q.replicas| - i
      {
        var h := q.replicas[i];
        LocalStep(q, i);
        assert q.replicas[..i + 1] == q.replicas[..i] + [h];
        forall t: nat
          ensures TierOf(q, q.replicas[..i + 1], t)
               == TierOf(q, q.replicas[..i], t) + if q.tier(h) == t then [h] else []
        {
          TierSnoc(q, q.replicas[..i], h, t);
        }
        i := i + 1;
        var tier := q.tier(h);
        if tier != 0 {
          if q.nonLocal {
            remote := remote[tier - 1 := remote[tier - 1] + [h]];
          }
        } else if q.up(h) {
          used := used + {h};
          return Some(h);
        }
      }
      LocalNone(q);
      return None;
    }

    lemma AllGathered()
      requires Gathered() && i == |q.replicas| && q.nonLocal
      ensures remote == Tiers(q, q.replicas) && |remote| == q.maxTier
    {
      assert q.replicas[..i] == q.replicas;
    }

    method NextRemote() returns (r: Option<nat>)
      requires Valid() && i == |q.replicas| && q.nonLocal
      modifies this`j, this`k, this`used
      ensures Valid()
      ensures r.Some? ==> old(RemoteLeft()) == [r.value] + RemoteLeft() && used == old(used) + {r.value}
      ensures r.None? ==> old(RemoteLeft()) == [] && RemoteLeft() == [] && used == old(used)
    {
      hide Filter, Visit, VisitFrom, Gathered, Tiers, TiersOk;
      AllGathered();
      ghost var goal := VisitFrom(q.up, remote, j, k);
      while j < |remote| && k < |remote[j]|
        invariant j <= |remote| && VisitFrom(q.up, remote, j, k) == goal && used == old(used)
        decreases |remote| - j, if j < |remote| then |remote[j]| - k else 0
      {
        VisitStep(q.up, remote, j, k);
        var h := remote[j][k];
        k := k + 1;
        if k >= |remote[j]| {
          j := j + 1;
          k := 0;
        }
        if q.up(h) {
          used := used + {h};
          return Some(h);
        }
      }
      VisitDone(q.up, remote, j, k);
      return None;
    }

    method NextFallback() returns (r: Option<nat>)
      requires f <= |q.fallback|
      modifies this`f, this`used
      ensures f <= |q.fallback|
      ensures r.Some? ==> old(Fresh(q.fallback[f..], used)) == [r.value] + Fresh(q.fallback[f..], used)
      ensures r.None? ==> old(Fresh(q.fallback[f..], used)) == [] && Fresh(q.fallback[f..], used) == []
    {
      while f < |q.fallback|
        invariant f <= |q.fallback| && Fresh(q.fallback[f..], used) == old(Fresh(q.fallback[f..], used))
      {
        FreshStep(q.fallback, f, used);
        var h := q.fallback[f];
        f := f + 1;
        if h !in used {
          used := used + {h};
          return Some(h);
        }
      }
      return None;
    }

    method Next() returns (r: Option<nat>)
      requires Valid()
      modifies this
      ensures Valid()
      ensures r.None? ==> old(Remaining()) == [] && Remaining() == []
      ensures r.Some? ==> old(Remaining()) == [r.value] + Remaining()
    {
      hide Filter, Visit, Fresh, Local, VisitFrom, Gathered, Tiers, Set, TiersOk;
      SetCons(0, []);
      r := NextLocal();
      if r.Some? {
        SetCons(r.value, LocalLeft());
        assert old(used) + ({r.value} + Set(LocalLeft())) == used + Set(LocalLeft());
        return;
      }
      LocalNone(q);
      if q.nonLocal {
        r := NextRemote();
        if r.Some? {
          SetCons(r.value, RemoteLeft());
          assert old(used) + {} + ({r.value} + Set(RemoteLeft())) == used + {} + Set(RemoteLeft());
          return;
        }
      }
      assert used + {} + {} == used;
      r := NextFallback();
      assert used + {} + {} == used;
    }
  }

  lemma LocalNone(q: Query)
    ensures Local(q, q.replicas[|q.replicas|..]) == []
  {
  }
}
