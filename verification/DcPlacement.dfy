// The part of NetworkTopology's walk that concerns one datacenter (topology.go:321-375):
// take a host on a new rack at once, set a host on a seen rack aside until every rack has
// been seen, then drain what was set aside.
module DcPlacement {
  import opened Ring

  datatype Dc = Dc(picked: seq<Host>, racks: set<string>, skipped: seq<Host>)

  function Min(a: int, b: int): int {
    if a < b then a else b
  }

  function DcStep(rf: nat, known: set<string>, st: Dc, h: Host): Dc {
    if |st.picked| >= rf || h.rack !in known then st
    else if h.rack in st.racks && |st.racks| == |known| then st.(picked := st.picked + [h])
    else if h.rack !in st.racks then
      var racks := st.racks + {h.rack};
      var picked := st.picked + [h];
      if |racks| == |known| then
        var k := Min(|st.skipped|, rf - |picked|);
        Dc(picked + st.skipped[..k], racks, st.skipped[k..])
      else Dc(picked, racks, st.skipped)
    else st.(skipped := st.skipped + [h])
  }

  function DcWalk(rf: nat, known: set<string>, hs: seq<Host>): Dc {
    if hs == [] then Dc([], {}, [])
    else DcStep(rf, known, DcWalk(rf, known, hs[..|hs| - 1]), hs[|hs| - 1])
  }

  function RacksOf(hs: seq<Host>): set<string> {
    set h | h in hs :: h.rack
  }

  predicate RacksKnown(known: set<string>, hs: seq<Host>) {
    forall h :: h in hs ==> h.rack in known
  }

  // ---------------------------------------------------------------- what each step keeps

  /** The racks used are those of the picked hosts, one host each until every rack is used. */
  predicate RacksOk(rf: nat, known: set<string>, st: Dc) {
    && |st.picked| <= rf
    && st.racks <= known
    && st.racks == RacksOf(st.picked)
    && RacksOf(st.skipped) <= st.racks
    && (st.racks != known ==> |st.picked| == |st.racks|)
  }

  /** Nothing is invented, and nothing is lost while the datacenter is not full. */
  predicate KeepsHosts(rf: nat, known: set<string>, hs: seq<Host>, st: Dc) {
    && multiset(st.picked) + multiset(st.skipped) <= multiset(hs)
    && (|st.picked| < rf ==> multiset(st.picked) + multiset(st.skipped) == multiset(hs))
    && (|st.picked| < rf && st.racks == known ==> st.skipped == [])
  }

  lemma RacksOfConcat(a: seq<Host>, b: seq<Host>)
    ensures RacksOf(a + b) == RacksOf(a) + RacksOf(b)
  {
  }

  lemma RacksOfOne(h: Host)
    ensures RacksOf([h]) == {h.rack}
  {
    assert h in [h];
  }

  lemma RacksFull(racks: set<string>, known: set<string>)
    requires racks <= known
    ensures |racks| <= |known|
    ensures |racks| == |known| <==> racks == known
  {
    var rest := known - racks;
    assert known == racks + rest;
    assert |known| == |racks| + |rest|;
  }

  lemma RacksStep(rf: nat, known: set<string>, st: Dc, h: Host)
    requires RacksOk(rf, known, st)
    ensures RacksOk(rf, known, DcStep(rf, known, st, h))
  {
    hide RacksOf;
    RacksFull(st.racks, known);
    RacksOfConcat(st.picked, [h]);
    RacksOfConcat(st.skipped, [h]);
    RacksOfOne(h);
    if |st.picked| < rf && h.rack in known && h.rack !in st.racks {
      RacksFull(st.racks + {h.rack}, known);
      var k := Min(|st.skipped|, rf - |st.picked| - 1);
      RacksOfConcat(st.picked + [h], st.skipped[..k]);
      RacksOfConcat(st.skipped[..k], st.skipped[k..]);
      assert st.skipped == st.skipped[..k] + st.skipped[k..];
    }
  }

  lemma HostsStep(rf: nat, known: set<string>, hs: seq<Host>, st: Dc, h: Host)
    requires RacksOk(rf, known, st) && KeepsHosts(rf, known, hs, st) && h.rack in known
    ensures KeepsHosts(rf, known, hs + [h], DcStep(rf, known, st, h))
  {
    RacksFull(st.racks, known);
    if |st.picked| < rf && h.rack !in st.racks {
      RacksFull(st.racks + {h.rack}, known);
      var k := Min(|st.skipped|, rf - |st.picked| - 1);
      assert st.skipped == st.skipped[..k] + st.skipped[k..];
    }
  }

  lemma {:induction false} WalkKeeps(rf: nat, known: set<string>, hs: seq<Host>)
    requires RacksKnown(known, hs)
    ensures RacksOk(rf, known, DcWalk(rf, known, hs))
    ensures KeepsHosts(rf, known, hs, DcWalk(rf, known, hs))
  {
    if hs == [] {
      assert RacksOf([]) == {};
    } else {
      var before := hs[..|hs| - 1];
      var h := hs[|hs| - 1];
      assert hs == before + [h];
      WalkKeeps(rf, known, before);
      RacksStep(rf, known, DcWalk(rf, known, before), h);
      HostsStep(rf, known, before, DcWalk(rf, known, before), h);
    }
  }

  // ---------------------------------------------------------------- results for one datacenter

  lemma RacksAtMost(hs: seq<Host>)
    ensures |RacksOf(hs)| <= |hs|
  {
    if hs == [] {
      assert RacksOf(hs) == {};
    } else {
      var before := hs[..|hs| - 1];
      assert hs == before + [hs[|hs| - 1]];
      RacksAtMost(before);
      RacksOfConcat(before, [hs[|hs| - 1]]);
      RacksOfOne(hs[|hs| - 1]);
    }
  }

  /** At most rf replicas, spread over as many racks as possible. */
  lemma QuotaAndRacks(rf: nat, known: set<string>, hs: seq<Host>)
    requires RacksKnown(known, hs)
    ensures var picked := DcWalk(rf, known, hs).picked;
            && |picked| <= rf
            && |RacksOf(picked)| == Min(|picked|, |known|)
            && multiset(picked) <= multiset(hs)
  {
    WalkKeeps(rf, known, hs);
    var st := DcWalk(rf, known, hs);
    RacksFull(st.racks, known);
    RacksAtMost(st.picked);
  }

  /** Every rack seen on the way that is known is used, unless the quota came first. */
  lemma {:induction false} RacksVisited(rf: nat, known: set<string>, hs: seq<Host>)
    requires RacksKnown(known, hs) && |DcWalk(rf, known, hs).picked| < rf
    ensures RacksOf(hs) <= DcWalk(rf, known, hs).racks
  {
    WalkKeeps(rf, known, hs);
    var st := DcWalk(rf, known, hs);
    forall h | h in hs
      ensures h.rack in st.racks
    {
      assert h in multiset(hs);
      assert h in multiset(st.picked) || h in multiset(st.skipped);
    }
  }

  /** When every known rack is met on the way round, the quota is filled or every host on the
      way is a replica. */
  lemma ExactCount(rf: nat, known: set<string>, hs: seq<Host>)
    requires known == RacksOf(hs)
    ensures |DcWalk(rf, known, hs).picked| == Min(rf, |hs|)
  {
    assert forall h :: h in hs ==> h.rack in RacksOf(hs);
    WalkKeeps(rf, known, hs);
    var st := DcWalk(rf, known, hs);
    assert |multiset(st.picked)| == |st.picked| && |multiset(hs)| == |hs|;
    if |st.picked| < rf {
      RacksVisited(rf, known, hs);
      assert st.racks == known;
      assert multiset(st.picked) == multiset(hs);
    } else {
      BagSize(multiset(st.picked), multiset(hs));
    }
  }

  lemma BagSize(a: multiset<Host>, b: multiset<Host>)
    requires a <= b
    ensures |a| <= |b|
  {
    assert b == a + (b - a);
  }

  // ---------------------------------------------------------------- which hosts, and in which order

  /** The hosts whose rack does not come earlier, in the order of the walk. */
  function Firsts(hs: seq<Host>): seq<Host> {
    if hs == [] then []
    else
      var before := hs[..|hs| - 1];
      Firsts(before) + if hs[|hs| - 1].rack in RacksOf(before) then [] else [hs[|hs| - 1]]
  }

  /** The others, in the order of the walk. */
  function Others(hs: seq<Host>): seq<Host> {
    if hs == [] then []
    else
      var before := hs[..|hs| - 1];
      Others(before) + if hs[|hs| - 1].rack in RacksOf(before) then [hs[|hs| - 1]] else []
  }

  /** One host per rack, and once every known rack has one, the rest. */
  function Preferred(known: set<string>, hs: seq<Host>): seq<Host> {
    Firsts(hs) + if RacksOf(hs) == known then Others(hs) else []
  }

  function Take(hs: seq<Host>, n: nat): seq<Host> {
    if |hs| <= n then hs else hs[..n]
  }

  /** What the walk knows about the hosts so far. */
  predicate Follows(rf: nat, known: set<string>, hs: seq<Host>, st: Dc) {
    && st.picked == Take(Preferred(known, hs), rf)
    && (|st.picked| < rf ==> st.racks == RacksOf(hs) && (st.racks != known ==> st.skipped == Others(hs)))
  }

  lemma PreferredSnoc(known: set<string>, hs: seq<Host>, h: Host)
    requires RacksKnown(known, hs) && h.rack in known
    ensures RacksOf(hs + [h]) == RacksOf(hs) + {h.rack} && RacksOf(hs) <= known
    ensures if h.rack in RacksOf(hs) then Firsts(hs + [h]) == Firsts(hs) && Others(hs + [h]) == Others(hs) + [h]
      else Firsts(hs + [h]) == Firsts(hs) + [h] && Others(hs + [h]) == Others(hs)
  {
    assert (hs + [h])[..|hs|] == hs;
    RacksOfConcat(hs, [h]);
    RacksOfOne(h);
  }

  lemma TakePrefix(a: seq<Host>, b: seq<Host>, n: nat)
    requires |a| >= n
    ensures Take(a + b, n) == Take(a, n)
  {
  }

  /** Nothing changes any more once the quota is met. */
  lemma FullFollows(rf: nat, known: set<string>, hs: seq<Host>, st: Dc, h: Host)
    requires RacksKnown(known, hs) && h.rack in known && Follows(rf, known, hs, st) && |st.picked| >= rf
    ensures Follows(rf, known, hs + [h], st)
  {
    PreferredSnoc(known, hs, h);
    hide Firsts, Others, RacksOf;
    var a := Preferred(known, hs);
    var rest := Preferred(known, hs + [h])[|a|..];
    assert Preferred(known, hs + [h]) == a + rest;
    TakePrefix(a, rest, rf);
  }

  lemma StepFollows(rf: nat, known: set<string>, hs: seq<Host>, st: Dc, h: Host)
    requires RacksKnown(known, hs) && h.rack in known && Follows(rf, known, hs, st) && |st.picked| < rf
    ensures Follows(rf, known, hs + [h], DcStep(rf, known, st, h))
  {
    PreferredSnoc(known, hs, h);
    RacksFull(RacksOf(hs), known);
    RacksFull(RacksOf(hs) + {h.rack}, known);
    hide Firsts, Others, RacksOf;
    var first := Firsts(hs);
    if h.rack in st.racks {
      assert first + Others(hs) + [h] == first + (Others(hs) + [h]);
    } else {
      var k := Min(|st.skipped|, rf - |st.picked| - 1);
      assert st.picked == first;
      assert Take(first + [h] + Others(hs), rf) == first + [h] + Others(hs)[..k];
    }
  }

  /** The replicas of a datacenter are the first rf of: the first host met on each rack, in the order of
      the walk, and then, if every known rack was met, the others in that order. */
  lemma {:induction false} PicksPreferred(rf: nat, known: set<string>, hs: seq<Host>)
    requires RacksKnown(known, hs)
    ensures DcWalk(rf, known, hs).picked == Take(Preferred(known, hs), rf)
    ensures Follows(rf, known, hs, DcWalk(rf, known, hs))
  {
    hide DcStep, Follows, Preferred;
    if hs == [] {
      assert Follows(rf, known, hs, Dc([], {}, [])) by { NothingFollows(rf, known); }
    } else {
      var before, h := hs[..|hs| - 1], hs[|hs| - 1];
      assert hs == before + [h];
      PicksPreferred(rf, known, before);
      var st := DcWalk(rf, known, before);
      if |st.picked| >= rf {
        FullFollows(rf, known, before, st, h);
        assert DcStep(rf, known, st, h) == st by { FullStays(rf, known, st, h); }
      } else {
        StepFollows(rf, known, before, st, h);
      }
    }
    FollowsPicked(rf, known, hs, DcWalk(rf, known, hs));
  }

  lemma FollowsPicked(rf: nat, known: set<string>, hs: seq<Host>, st: Dc)
    requires Follows(rf, known, hs, st)
    ensures st.picked == Take(Preferred(known, hs), rf)
  {
  }

  lemma FullStays(rf: nat, known: set<string>, st: Dc, h: Host)
    requires |st.picked| >= rf
    ensures DcStep(rf, known, st, h) == st
  {
  }

  lemma NothingFollows(rf: nat, known: set<string>)
    ensures Follows(rf, known, [], Dc([], {}, []))
  {
    assert RacksOf([]) == {};
  }
}
