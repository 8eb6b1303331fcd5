// The iterators that hand out hosts to try (policies.go:709-918). Hosts are numbers; which are up
// is fixed while an iterator is used.
module HostIterators {
  import opened Common

  function Filter(p: nat -> bool, s: seq<nat>): seq<nat> {
    if s == [] then [] else (if p(s[0]) then [s[0]] else []) + Filter(p, s[1..])
  }

  lemma {:induction false} FilterConcat(p: nat -> bool, a: seq<nat>, b: seq<nat>)
    ensures Filter(p, a + b) == Filter(p, a) + Filter(p, b)
  {
    if a == [] {
      assert a + b == b;
      assert [] + Filter(p, b) == Filter(p, b);
    } else {
      var first := if p(a[0]) then [a[0]] else [];
      assert (a + b)[0] == a[0] && (a + b)[1..] == a[1..] + b;
      FilterConcat(p, a[1..], b);
      assert Filter(p, a + b) == first + Filter(p, a[1..] + b);
      assert Filter(p, a) == first + Filter(p, a[1..]);
      Associative(first, Filter(p, a[1..]), Filter(p, b));
    }
  }

  lemma Associative(a: seq<nat>, b: seq<nat>, c: seq<nat>)
    ensures a + (b + c) == (a + b) + c
  {
  }

  lemma {:induction false} FilterCount(p: nat -> bool, s: seq<nat>, x: nat)
    ensures multiset(Filter(p, s))[x] == if p(x) then multiset(s)[x] else 0
  {
    if s != [] {
      assert s == [s[0]] + s[1..];
      FilterCount(p, s[1..], x);
    }
  }

  lemma {:induction false} FilterMember(p: nat -> bool, s: seq<nat>, x: nat)
    ensures x in Filter(p, s) <==> x in s && p(x)
  {
    if s != [] {
      FilterMember(p, s[1..], x);
    }
  }

  // ---------------------------------------------------------------- round robin

  /** A layer's hosts in the order they are looked at, beginning after the shift. */
  function LayerOrder(shift: nat, layer: seq<nat>): (r: seq<nat>)
    ensures |r| == |layer|
    ensures forall i :: 0 <= i < |r| ==> r[i] == layer[(shift + i + 1) % |layer|]
  {
    seq(|layer|, i requires 0 <= i < |layer| => layer[(shift + i + 1) % |layer|])
  }

  function RoundRobinOrder(up: nat -> bool, shift: nat, layers: seq<seq<nat>>): seq<nat> {
    if layers == [] then []
    else Filter(up, LayerOrder(shift, layers[0])) + RoundRobinOrder(up, shift, layers[1..])
  }

  lemma ModNext(s: nat, i: nat, n: nat)
    requires n > 0 && i < n
    ensures (s + i) % n == if s % n + i < n then s % n + i else s % n + i - n
  {
    var q, r := s / n, s % n;
    assert s + i == n * q + (r + i);
    if r + i < n {
      ModUnique(s + i, n, q, r + i);
    } else {
      assert n * q + (r + i) == n * (q + 1) + (r + i - n);
      ModUnique(s + i, n, q + 1, r + i - n);
    }
  }

  lemma ModUnique(a: int, n: int, q: int, r: int)
    requires n > 0 && a == n * q + r && 0 <= r < n
    ensures a % n == r
  {
    var d := a / n - q;
    assert n * d == r - a % n;
    assert d >= 1 ==> n * d >= n;
    assert d <= -1 ==> n * d <= -n;
  }

  /** The order of a layer is a rotation of it. */
  lemma LayerIsRotation(shift: nat, layer: seq<nat>)
    requires layer != []
    ensures var s := (shift + 1) % |layer|; LayerOrder(shift, layer) == layer[s..] + layer[..s]
  {
    var n := |layer|;
    var s := (shift + 1) % n;
    forall i | 0 <= i < n
      ensures LayerOrder(shift, layer)[i] == (layer[s..] + layer[..s])[i]
    {
      ModNext(shift + 1, i, n);
      assert shift + i + 1 == shift + 1 + i;
    }
  }

  /** Every up host of a layer comes exactly as often as it is listed there, and no other host does. */
  lemma LayerOnce(up: nat -> bool, shift: nat, layer: seq<nat>, x: nat)
    ensures multiset(Filter(up, LayerOrder(shift, layer)))[x] == if up(x) then multiset(layer)[x] else 0
  {
    FilterCount(up, LayerOrder(shift, layer), x);
    if layer == [] {
      assert LayerOrder(shift, layer) == [];
    } else {
      var s := (shift + 1) % |layer|;
      LayerIsRotation(shift, layer);
      assert layer == layer[..s] + layer[s..];
    }
  }

  function Flatten(layers: seq<seq<nat>>): seq<nat> {
    if layers == [] then [] else layers[0] + Flatten(layers[1..])
  }

  /** Over all layers every up host comes as often as it is listed: once, where nothing is listed twice. */
  lemma {:induction false} RoundRobinOnce(up: nat -> bool, shift: nat, layers: seq<seq<nat>>, x: nat)
    ensures multiset(RoundRobinOrder(up, shift, layers))[x] == if up(x) then multiset(Flatten(layers))[x] else 0
  {
    hide Filter, LayerOrder;
    if layers != [] {
      LayerOnce(up, shift, layers[0], x);
      RoundRobinOnce(up, shift, layers[1..], x);
    }
  }

  /** What is left after `observed` hosts of a layer. */
  function Left(up: nat -> bool, shift: nat, hosts: seq<seq<nat>>, layer: nat, observed: nat): seq<nat>
    requires layer <= |hosts| && (layer < |hosts| ==> observed <= |hosts[layer]|)
  {
    if layer == |hosts| then []
    else Filter(up, LayerOrder(shift, hosts[layer])[observed..]) + RoundRobinOrder(up, shift, hosts[layer + 1..])
  }

  lemma LeftStep(up: nat -> bool, shift: nat, hosts: seq<seq<nat>>, layer: nat, observed: nat)
    requires layer < |hosts| && observed < |hosts[layer]|
    ensures var h := hosts[layer][(shift + observed + 1) % |hosts[layer]|];
      Left(up, shift, hosts, layer, observed)
      == (if up(h) then [h] else []) + Left(up, shift, hosts, layer, observed + 1)
  {
    var order := LayerOrder(shift, hosts[layer]);
    var h := order[observed];
    assert h == hosts[layer][(shift + observed + 1) % |hosts[layer]|];
    hide LayerOrder, RoundRobinOrder, Filter;
    FilterFirst(up, order, observed, RoundRobinOrder(up, shift, hosts[layer + 1..]));
  }

  lemma FilterFirst(up: nat -> bool, order: seq<nat>, n: nat, rest: seq<nat>)
    requires n < |order|
    ensures Filter(up, order[n..]) + rest
         == (if up(order[n]) then [order[n]] else []) + (Filter(up, order[n + 1..]) + rest)
  {
    assert order[n..][1..] == order[n + 1..];
  }

  lemma LeftNext(up: nat -> bool, shift: nat, hosts: seq<seq<nat>>, layer: nat)
    requires layer < |hosts|
    ensures Left(up, shift, hosts, layer, |hosts[layer]|) == Left(up, shift, hosts, layer + 1, 0)
  {
    var order := LayerOrder(shift, hosts[layer]);
    assert order[|hosts[layer]|..] == [];
    var rest := hosts[layer + 1..];
    if rest != [] {
      assert rest[1..] == hosts[layer + 2..];
      assert LayerOrder(shift, rest[0])[0..] == LayerOrder(shift, rest[0]);
    }
  }

  lemma LeftStart(up: nat -> bool, shift: nat, hosts: seq<seq<nat>>)
    ensures Left(up, shift, hosts, 0, 0) == RoundRobinOrder(up, shift, hosts)
  {
    if hosts != [] {
      assert LayerOrder(shift, hosts[0])[0..] == LayerOrder(shift, hosts[0]);
    }
  }

  class RoundRobin {
    const up: nat -> bool
    const shift: nat
    const hosts: seq<seq<nat>>
    var currentLayer: nat
    var currentlyObserved: nat

    constructor (up: nat -> bool, shift: nat, hosts: seq<seq<nat>>)
      ensures Valid() && Remaining() == RoundRobinOrder(up, shift, hosts)
    {
      this.up, this.shift, this.hosts := up, shift, hosts;
      currentLayer, currentlyObserved := 0, 0;
      LeftStart(up, shift, hosts);
    }

    ghost predicate Valid()
      reads this
    {
      currentLayer <= |hosts| && (currentLayer < |hosts| ==> currentlyObserved <= |hosts[currentLayer]|)
    }

    /** What the iterator will still hand out. */
    ghost function Remaining(): seq<nat>
      requires Valid()
      reads this
    {
      Left(up, shift, hosts, currentLayer, currentlyObserved)
    }

    /** The rest of one layer: an up host, or on to the next layer. */
    method ScanLayer() returns (r: Option<nat>)
      requires Valid() && currentLayer < |hosts|
      modifies this
      ensures Valid()
      ensures r.Some? ==> old(Remaining()) == [r.value] + Remaining()
      ensures r.None? ==> currentLayer == old(currentLayer) + 1 && Remaining() == old(Remaining())
    {
      hide Left;
      var size := |hosts[currentLayer]|;
      while true
        invariant Valid() && currentLayer == old(currentLayer) && Remaining() == old(Remaining())
        decreases size - currentlyObserved
      {
        ghost var before := currentlyObserved;
        currentlyObserved := currentlyObserved + 1;
        if currentlyObserved > size {
          LeftNext(up, shift, hosts, currentLayer);
          currentLayer := currentLayer + 1;
          currentlyObserved := 0;
          return None;
        }
        LeftStep(up, shift, hosts, currentLayer, before);
        var h := hosts[currentLayer][(shift + currentlyObserved) % size];
        if up(h) {
          return Some(h);
        }
      }
      return None;
    }

    method Next() returns (r: Option<nat>)
      requires Valid()
      modifies this
      ensures Valid()
      ensures r.None? ==> old(Remaining()) == [] && Remaining() == []
      ensures r.Some? ==> old(Remaining()) == [r.value] + Remaining()
    {
      while currentLayer != |hosts|
        invariant Valid() && Remaining() == old(Remaining())
        decreases |hosts| - currentLayer
      {
        r := ScanLayer();
        if r.Some? {
          return;
        }
      }
      return None;
    }
  }
}
