// cowHostList (policies.go:49-122): a list of hosts, no two with the same address, replaced
// as a whole on every change.
module HostList {
  import opened Common
  import opened Ring

  predicate Distinct(l: seq<Host>) {
    forall i, j :: 0 <= i < j < |l| ==> l[i].addr != l[j].addr
  }

  predicate Has(l: seq<Host>, addr: nat) {
    exists i :: 0 <= i < |l| && l[i].addr == addr
  }

  function Without(l: seq<Host>, addr: nat): seq<Host> {
    if l == [] then []
    else Without(l[..|l| - 1], addr) + if l[|l| - 1].addr == addr then [] else [l[|l| - 1]]
  }

  lemma {:induction false} WithoutMembers(l: seq<Host>, addr: nat)
    ensures forall h :: h in Without(l, addr) <==> h in l && h.addr != addr
  {
    if l != [] {
      WithoutMembers(l[..|l| - 1], addr);
    }
  }

  /** Taking an address out of a list without repeats takes out exactly one host. */
  lemma {:induction false} WithoutOne(l: seq<Host>, addr: nat)
    requires Distinct(l)
    ensures Distinct(Without(l, addr))
    ensures |Without(l, addr)| == |l| - if Has(l, addr) then 1 else 0
  {
    if l != [] {
      var before := l[..|l| - 1];
      WithoutOne(before, addr);
      WithoutMembers(before, addr);
      assert l == before + [l[|l| - 1]];
      HasSnoc(before, l[|l| - 1], addr);
    }
  }

  /** The others keep their places. */
  lemma {:induction false} WithoutIs(l: seq<Host>, k: nat)
    requires Distinct(l) && k < |l|
    ensures Without(l, l[k].addr) == l[..k] + l[k + 1..]
  {
    var n := |l| - 1;
    var before := l[..n];
    if k == n {
      NotBefore(l);
      NothingOut(before, l[k].addr);
      assert l[..k] + l[k + 1..] == before;
    } else {
      WithoutIs(before, k);
      assert l[..k] + l[k + 1..] == before[..k] + before[k + 1..] + [l[n]];
    }
  }

  lemma NotBefore(l: seq<Host>)
    requires Distinct(l) && l != []
    ensures !Has(l[..|l| - 1], l[|l| - 1].addr)
  {
  }

  // ---------------------------------------------------------------- many hosts at once

  /** add for each host of a list. */
  function AddAll(hosts: seq<Host>, more: seq<Host>): seq<Host>
    decreases |more|
  {
    if more == [] then hosts
    else AddAll(if Has(hosts, more[0].addr) then hosts else hosts + [more[0]], more[1..])
  }

  /** The first n hosts of `more`, without those whose address comes earlier there or in `hosts`. */
  function NewOnes(hosts: seq<Host>, more: seq<Host>, n: nat): seq<Host>
    requires n <= |more|
  {
    if n == 0 then []
    else NewOnes(hosts, more, n - 1) + if Has(hosts + more[..n - 1], more[n - 1].addr) then [] else [more[n - 1]]
  }

  lemma {:induction false} AddAllSnoc(hosts: seq<Host>, more: seq<Host>, x: Host)
    ensures var r := AddAll(hosts, more); AddAll(hosts, more + [x]) == if Has(r, x.addr) then r else r + [x]
    decreases |more|
  {
    if more == [] {
      assert (more + [x])[1..] == [];
      assert more + [x] == [x];
    } else {
      assert (more + [x])[1..] == more[1..] + [x];
      AddAllSnoc(if Has(hosts, more[0].addr) then hosts else hosts + [more[0]], more[1..], x);
    }
  }

  lemma {:induction false} NewOnesPrefix(hosts: seq<Host>, more: seq<Host>, x: Host, n: nat)
    requires n <= |more|
    ensures NewOnes(hosts, more + [x], n) == NewOnes(hosts, more, n)
  {
    if n > 0 {
      NewOnesPrefix(hosts, more, x, n - 1);
      assert (more + [x])[..n - 1] == more[..n - 1];
    }
  }

  /** The list stays as it is, followed by the new hosts in order, of each address the first; an address
      is in the result if and only if it was in one of the two lists. */
  lemma {:induction false} AddAllIs(hosts: seq<Host>, more: seq<Host>)
    ensures AddAll(hosts, more) == hosts + NewOnes(hosts, more, |more|)
    ensures forall addr :: Has(AddAll(hosts, more), addr) <==> Has(hosts, addr) || Has(more, addr)
    decreases |more|
  {
    hide Has;
    if more == [] {
      assert hosts + [] == hosts;
      assert forall addr :: !Has([], addr) by { HasNone(); }
    } else {
      var before, x := more[..|more| - 1], more[|more| - 1];
      assert more == before + [x];
      AddAllIs(hosts, before);
      AddAllSnoc(hosts, before, x);
      NewOnesPrefix(hosts, before, x, |before|);
      HasBoth(hosts, before, x.addr);
      assert hosts + NewOnes(hosts, before, |before|) + [x] == hosts + (NewOnes(hosts, before, |before|) + [x]);
      forall addr
        ensures Has(AddAll(hosts, more), addr) <==> Has(hosts, addr) || Has(more, addr)
      {
        HasSnoc(AddAll(hosts, before), x, addr);
        HasSnoc(before, x, addr);
      }
    }
  }

  lemma HasNone()
    ensures forall addr :: !Has([], addr)
  {
  }

  lemma {:induction false} HasBoth(a: seq<Host>, b: seq<Host>, addr: nat)
    ensures Has(a + b, addr) <==> Has(a, addr) || Has(b, addr)
    decreases |b|
  {
    hide Has;
    if b == [] {
      assert a + b == a;
      HasNone();
    } else {
      var n := |b| - 1;
      assert b == b[..n] + [b[n]] && a + b == a + b[..n] + [b[n]];
      HasBoth(a, b[..n], addr);
      HasSnoc(a + b[..n], b[n], addr);
      HasSnoc(b[..n], b[n], addr);
    }
  }

  lemma {:induction false} NewOneAdded(hosts: seq<Host>, more: seq<Host>, n: nat, k: nat)
    requires k < n <= |more| && !Has(hosts + more[..k], more[k].addr)
    ensures more[k] in NewOnes(hosts, more, n)
  {
    if k < n - 1 {
      NewOneAdded(hosts, more, n - 1, k);
    }
  }

  // ---------------------------------------------------------------- the host with an address

  function First(l: seq<Host>, addr: nat): Option<Host> {
    if l == [] then None else if l[0].addr == addr then Some(l[0]) else First(l[1..], addr)
  }

  lemma {:induction false} FirstBoth(a: seq<Host>, b: seq<Host>, addr: nat)
    ensures First(a + b, addr) == if First(a, addr).Some? then First(a, addr) else First(b, addr)
  {
    if a == [] {
      assert a + b == b;
    } else {
      assert (a + b)[1..] == a[1..] + b;
      FirstBoth(a[1..], b, addr);
    }
  }

  lemma {:induction false} FirstIs(l: seq<Host>, addr: nat)
    ensures First(l, addr).Some? <==> Has(l, addr)
    ensures First(l, addr).Some? ==> First(l, addr).value in l && First(l, addr).value.addr == addr
  {
    if l != [] {
      assert l == [l[0]] + l[1..];
      FirstIs(l[1..], addr);
      assert Has(l, addr) <==> l[0].addr == addr || Has(l[1..], addr) by { HasBoth([l[0]], l[1..], addr); }
    }
  }

  /** In a list of different addresses it is the only one. */
  lemma FirstOnly(l: seq<Host>, h: Host)
    requires Distinct(l)
    ensures h in l <==> First(l, h.addr) == Some(h)
  {
    FirstIs(l, h.addr);
  }

  lemma {:induction false} FirstAddAll(hosts: seq<Host>, more: seq<Host>, addr: nat)
    ensures First(AddAll(hosts, more), addr)
         == if First(hosts, addr).Some? then First(hosts, addr) else First(more, addr)
    decreases |more|
  {
    hide Has;
    if more != [] {
      FirstIs(hosts, more[0].addr);
      FirstBoth(hosts, [more[0]], addr);
      FirstAddAll(if Has(hosts, more[0].addr) then hosts else hosts + [more[0]], more[1..], addr);
    }
  }

  lemma {:induction false} FirstWithout(l: seq<Host>, gone: nat, addr: nat)
    ensures First(Without(l, gone), addr) == if gone == addr then None else First(l, addr)
  {
    if l != [] {
      var n := |l| - 1;
      FirstWithout(l[..n], gone, addr);
      assert l == l[..n] + [l[n]];
      FirstBoth(l[..n], [l[n]], addr);
      FirstBoth(Without(l[..n], gone), if l[n].addr == gone then [] else [l[n]], addr);
    }
  }

  lemma {:induction false} AddAllDistinct(hosts: seq<Host>, more: seq<Host>)
    requires Distinct(hosts)
    ensures Distinct(AddAll(hosts, more))
    decreases |more|
  {
    if more != [] {
      AddAllDistinct(if Has(hosts, more[0].addr) then hosts else hosts + [more[0]], more[1..]);
    }
  }

  // ---------------------------------------------------------------- the list's operations

  /** add: a host whose address is already listed is refused. */
  method Add(l: seq<Host>, host: Host) returns (r: seq<Host>, added: bool)
    requires Distinct(l)
    ensures added <==> !Has(l, host.addr)
    ensures r == if added then l + [host] else l
    ensures Distinct(r)
  {
    var newL: seq<Host> := [];
    for i := 0 to |l|
      invariant newL == l[..i]
      invariant forall k :: 0 <= k < i ==> l[k].addr != host.addr
    {
      if host.addr == l[i].addr {
        return l, false;
      }
      newL := newL + [l[i]];
    }
    return newL + [host], true;
  }

  /** remove: the new list is cut to one less than the old size, which is what is left. */
  method Remove(l: seq<Host>, addr: nat) returns (r: seq<Host>, removed: bool)
    requires Distinct(l)
    ensures removed <==> Has(l, addr)
    ensures r == Without(l, addr) && Distinct(r)
  {
    var newL: seq<Host> := [];
    var found := false;
    for i := 0 to |l|
      invariant newL == Without(l[..i], addr)
      invariant found <==> Has(l[..i], addr)
    {
      assert l[..i + 1][..i] == l[..i];
      HasSnoc(l[..i], l[i], addr);
      assert l[..i + 1] == l[..i] + [l[i]];
      if l[i].addr != addr {
        newL := newL + [l[i]];
      } else {
        found := true;
      }
    }
    assert l[..|l|] == l;
    WithoutOne(l, addr);
    if !found {
      NothingOut(l, addr);
      return l, false;
    }
    return newL[..|l| - 1], true;
  }

  lemma HasSnoc(l: seq<Host>, h: Host, addr: nat)
    ensures Has(l + [h], addr) <==> Has(l, addr) || h.addr == addr
  {
    if Has(l, addr) {
      var i :| 0 <= i < |l| && l[i].addr == addr;
      assert (l + [h])[i].addr == addr;
    }
    if h.addr == addr {
      assert (l + [h])[|l|].addr == addr;
    }
  }

  lemma {:induction false} NothingOut(l: seq<Host>, addr: nat)
    requires !Has(l, addr)
    ensures Without(l, addr) == l
  {
    if l != [] {
      var before := l[..|l| - 1];
      assert l == before + [l[|l| - 1]];
      HasSnoc(before, l[|l| - 1], addr);
      NothingOut(before, addr);
    }
  }
}
