// Strategy keys (topology.go:146-151, 218-238): replica maps are cached under the key of
// their strategy, so a key has to identify the strategy.
module StrategyKey {
  import opened Placement

  datatype Strategy = Simple(rf: nat) | NetworkTopology(dcs: Factors)

  const SIMPLE := "SimpleStrategy"
  const NETWORK_TOPOLOGY := "NetworkTopologyStrategy"

  // ---------------------------------------------------------------- numbers

  predicate IsDigit(c: char) {
    '0' <= c <= '9'
  }

  predicate AllDigits(s: string) {
    forall i :: 0 <= i < |s| ==> IsDigit(s[i])
  }

  function Digit(n: nat): (c: char)
    requires n < 10
    ensures IsDigit(c)
  {
    ('0' as int + n) as char
  }

  /** strconv.Itoa */
  function Itoa(n: nat): (s: string)
    ensures s != [] && AllDigits(s)
  {
    if n < 10 then [Digit(n)] else Itoa(n / 10) + [Digit(n % 10)]
  }

  lemma DigitInjective(a: nat, b: nat)
    requires a < 10 && b < 10 && Digit(a) == Digit(b)
    ensures a == b
  {
  }

  lemma {:induction false} ItoaInjective(a: nat, b: nat)
    requires Itoa(a) == Itoa(b)
    ensures a == b
  {
    var s, t := Itoa(a), Itoa(b);
    assert s[|s| - 1] == Digit(a % 10) && t[|t| - 1] == Digit(b % 10);
    DigitInjective(a % 10, b % 10);
    if a >= 10 && b >= 10 {
      assert s[..|s| - 1] == Itoa(a / 10) && t[..|t| - 1] == Itoa(b / 10);
      ItoaInjective(a / 10, b / 10);
    }
  }

  /** Where a number ends can be told by the first character that is not a digit. */
  lemma NumberEnds(d: string, x: string, e: string, y: string)
    requires AllDigits(d) && AllDigits(e) && d + x == e + y
    requires (x == [] || !IsDigit(x[0])) && (y == [] || !IsDigit(y[0]))
    ensures d == e && x == y
  {
    assert |d| < |d + x| ==> (d + x)[|d|] == x[0];
    assert |e| < |e + y| ==> (e + y)[|e|] == y[0];
    assert d == (d + x)[..|d|] && e == (e + y)[..|e|];
    assert x == (d + x)[|d|..] && y == (e + y)[|e|..];
  }

  // ---------------------------------------------------------------- the order of names

  predicate Less(a: string, b: string) {
    b != [] && (a == [] || a[0] < b[0] || (a[0] == b[0] && Less(a[1..], b[1..])))
  }

  lemma {:induction false} LessTotal(a: string, b: string)
    ensures a == b || Less(a, b) || Less(b, a)
    ensures !(Less(a, b) && Less(b, a)) && !Less(a, a)
  {
    if a != [] && b != [] && a[0] == b[0] {
      LessTotal(a[1..], b[1..]);
      assert a == [a[0]] + a[1..] && b == [b[0]] + b[1..];
    }
    if a != [] {
      LessTotal(a[1..], a[1..]);
    }
  }

  lemma {:induction false} LessTransitive(a: string, b: string, c: string)
    requires Less(a, b) && Less(b, c)
    ensures Less(a, c)
  {
    if a != [] && a[0] == b[0] == c[0] {
      LessTransitive(a[1..], b[1..], c[1..]);
    }
  }

  predicate Ascending(ns: seq<string>) {
    forall i, j :: 0 <= i < j < |ns| ==> Less(ns[i], ns[j])
  }

  function NameSet(ns: seq<string>): set<string> {
    set n | n in ns
  }

  /** Ascending lists of the same names are the same list. */
  lemma {:induction false} AscendingUnique(a: seq<string>, b: seq<string>)
    requires Ascending(a) && Ascending(b) && NameSet(a) == NameSet(b)
    ensures a == b
  {
    NoNames(a);
    NoNames(b);
    if a != [] && b != [] {
      SameLeast(a, b);
      SameRest(a, b);
      AscendingUnique(a[1..], b[1..]);
      assert a == [a[0]] + a[1..] && b == [b[0]] + b[1..];
    }
  }

  lemma NoNames(a: seq<string>)
    ensures NameSet(a) == {} <==> a == []
  {
    assert a == [] || a[0] in NameSet(a);
  }

  lemma SameLeast(a: seq<string>, b: seq<string>)
    requires Ascending(a) && Ascending(b) && NameSet(a) == NameSet(b) && a != [] && b != []
    ensures a[0] == b[0]
  {
    assert a[0] in NameSet(b) && b[0] in NameSet(a);
    var i :| 0 <= i < |b| && b[i] == a[0];
    var j :| 0 <= j < |a| && a[j] == b[0];
    LessTotal(a[0], b[0]);
  }

  lemma SameRest(a: seq<string>, b: seq<string>)
    requires Ascending(a) && Ascending(b) && NameSet(a) == NameSet(b) && a != [] && b != [] && a[0] == b[0]
    ensures NameSet(a[1..]) == NameSet(b[1..])
  {
    WithoutFirst(a);
    WithoutFirst(b);
  }

  lemma WithoutFirst(a: seq<string>)
    requires Ascending(a) && a != []
    ensures NameSet(a[1..]) == NameSet(a) - {a[0]}
  {
    LessTotal(a[0], a[0]);
    assert forall n :: n in a <==> n == a[0] || n in a[1..];
  }

  // ---------------------------------------------------------------- keys

  /** One datacenter in the key; its name is preceded by its length. */
  function Item(dc: string, rf: nat): string {
    "|" + Itoa(|dc|) + ":" + dc + ":" + Itoa(rf)
  }

  function Items(names: seq<string>, dcs: Factors): string {
    if names == [] then ""
    else Item(names[0], Rf(dcs, names[0])) + Items(names[1..], dcs)
  }

  /** The names of a replication map in order. */
  ghost predicate NamesOf(names: seq<string>, dcs: Factors) {
    Ascending(names) && NameSet(names) == dcs.Keys
  }

  lemma ItemsStart(names: seq<string>, dcs: Factors)
    ensures Items(names, dcs) == "" || Items(names, dcs)[0] == '|'
    ensures Items(names, dcs) == "" <==> names == []
  {
  }

  lemma Peel(p: string, u: string, q: string, v: string)
    requires p + u == q + v && |p| == |q|
    ensures p == q && u == v
  {
    assert p == (p + u)[..|p|] && q == (q + v)[..|q|];
    assert u == (p + u)[|p|..] && v == (q + v)[|q|..];
  }

  lemma ItemParts(dc: string, rf: nat, x: string)
    ensures Item(dc, rf) + x == "|" + (Itoa(|dc|) + (":" + (dc + (":" + (Itoa(rf) + x)))))
  {
    hide Itoa;
  }

  /** A name that may hold any character is still delimited. */
  lemma ItemInjective(a: string, rfA: nat, x: string, b: string, rfB: nat, y: string)
    requires Item(a, rfA) + x == Item(b, rfB) + y
    requires (x == [] || x[0] == '|') && (y == [] || y[0] == '|')
    ensures a == b && rfA == rfB && x == y
  {
    hide Itoa, Item;
    ItemParts(a, rfA, x);
    ItemParts(b, rfB, y);
    var nameA, nameB := a + (":" + (Itoa(rfA) + x)), b + (":" + (Itoa(rfB) + y));
    Peel("|", Itoa(|a|) + (":" + nameA), "|", Itoa(|b|) + (":" + nameB));
    NumberEnds(Itoa(|a|), ":" + nameA, Itoa(|b|), ":" + nameB);
    ItoaInjective(|a|, |b|);
    Peel(":", nameA, ":", nameB);
    Peel(a, ":" + (Itoa(rfA) + x), b, ":" + (Itoa(rfB) + y));
    Peel(":", Itoa(rfA) + x, ":", Itoa(rfB) + y);
    NumberEnds(Itoa(rfA), x, Itoa(rfB), y);
    ItoaInjective(rfA, rfB);
  }

  lemma {:induction false} ItemsInjective(m: seq<string>, f: Factors, n: seq<string>, g: Factors)
    requires Items(m, f) == Items(n, g)
    ensures m == n && forall dc :: dc in m ==> Rf(f, dc) == Rf(g, dc)
  {
    ItemsStart(m, f);
    ItemsStart(n, g);
    if m != [] && n != [] {
      hide Item;
      ItemsStart(m[1..], f);
      ItemsStart(n[1..], g);
      ItemInjective(m[0], Rf(f, m[0]), Items(m[1..], f), n[0], Rf(g, n[0]), Items(n[1..], g));
      ItemsInjective(m[1..], f, n[1..], g);
      assert m == [m[0]] + m[1..] && n == [n[0]] + n[1..];
    }
  }

  /** The key of a strategy; `names` are the datacenters in the order sort.Strings puts them. */
  ghost predicate HasKey(s: Strategy, key: string) {
    match s
    case Simple(rf) => key == SIMPLE + "|rf:" + Itoa(rf)
    case NetworkTopology(dcs) =>
      exists names :: NamesOf(names, dcs) && key == NETWORK_TOPOLOGY + Items(names, dcs)
  }

  /** A strategy has one key only. */
  lemma OneKey(s: Strategy, k: string, l: string)
    requires HasKey(s, k) && HasKey(s, l)
    ensures k == l
  {
    if s.NetworkTopology? {
      var m :| NamesOf(m, s.dcs) && k == NETWORK_TOPOLOGY + Items(m, s.dcs);
      var n :| NamesOf(n, s.dcs) && l == NETWORK_TOPOLOGY + Items(n, s.dcs);
      AscendingUnique(m, n);
    }
  }

  lemma FirstLetter(s: Strategy, key: string)
    requires HasKey(s, key)
    ensures key != [] && key[0] == if s.Simple? then 'S' else 'N'
  {
  }

  /** Strategies that share a key are the same strategy, whatever characters the datacenter
      names are made of. */
  lemma KeyIdentifies(s: Strategy, t: Strategy, key: string)
    requires HasKey(s, key) && HasKey(t, key)
    ensures s == t
  {
    hide Items, Itoa, Less, Ascending;
    FirstLetter(s, key);
    FirstLetter(t, key);
    match (s, t)
    case (Simple(a), Simple(b)) =>
      assert key[18..] == Itoa(a) == Itoa(b);
      ItoaInjective(a, b);
    case (NetworkTopology(f), NetworkTopology(g)) =>
      var m :| NamesOf(m, f) && key == NETWORK_TOPOLOGY + Items(m, f);
      var n :| NamesOf(n, g) && key == NETWORK_TOPOLOGY + Items(n, g);
      assert key[|NETWORK_TOPOLOGY|..] == Items(m, f) == Items(n, g);
      ItemsInjective(m, f, n, g);
      assert forall dc :: dc in f <==> dc in NameSet(m);
      assert f == g;
    case (Simple(_), NetworkTopology(_)) =>
    case (NetworkTopology(_), Simple(_)) =>
  }

  // ---------------------------------------------------------------- building the key

  lemma InsertedAscending(names: seq<string>, i: nat, n: string)
    requires Ascending(names) && i <= |names| && (forall k :: 0 <= k < i ==> Less(names[k], n))
    requires i < |names| ==> Less(n, names[i])
    ensures Ascending(names[..i] + [n] + names[i..])
  {
    hide Less;
    forall k | i <= k < |names|
      ensures Less(n, names[k])
    {
      if k > i {
        LessTransitive(n, names[i], names[k]);
      }
    }
  }

  lemma InsertedNames(names: seq<string>, i: nat, n: string)
    requires i <= |names|
    ensures NameSet(names[..i] + [n] + names[i..]) == NameSet(names) + {n}
  {
    assert names == names[..i] + names[i..];
  }

  /** Inserting a name where sort.Strings would put it. */
  method InsertName(names: seq<string>, n: string) returns (r: seq<string>)
    requires Ascending(names) && n !in names
    ensures Ascending(r) && NameSet(r) == NameSet(names) + {n}
  {
    hide Ascending, NameSet;
    var i := 0;
    while i < |names| && Less(names[i], n)
      invariant 0 <= i <= |names|
      invariant forall k :: 0 <= k < i ==> Less(names[k], n)
    {
      i := i + 1;
    }
    if i < |names| {
      LessTotal(n, names[i]);
    }
    hide Less;
    InsertedAscending(names, i, n);
    InsertedNames(names, i, n);
    r := names[..i] + [n] + names[i..];
  }

  /** The datacenters come from the map in any order. */
  method SortedNames(dcs: Factors) returns (names: seq<string>)
    ensures NamesOf(names, dcs)
  {
    hide Less;
    names := [];
    var todo := dcs.Keys;
    while todo != {}
      invariant todo <= dcs.Keys && Ascending(names) && NameSet(names) == dcs.Keys - todo
      decreases todo
    {
      var dc :| dc in todo;
      assert dc !in NameSet(names);
      names := InsertName(names, dc);
      todo := todo - {dc};
    }
  }

  /** buildNetworkTopologyKey */
  method BuildNetworkTopologyKey(dcs: Factors) returns (key: string)
    ensures HasKey(NetworkTopology(dcs), key)
  {
    hide Ascending, Itoa, Item, Items;
    var names := SortedNames(dcs);
    key := NETWORK_TOPOLOGY;
    ghost var items := "";
    ItemsNone(dcs);
    for i := 0 to |names|
      invariant items == Items(names[..i], dcs) && key == NETWORK_TOPOLOGY + items
    {
      ItemsSnoc(names[..i], names[i], dcs);
      assert names[..i + 1] == names[..i] + [names[i]];
      assert names[i] in NameSet(names);
      ItemText(names[i], dcs[names[i]], key);
      key := key + "|" + Itoa(|names[i]|) + ":" + names[i] + ":" + Itoa(dcs[names[i]]);
      items := items + Item(names[i], dcs[names[i]]);
    }
    assert names[..|names|] == names;
    assert NamesOf(names, dcs);
  }

  lemma ItemsNone(dcs: Factors)
    ensures Items([], dcs) == "" && NETWORK_TOPOLOGY + "" == NETWORK_TOPOLOGY
  {
  }

  lemma ItemText(dc: string, rf: nat, key: string)
    ensures key + "|" + Itoa(|dc|) + ":" + dc + ":" + Itoa(rf) == key + Item(dc, rf)
  {
    hide Itoa;
  }

  lemma {:induction false} ItemsSnoc(names: seq<string>, n: string, dcs: Factors)
    ensures Items(names + [n], dcs) == Items(names, dcs) + Item(n, Rf(dcs, n))
  {
    hide Item;
    if names == [] {
      assert [n][1..] == [];
      assert Items([n], dcs) == Item(n, Rf(dcs, n)) + Items([], dcs);
    } else {
      ItemsSnoc(names[1..], n, dcs);
      assert (names + [n])[1..] == names[1..] + [n];
    }
  }
}
