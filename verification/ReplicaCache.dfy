// The replica maps the token-aware policy keeps (policies.go:539-707): one per strategy key,
// recomputed when hosts, partitioner or schema change.
module ReplicaCache {
  import opened Common
  import opened Ring
  import opened Placement
  import opened StrategyKey
  import opened Compaction
  import opened HostList
  import SimplePlacement
  import PlacementLoop

  type Replicas = map<string, seq<HostTokens>>

  /** A keyspace's strategy with the key computed when it was made. */
  datatype Placed = Placed(strategy: Strategy, key: string)

  /** The strategies of the keyspaces that have one. */
  type Schema = map<string, Placed>

  datatype Policy = Policy(hosts: seq<Host>, partitioner: string, ring: Option<TokenRing>, replicas: Replicas)

  datatype Event =
    | SetPartitioner(partitioner: string, schema: Schema)
    | AddHost(host: Host, schema: Schema)
    | AddHosts(hosts: seq<Host>, schema: Schema)
    | RemoveHost(addr: nat, schema: Schema)
    | SchemaRefreshed(schema: Schema)
    | KeyspaceChanged(keyspace: Option<Placed>)

  ghost predicate SchemaOk(schema: Schema) {
    forall ks :: ks in schema ==> HasKey(schema[ks].strategy, schema[ks].key)
  }

  ghost predicate EventOk(e: Event) {
    match e
    case KeyspaceChanged(p) => p.Some? ==> HasKey(p.value.strategy, p.value.key)
    case _ => SchemaOk(e.schema)
  }

  function MapOf(s: Strategy, ring: TokenRing): seq<HostTokens> {
    match s
    case Simple(rf) => SimplePlacement.SimpleEntries(rf, ring)
    case NetworkTopology(dcs) => ReplicaMap(dcs, ring)
  }

  predicate HasSuffix(s: string, suffix: string) {
    |s| >= |suffix| && s[|s| - |suffix|..] == suffix
  }

  predicate Supported(partitioner: string) {
    || HasSuffix(partitioner, "Murmur3Partitioner")
    || HasSuffix(partitioner, "OrderedPartitioner")
    || HasSuffix(partitioner, "RandomPartitioner")
  }

  /** The partitioners the driver has tokens for, by the end of their class names. */
  lemma SupportedIff(partitioner: string)
    ensures Supported(partitioner) <==> exists package: string ::
      || partitioner == package + "Murmur3Partitioner"
      || partitioner == package + "OrderedPartitioner"
      || partitioner == package + "RandomPartitioner"
  {
    hide HasSuffix;
    SuffixIff(partitioner, "Murmur3Partitioner");
    SuffixIff(partitioner, "OrderedPartitioner");
    SuffixIff(partitioner, "RandomPartitioner");
  }

  lemma SuffixIff(s: string, suffix: string)
    ensures HasSuffix(s, suffix) <==> exists package: string :: s == package + suffix
  {
    if HasSuffix(s, suffix) {
      assert s == s[..|s| - |suffix|] + suffix;
    }
  }

  /** resetTokenRing: an unset or unknown partitioner leaves the ring as it was. */
  function ResetRing(partitioner: string, hosts: seq<Host>, ring: Option<TokenRing>): Option<TokenRing> {
    if partitioner == "" || !Supported(partitioner) then ring else Some(RingOf(hosts))
  }

  // ---------------------------------------------------------------- what the cache promises

  /** Every cached map is that of a strategy with its key, on the current ring. */
  ghost predicate Fresh(ring: Option<TokenRing>, replicas: Replicas) {
    forall key :: key in replicas ==>
      ring.Some? && exists s :: HasKey(s, key) && replicas[key] == MapOf(s, ring.value)
  }

  function KeysOf(schema: Schema): set<string> {
    set ks | ks in schema :: schema[ks].key
  }

  /** What updateAllReplicas leaves behind. */
  ghost predicate Updated(ring: Option<TokenRing>, schema: Schema, replicas: Replicas) {
    && replicas.Keys == (if ring.Some? then KeysOf(schema) else {})
    && Fresh(ring, replicas)
  }

  /** Sharing by key is safe: what is cached under a strategy's key is that strategy's map. */
  lemma CachedIsRecomputed(ring: TokenRing, replicas: Replicas, s: Strategy, key: string)
    requires Fresh(Some(ring), replicas) && key in replicas && HasKey(s, key)
    ensures replicas[key] == MapOf(s, ring)
  {
    hide MapOf, HasKey;
    var t :| HasKey(t, key) && replicas[key] == MapOf(t, ring);
    KeyIdentifies(s, t, key);
  }

  /** One change of the policy; the replica maps may come out in any order of keyspaces. */
  ghost predicate Next(p: Policy, e: Event, q: Policy) {
    match e
    case SetPartitioner(partitioner, schema) =>
      if partitioner == p.partitioner then q == p
      else
        && q.hosts == p.hosts && q.partitioner == partitioner
        && q.ring == ResetRing(partitioner, p.hosts, p.ring)
        && Updated(q.ring, schema, q.replicas)
    case AddHost(host, schema) =>
      if Has(p.hosts, host.addr) then q == p
      else
        && q.hosts == p.hosts + [host] && q.partitioner == p.partitioner
        && q.ring == ResetRing(p.partitioner, q.hosts, p.ring)
        && Updated(q.ring, schema, q.replicas)
    case AddHosts(hosts, schema) =>
      && q.hosts == AddAll(p.hosts, hosts) && q.partitioner == p.partitioner
      && q.ring == ResetRing(p.partitioner, q.hosts, p.ring)
      && Updated(q.ring, schema, q.replicas)
    case RemoveHost(addr, schema) =>
      if !Has(p.hosts, addr) then q == p
      else
        && q.hosts == Without(p.hosts, addr) && q.partitioner == p.partitioner
        && q.ring == ResetRing(p.partitioner, q.hosts, p.ring)
        && Updated(q.ring, schema, q.replicas)
    case SchemaRefreshed(schema) =>
      && q.hosts == p.hosts && q.partitioner == p.partitioner && q.ring == p.ring
      && Updated(q.ring, schema, q.replicas)
    case KeyspaceChanged(placed) =>
      if placed.None? || p.ring.None? || placed.value.key in p.replicas then q == p
      else q == p.(replicas := p.replicas[placed.value.key := MapOf(placed.value.strategy, p.ring.value)])
  }

  /** The cache is fresh, the hosts have different addresses, and under a known partitioner
      the ring is that of the current hosts. */
  ghost predicate Inv(p: Policy) {
    && Fresh(p.ring, p.replicas)
    && Distinct(p.hosts)
    && (p.ring.Some? ==> WellFormed(p.ring.value))
    && (p.partitioner != "" && Supported(p.partitioner) ==> p.ring == Some(RingOf(p.hosts)))
  }

  const Empty := Policy([], "", None, map[])

  lemma NextInv(p: Policy, e: Event, q: Policy)
    requires Inv(p) && EventOk(e) && Next(p, e, q)
    ensures Inv(q)
  {
    hide MapOf, HasKey, RingOf;
    match e
    case SetPartitioner(_, _) =>
    case AddHost(_, _) =>
    case AddHosts(hosts, _) => AddAllDistinct(p.hosts, hosts);
    case RemoveHost(addr, _) => WithoutOne(p.hosts, addr);
    case SchemaRefreshed(_) =>
    case KeyspaceChanged(placed) =>
  }

  ghost predicate IsTrace(trace: seq<Policy>, events: seq<Event>) {
    && |trace| == |events| + 1 && trace[0] == Empty
    && (forall i :: 0 <= i < |events| ==> EventOk(events[i]) && Next(trace[i], events[i], trace[i + 1]))
  }

  lemma {:induction false} TraceInv(trace: seq<Policy>, events: seq<Event>, n: nat)
    requires IsTrace(trace, events) && n < |trace|
    ensures Inv(trace[n])
  {
    hide Next;
    if n > 0 {
      TraceInv(trace, events, n - 1);
      NextInv(trace[n - 1], events[n - 1], trace[n]);
    }
  }

  /** After any sequence of host, partitioner and schema changes, what the policy has cached
      for a strategy is that strategy's replica map on the current ring. */
  lemma CacheNeverStale(trace: seq<Policy>, events: seq<Event>, n: nat, s: Strategy, key: string)
    requires IsTrace(trace, events) && n < |trace|
    requires HasKey(s, key) && key in trace[n].replicas
    ensures trace[n].ring.Some? && trace[n].replicas[key] == MapOf(s, trace[n].ring.value)
    ensures var p := trace[n];
      p.partitioner != "" && Supported(p.partitioner) ==> p.ring.value == RingOf(p.hosts)
  {
    hide Next, HasKey, MapOf;
    TraceInv(trace, events, n);
    CachedIsRecomputed(trace[n].ring.value, trace[n].replicas, s, key);
  }

  /** The hosts a token's replicas are, by one turn from its own position on the ring. */
  ghost function Owners(s: Strategy, ring: TokenRing, t: int): seq<Host> {
    if ring.tokens == [] then []
    else
      var p := PrimaryIndex(ring.tokens, t);
      match s
      case Simple(rf) => SimplePlacement.FirstDifferent(rf, Rotation(ring.tokens, p))
      case NetworkTopology(dcs) => Entry(dcs, ring, p)
  }

  function HostsFound(found: Option<HostTokens>): seq<Host> {
    if found.None? then [] else found.value.hosts
  }

  lemma MapGivesOwners(s: Strategy, ring: TokenRing, t: int)
    requires WellFormed(ring)
    ensures HostsFound(ReplicasFor(MapOf(s, ring), t)) == Owners(s, ring, t)
  {
    hide Entry, FirstAtLeast, SimplePlacement.FirstDifferent, Rotation, WellFormed;
    if ring.tokens != [] {
      match s
      case Simple(rf) => SimplePlacement.SimpleLookup(rf, ring, t);
      case NetworkTopology(dcs) =>
        LookupIsSound(dcs, ring, t);
        if NoneCount(dcs, ring.tokens) {
          NoOwners(dcs, ring, PrimaryIndex(ring.tokens, t));
        }
    }
  }

  /** After any sequence of changes, looking a token up in what is cached for a strategy gives the
      hosts a turn from the token's own position on the ring of the current hosts collects. */
  lemma LookupFollowsRing(trace: seq<Policy>, events: seq<Event>, n: nat, s: Strategy, key: string, t: int)
    requires IsTrace(trace, events) && n < |trace|
    requires HasKey(s, key) && key in trace[n].replicas
    requires trace[n].partitioner != "" && Supported(trace[n].partitioner)
    ensures HostsFound(ReplicasFor(trace[n].replicas[key], t)) == Owners(s, RingOf(trace[n].hosts), t)
  {
    hide Next, HasKey, MapOf, Owners, RingOf;
    CacheNeverStale(trace, events, n, s, key);
    MapGivesOwners(s, RingOf(trace[n].hosts), t);
  }

  /** Under a known partitioner, after any sequence of changes, the ring has exactly the tokens of the
      current hosts. */
  lemma RingIsCurrent(trace: seq<Policy>, events: seq<Event>, n: nat, x: HostToken)
    requires IsTrace(trace, events) && n < |trace| && trace[n].partitioner != "" && Supported(trace[n].partitioner)
    ensures trace[n].ring.Some?
    ensures x in trace[n].ring.value.tokens <==> x.host in trace[n].hosts && x.token in x.host.tokens
  {
    hide Next, RingOf;
    TraceInv(trace, events, n);
    OnRing(trace[n].hosts, x);
  }

  /** The host an address has after n events: the first added since it was last removed. */
  ghost function Current(events: seq<Event>, n: nat, addr: nat): Option<Host>
    requires n <= |events|
  {
    if n == 0 then None
    else
      var before := Current(events, n - 1, addr);
      match events[n - 1]
      case AddHost(host, _) => if before.Some? then before else First([host], addr)
      case AddHosts(hosts, _) => if before.Some? then before else First(hosts, addr)
      case RemoveHost(gone, _) => if gone == addr then None else before
      case _ => before
  }

  lemma {:induction false} HostsFollow(trace: seq<Policy>, events: seq<Event>, n: nat, addr: nat)
    requires IsTrace(trace, events) && n <= |events|
    ensures First(trace[n].hosts, addr) == Current(events, n, addr)
  {
    hide Has;
    if n > 0 {
      HostsFollow(trace, events, n - 1, addr);
      var hosts := trace[n - 1].hosts;
      assert Next(trace[n - 1], events[n - 1], trace[n]);
      match events[n - 1]
      case SetPartitioner(_, _) =>
      case AddHost(host, _) =>
        FirstBoth(hosts, [host], addr);
        FirstIs(hosts, host.addr);
      case AddHosts(more, _) => FirstAddAll(hosts, more, addr);
      case RemoveHost(gone, _) =>
        FirstIs(hosts, gone);
        FirstWithout(hosts, gone, addr);
      case SchemaRefreshed(_) =>
      case KeyspaceChanged(_) =>
    }
  }

  /** After any sequence of changes the policy has exactly the hosts added and not removed since. */
  lemma HostsAreCurrent(trace: seq<Policy>, events: seq<Event>, n: nat, h: Host)
    requires IsTrace(trace, events) && n <= |events|
    ensures h in trace[n].hosts <==> Current(events, n, h.addr) == Some(h)
  {
    hide Next, Distinct;
    TraceInv(trace, events, n);
    HostsFollow(trace, events, n, h.addr);
    FirstOnly(trace[n].hosts, h);
  }

  /** New hosts come after the others, and the others keep their order. */
  lemma HostsInOrder(trace: seq<Policy>, events: seq<Event>, n: nat)
    requires IsTrace(trace, events) && n < |events|
    ensures !events[n].RemoveHost? ==> trace[n].hosts <= trace[n + 1].hosts
    ensures events[n].RemoveHost? && trace[n + 1].hosts != trace[n].hosts ==>
      exists k :: 0 <= k < |trace[n].hosts| && trace[n + 1].hosts == trace[n].hosts[..k] + trace[n].hosts[k + 1..]
  {
    hide Supported, RingOf;
    var hosts := trace[n].hosts;
    assert Next(trace[n], events[n], trace[n + 1]);
    TraceInv(trace, events, n);
    if events[n].AddHosts? {
      AddAllIs(hosts, events[n].hosts);
    } else if events[n].RemoveHost? && Has(hosts, events[n].addr) {
      var k :| 0 <= k < |hosts| && hosts[k].addr == events[n].addr;
      WithoutIs(hosts, k);
    }
  }

  predicate NamesRing(e: Event) {
    e.SetPartitioner? && e.partitioner != "" && Supported(e.partitioner)
  }

  lemma RingStep(p: Policy, e: Event, q: Policy)
    requires Inv(p) && Next(p, e, q)
    ensures q.ring.Some? <==> p.ring.Some? || NamesRing(e)
    ensures q.partitioner == "" || !Supported(q.partitioner) ==> q.ring == p.ring
  {
    hide Has, Supported, RingOf, Updated, Fresh, MapOf, AddAll, Without, Distinct;
  }

  /** There is a ring once a known partitioner has been set, and under an unknown one it stays. */
  lemma {:induction false} RingIff(trace: seq<Policy>, events: seq<Event>, n: nat)
    requires IsTrace(trace, events) && n <= |events|
    ensures trace[n].ring.Some? <==> exists k :: 0 <= k < n && NamesRing(events[k])
    ensures n > 0 && (trace[n].partitioner == "" || !Supported(trace[n].partitioner)) ==>
      trace[n].ring == trace[n - 1].ring
  {
    hide Next, Supported, NamesRing, Inv;
    if n > 0 {
      RingIff(trace, events, n - 1);
      TraceInv(trace, events, n - 1);
      RingStep(trace[n - 1], events[n - 1], trace[n]);
    }
  }

  /** Adding a list of hosts puts every token of each new one on the ring: each whose address neither the
      policy nor an earlier host of the list has. */
  lemma AddedHostsOnRing(trace: seq<Policy>, events: seq<Event>, n: nat, k: nat, t: int)
    requires IsTrace(trace, events) && n < |events| && events[n].AddHosts? && k < |events[n].hosts|
    requires !Has(trace[n].hosts + events[n].hosts[..k], events[n].hosts[k].addr) && t in events[n].hosts[k].tokens
    requires trace[n].partitioner != "" && Supported(trace[n].partitioner)
    ensures var h := events[n].hosts[k];
      h in trace[n + 1].hosts && trace[n + 1].ring.Some? && HostToken(t, h) in trace[n + 1].ring.value.tokens
  {
    var hosts, more := trace[n].hosts, events[n].hosts;
    assert Next(trace[n], events[n], trace[n + 1]);
    AddAllIs(hosts, more);
    NewOneAdded(hosts, more, |more|, k);
    assert trace[n + 1].partitioner == trace[n].partitioner;
    hide Next;
    RingIsCurrent(trace, events, n + 1, HostToken(t, more[k]));
  }

  /** A keyspace that changes is served from its own strategy's map, once there is a ring. */
  lemma ChangedKeyspaceServed(trace: seq<Policy>, events: seq<Event>, n: nat, placed: Placed)
    requires IsTrace(trace, events) && n < |events| && events[n] == KeyspaceChanged(Some(placed)) && trace[n].ring.Some?
    ensures trace[n + 1].ring == trace[n].ring && placed.key in trace[n + 1].replicas
    ensures trace[n + 1].replicas[placed.key] == MapOf(placed.strategy, trace[n].ring.value)
  {
    hide MapOf, HasKey, RingOf;
    assert EventOk(events[n]) && Next(trace[n], events[n], trace[n + 1]);
    TraceInv(trace, events, n);
    if placed.key in trace[n].replicas {
      CachedIsRecomputed(trace[n].ring.value, trace[n].replicas, placed.strategy, placed.key);
    }
  }

  /** Once there is a ring, a schema refresh serves every keyspace from its own strategy's map. */
  lemma EveryKeyspaceServed(p: Policy, q: Policy, schema: Schema, ks: string)
    requires SchemaOk(schema) && ks in schema && Next(p, SchemaRefreshed(schema), q) && p.ring.Some?
    ensures schema[ks].key in q.replicas
    ensures q.replicas[schema[ks].key] == MapOf(schema[ks].strategy, p.ring.value)
  {
    hide HasKey, MapOf;
    assert schema[ks].key in KeysOf(schema);
    CachedIsRecomputed(p.ring.value, q.replicas, schema[ks].strategy, schema[ks].key);
  }

  // ---------------------------------------------------------------- the policy object

  class TokenAwarePolicy {
    var hosts: seq<Host>
    var partitioner: string
    var tokenRing: Option<TokenRing>
    var replicas: Replicas

    ghost function State(): Policy
      reads this
    {
      Policy(hosts, partitioner, tokenRing, replicas)
    }

    constructor ()
      ensures State() == Empty
    {
      hosts, partitioner, tokenRing, replicas := [], "", None, map[];
    }

    method ReplicaMapFor(s: Strategy, ring: TokenRing) returns (r: seq<HostTokens>)
      requires WellFormed(ring)
      ensures r == MapOf(s, ring)
    {
      match s
      case Simple(rf) => r := SimplePlacement.ComputeSimpleEntries(rf, ring);
      case NetworkTopology(dcs) =>
        var warned;
        r, warned := PlacementLoop.ComputeReplicaMap(dcs, ring);
    }

    /** updateAllReplicas: one map per key, computed for whichever keyspace comes first. */
    method UpdateAllReplicas(schema: Schema)
      requires SchemaOk(schema) && (tokenRing.Some? ==> WellFormed(tokenRing.value))
      modifies this`replicas
      ensures Updated(tokenRing, schema, replicas)
    {
      hide HasKey, MapOf;
      var newReplicas: Replicas := map[];
      var todo := schema.Keys;
      while todo != {}
        invariant todo <= schema.Keys
        invariant var done := set ks | ks in schema && ks !in todo :: schema[ks].key;
          newReplicas.Keys == if tokenRing.Some? then done else {}
        invariant Fresh(tokenRing, newReplicas)
        decreases todo
      {
        var ks :| ks in todo;
        var placed := schema[ks];
        if tokenRing.Some? && placed.key !in newReplicas {
          var m := ReplicaMapFor(placed.strategy, tokenRing.value);
          newReplicas := newReplicas[placed.key := m];
        }
        todo := todo - {ks};
      }
      replicas := newReplicas;
    }

    method ResetTokenRing()
      modifies this`tokenRing
      ensures tokenRing == ResetRing(partitioner, hosts, old(tokenRing))
    {
      if partitioner != "" && Supported(partitioner) {
        var ring := NewTokenRing(hosts);
        tokenRing := Some(ring);
      }
    }

    method SetPartitioner(p: string, schema: Schema)
      requires Inv(State()) && SchemaOk(schema)
      modifies this
      ensures Next(old(State()), Event.SetPartitioner(p, schema), State())
    {
      hide Updated, Fresh, RingOf;
      if partitioner != p {
        partitioner := p;
        ResetTokenRing();
        UpdateAllReplicas(schema);
      }
    }

    method AddHost(host: Host, schema: Schema)
      requires Inv(State()) && SchemaOk(schema)
      modifies this
      ensures Next(old(State()), Event.AddHost(host, schema), State())
    {
      hide Updated, Fresh, RingOf;
      var l, added := Add(hosts, host);
      if added {
        hosts := l;
        ResetTokenRing();
        UpdateAllReplicas(schema);
      }
    }

    method AddHosts(more: seq<Host>, schema: Schema)
      requires Inv(State()) && SchemaOk(schema)
      modifies this
      ensures Next(old(State()), Event.AddHosts(more, schema), State())
    {
      hide Updated, Fresh, RingOf;
      for i := 0 to |more|
        invariant Distinct(hosts) && AddAll(hosts, more[i..]) == AddAll(old(hosts), more)
        invariant partitioner == old(partitioner) && tokenRing == old(tokenRing) && replicas == old(replicas)
      {
        var l, _ := Add(hosts, more[i]);
        assert more[i..][1..] == more[i + 1..];
        hosts := l;
      }
      ResetTokenRing();
      UpdateAllReplicas(schema);
    }

    method RemoveHost(addr: nat, schema: Schema)
      requires Inv(State()) && SchemaOk(schema)
      modifies this
      ensures Next(old(State()), Event.RemoveHost(addr, schema), State())
    {
      hide Updated, Fresh, RingOf;
      var l, removed := Remove(hosts, addr);
      if removed {
        hosts := l;
        ResetTokenRing();
        UpdateAllReplicas(schema);
      }
    }

    method SchemaRefresh(schema: Schema)
      requires SchemaOk(schema) && (tokenRing.Some? ==> WellFormed(tokenRing.value))
      modifies this
      ensures Next(old(State()), SchemaRefreshed(schema), State())
    {
      UpdateAllReplicas(schema);
    }

    /** updateReplicas: a key that is cached already is not recomputed. */
    method UpdateReplicas(placed: Option<Placed>)
      requires Inv(State())
      modifies this
      ensures Next(old(State()), KeyspaceChanged(placed), State())
    {
      if placed.Some? && tokenRing.Some? && placed.value.key !in replicas {
        var m := ReplicaMapFor(placed.value.strategy, tokenRing.value);
        replicas := replicas[placed.value.key := m];
      }
    }
  }
}
