# gocql in Dafny

A model of the hard parts of gocql, the Go driver for Apache Cassandra, with proofs of what they promise.

- **Stream ids.** `StreamBits` has the bitset words, `StreamIds` every interleaving of the atomic loads,
  compare-and-swaps and counter updates of `GetStream` and `Clear`, `StreamIdsRuns` where searches begin and give up,
  `IdGenerator` the loops themselves.
- **One connection, many callers.** `Multiplexer` is a transition system over the callers of `execInternal`, the
  receiver, the closer, the server and the call table; a step is one section under `c.mu`, one channel rendezvous or
  one write. `MultiplexerInv` is its invariant, `MultiplexerRuns` what holds over whole runs, `MultiplexerClose` when a
  close ends, `MultiplexerReturns` how streams come back, `MultiplexerStreams` the same machine with the stream-id
  words underneath, `ConnTable` the sections under the lock as updates of the connection's fields. The server answers
  each request it was sent at most once, on the request's own stream, and sends nothing else on positive streams. A
  write ends by itself when the connection has a write deadline; without one it can stall for as long as the peer does
  not read.
- **Replica placement.** `Ring` is the token ring, `DcPlacement` and `Placement` the NetworkTopology walk with quotas,
  racks and skipped hosts, `PlacementLoop` the loops with their early exits, `SimplePlacement` SimpleStrategy,
  `Compaction` the look-up on a map that leaves out tokens without replicas, `StrategyKey` the cache keys, `HostList`
  the copy-on-write host list and `ReplicaCache` the token-aware policy's cached maps. Tokens are integers.
- **Protocol v5 framing.** `Crc` is the header checksum, `Segments` the segments, `Framing` the cutting of frames into
  segments and the receiver that puts them together: section 2 of the Cassandra native protocol v5
  (native_protocol_v5.spec). CRC-32 is any function into 32 bits. A compressor is any pair of functions of which the
  second undoes the first.
- **Refresh debouncer.** `Debouncer` is the machine of callers, timer, `stop` and flusher, `DebouncerRuns` what holds
  over runs, `DebouncerObjects` the channels and the critical sections as updates in place.
- **Connection pool.** `ConnPool` is the machine of `fill`, `connect`, connection errors and `Close`, `ConnPoolInv`
  what it keeps, `ConnPoolRuns` how a fill ends and what it has made, `HostConnPool` the sections under the lock.
- **Value codecs.** `Vint` and `BigInt` are the integers, `Cells` the lengths and elements of composite values, `Cql`
  the type trees, `CqlRoundTrip` the round trip, `CqlBytes` the bytes on the wire with their numbers written out,
  `CqlTypes` which values a type takes, `CqlMarshal` and `CqlUnmarshal` the loops. A typed value stands for what Go's
  reflection finds. `Bytes` and `Common` hold what several modules share.
- **Host iterators and write coalescer.** `HostIterators`, `TokenAwareIterator` and `TokenAwarePick` are the closures
  that hand out hosts; `Coalescer` and `WriteFlusher` gather writes and share out their result.

Some promises do not hold of the code without a condition. The condition is then proved exact, and where it is about
runs or hosts a lemma also gives an input that fails:

- a close can hang on a stalled write when there is no write deadline (`MultiplexerClose.CloseFinishesIff`,
  `MultiplexerClose.StalledCloseHangs`);
- a listener registered after the flusher's last critical section is never answered
  (`DebouncerRuns.ClosedIffRegisteredInTime`, `DebouncerRuns.LateListenerWaitsForever`);
- a connect that cannot close its socket in a closed pool keeps the pool's lock, and the fill never ends
  (`ConnPoolRuns.FillCanEndIff`, `ConnPoolRuns.LockLostRun`);
- a connection that dies, and is reported, before it is added stays in the pool (`ConnPoolRuns.DeadLeavesIff`,
  `ConnPoolRuns.ForgottenRun`);
- a tier without replicas hides the tiers behind it, which the documentation of `NonLocalReplicasFallback` does not say
  (`TokenAwareIterator.RemoteCompleteIff`, `TokenAwareIterator.EmptyTierHidesReplica`);
- a replica listed twice is offered twice (`TokenAwareIterator.NoHostTwiceIff`,
  `TokenAwareIterator.ReplicaOfferedTwice`), and a host with several tokens can be listed twice
  (`Placement.RepeatFreeIffOneToken`, whose failing half covers every such ring);
- a 64-bit vint takes nine bytes and not ten (`Vint.SixtyFourBits`, whose failing half covers every such value);
- values the encoding cannot tell apart do not survive it (`CqlRoundTrip.RoundTripIff`, `CqlRoundTrip.FieldlessTuple`,
  `CqlRoundTrip.LongFieldIff`).

## Model

| member | source | states |
|---|---|---|
| StreamBits.SetAdds | internal/streams/streams.go:65-122 | setting a stream's bit adds exactly that id to the ids in use, and no other word or bit |
| StreamBits.ClearRemoves | internal/streams/streams.go:107-122 | clearing a stream's bit removes exactly that id |
| StreamBits.FreshInUse | internal/streams/streams.go:46-63 | in a new generator only the reserved id 0 is in use |
| StreamBits.FreeSlot | internal/streams/streams.go:87-95 | a slot whose mask is free is an id below the capacity that is not in use |
| StreamIds.NewInv | internal/streams/streams.go:46-63 | a new generator has 128 ids, or 32768 above protocol 2, and satisfies the invariant |
| StreamIds.CounterBound | internal/streams/streams.go:135-160 | the counter never falls below the decrements still to come |
| StreamIds.ClearLoadInv | internal/streams/streams.go:135-147 | clearing an id one holds never finds its bit clear already |
| StreamIds.StepInv | internal/streams/streams.go:69-160 | every atomic step of GetStream and Clear keeps the invariant |
| StreamIds.EveryRunIsSafe | internal/streams/streams.go:69-164 | in every interleaving ids lie in 1..NumStreams-1, no id has two holders, set bits minus the reserved one are the counter plus pending increments minus pending decrements, and the negative-counter panic is unreachable |
| StreamIds.StepRefinesSet | internal/streams/streams.go:69-160 | each step is one permitted change of the set of ids in use: nothing, adding a free id, or removing a used one |
| StreamIdsRuns.FailsOnlyWhenFull | internal/streams/streams.go:69-100 | however calls interleave, GetStream does not return without an id if some id was free all the while |
| StreamIdsRuns.SearchesTakeTurns | internal/streams/streams.go:69-77 | in every run searches begin at the words in turn |
| IdGenerator.IDGenerator.constructor | internal/streams/streams.go:46-63 | capacity by protocol; only id 0 in use; counter zero |
| IdGenerator.IDGenerator.GetStream | internal/streams/streams.go:69-100 | succeeds if and only if some id is free; the id was free, is in 1..NumStreams-1, and is the only one added |
| IdGenerator.IDGenerator.TakeSlot | internal/streams/streams.go:88-93 | the slot taken is one new id and is counted once |
| IdGenerator.IDGenerator.FirstFree | internal/streams/streams.go:87-96 | the first slot of a word whose bit is clear, if there is one |
| IdGenerator.IDGenerator.Clear | internal/streams/streams.go:135-160 | true if and only if the id was in use; removes exactly it; the negative-counter panic comes exactly when it was the only id in use, so never for an id other than the reserved one while that one is in use |
| IdGenerator.IDGenerator.Available | internal/streams/streams.go:162-164 | the number of ids not in use |
| MultiplexerInv.AddCallInv | conn.go:1220-1233 | adding a call keeps the invariant, and succeeds whenever the connection is not closed |
| MultiplexerInv.SendInv | conn.go:1299-1306 | handing a request to the server keeps the invariant |
| MultiplexerInv.DropInv | conn.go:1281-1322 | taking an unwritten call back keeps the invariant |
| MultiplexerInv.CallerReleaseInv | conn.go:791-805 | a caller releases only a stream that was not released before |
| MultiplexerInv.LookupInv | conn.go:753-766 | on an open connection the call looked up is the one the response answers |
| MultiplexerInv.DeliverInv | conn.go:781-786 | the response delivered is the one to that caller's own request |
| MultiplexerInv.FreeInv | conn.go:781-805 | after a timeout the receiver releases a stream that was not released before |
| MultiplexerInv.StartCloseInv | conn.go:551-568 | the first close takes the calls to notify and keeps the invariant |
| MultiplexerInv.NotifyInv | conn.go:570-583 | notifying a call keeps the invariant |
| MultiplexerInv.StepInv | conn.go:546-805 | every step of callers, receiver, server and closer keeps the invariant |
| MultiplexerRuns.ResponsesReachTheirCaller | conn.go:689-805 | in every run a caller gets at most one result, and a response only to its own request |
| MultiplexerRuns.StreamKeptWhileOutstanding | conn.go:1239-1414 | while the server may still answer a request its stream stays in use and no other call owns it |
| MultiplexerRuns.StreamsHaveOneOwner | conn.go:753-805 | every stream in use other than 0 has exactly one owning call, every key of the call table is in use, and no stream is released twice |
| MultiplexerRuns.AddCallFailsOnlyWhenClosed | conn.go:1220-1233 | in every run addCall succeeds if and only if the connection is not closed |
| MultiplexerRuns.UnnotifiedCallsAreObliged | conn.go:546-583 | every call the close has yet to notify has its timeout closed or an owner bound to read the result or close the timeout |
| MultiplexerRuns.ObligedCallersProgress | conn.go:1267-1413 | each step of such an owner ends in a closed timeout or comes strictly nearer to its wait |
| MultiplexerClose.CloserOrCallerCanStep | conn.go:570-583 | while no write is stalled, for each call yet to be notified the closer or its owner can move |
| MultiplexerClose.NotifyOne | conn.go:570-583 | while no write is stalled, any one call yet to be notified can be, by steps of the closer and that caller alone |
| MultiplexerClose.CloseFinishesIff | conn.go:546-595 | in every run a close under way can come to its end without the peer reading on if and only if no call left to notify is in a stalled write |
| MultiplexerClose.ReachedStall | conn.go:1050-1075 | in every run only callers in a write are stalled, and only without a deadline, and whoever has not written yet is among the calls a close notifies |
| MultiplexerClose.CloseFinishesWithDeadline | conn.go:1056-1061 | with a write deadline every close of every run can be run to its end |
| MultiplexerClose.CloseFinishesOnceRead | conn.go:546-595 | once the peer reads again every close can be run to its end |
| MultiplexerClose.StalledRun | conn.go:242-245 | a run without a deadline that closes while a registered call is in a stalled write |
| MultiplexerClose.StalledCloseHangs | conn.go:546-595 | after it, whatever the driver does, the socket is never closed |
| MultiplexerReturns.StepReturns | conn.go:1267-1413 | every step keeps: on a live connection whoever has written and not released its stream has an answer on the way or with the receiver |
| MultiplexerReturns.StreamsComeBack | conn.go:1355-1413 | the same over every run |
| MultiplexerReturns.NothingLeaks | conn.go:1355-1413 | in every run, when all calls have returned and all answers have been taken in, no stream but the reserved one is in use |
| MultiplexerReturns.AnsweredGivesBack | conn.go:1357-1377 | in every run a call that returned with its response has given its stream back, also on a closed connection |
| MultiplexerReturns.ComesBackIff | conn.go:1267-1413 | in every run, while the connection lives, a stream that is out can come back without closing it if and only if its caller is not left to close it, having failed to send anything |
| MultiplexerReturns.CloseTakesAll | conn.go:551-568 | in every run the first close of a live connection takes every call still to be told anything, but for one whose answer the receiver holds |
| MultiplexerStreams.ClearsHeldId | conn.go:791-796 | with the lock-free ids underneath, releaseStream clears an id that is held |
| MultiplexerStreams.StepInv | conn.go:791-805 | every step of the joint machine keeps both invariants and the agreement between them |
| MultiplexerStreams.IsMuxRun | conn.go:546-1414 | every run of the joint machine is a run of the multiplexer with atomic streams |
| MultiplexerStreams.NoNegativeStreams | internal/streams/streams.go:153-157 | in every joint run the set bits are the streams in use, every Clear is of a held id and the negative-counter panic is unreachable |
| ConnTable.Conn.constructor | conn.go:256-262 | an empty, open table represents the initial state |
| ConnTable.Conn.AddCall | conn.go:1220-1233 | performs the machine's step; the three results are told apart exactly |
| ConnTable.Conn.TakeCall | conn.go:753-766 | performs the lookup step; the call leaves the table with the receiver |
| ConnTable.Conn.DropCall | conn.go:1288-1319 | performs the step that takes an unwritten call back |
| ConnTable.Conn.BeginClose | conn.go:551-568 | performs the close up to the unlock: the first one with an error takes exactly the calls of the table, one without an error leaves them |
| Ring.SortTokens | token.go:190-205 | a sorted permutation |
| Ring.RingOf | token.go:168-193 | the ring is sorted and holds exactly the tokens of the hosts |
| Ring.NewTokenRing | token.go:168-193 | the nested loops build that ring |
| Ring.OnRing | token.go:168-193 | a token is on the ring if and only if it is one of a listed host, and as often as that host lists it |
| Ring.FirstAtLeast | token.go:229-246 | the first ring position whose token is at least the one asked for |
| Ring.PrimaryIndex | token.go:229-246 | the owner of a token is the first on the ring not below it, or the first of all if there is none |
| DcPlacement.QuotaAndRacks | topology.go:310-376 | in one datacenter: at most rf replicas, over min(replicas, known racks) racks, all of them hosts walked past |
| DcPlacement.ExactCount | topology.go:310-376 | when the known racks are those of the walk, exactly min(rf, hosts walked) replicas |
| DcPlacement.PicksPreferred | topology.go:310-376 | the replicas of a datacenter are the first rf of: the first host met on each rack in walk order, then, if every known rack was met, the others in walk order |
| Placement.WalkOf | topology.go:292-376 | the joint walk restricted to a datacenter is that datacenter's own walk, whatever the interleaving |
| Placement.ReplicasIn | topology.go:310-376 | the replicas of a datacenter in the result are those its own walk picked, in order |
| Placement.StartsWithPrimary | topology.go:310-388 | an entry starts with its token's own host |
| Placement.EntryPromises | topology.go:258-412 | an entry starts with the owner of its token and has, of each datacenter, no more hosts than its factor and as many racks as it can; hosts of datacenters the strategy does not name never come in |
| Placement.EntryFollowsTurn | topology.go:292-391 | which hosts an entry has and in which order: after each host of the turn the front of the entry has, of every datacenter, exactly those preferred hosts of the turn so far |
| Placement.ReplicasWithinTokens | topology.go:310-345 | a host comes in an entry at most as often as it has tokens |
| Placement.QuotaIsFilled | topology.go:310-391 | when every known rack has a token, exactly min(rf, tokens of the datacenter) replicas |
| Placement.OneTokenEntries | topology.go:292-391 | with one token per host: no repeated host and exactly min(rf, hosts) replicas per datacenter, whatever the order of racks |
| Placement.LargeFactorUsesAll | topology.go:310-345 | with a factor as large as the datacenter's tokens every token's host is used |
| Placement.RepeatFreeIffOneToken | topology.go:310-345 | no entry repeats a host for any factors if and only if no host has two tokens |
| Compaction.StepWithout | topology.go:321-324 | walking past a host without replicas changes no replica |
| Compaction.OnlyCountingMatters | topology.go:310-376 | the replicas depend only on the hosts of datacenters with replicas |
| Compaction.SameEntry | topology.go:292-324 | walks from two positions with nothing that counts between them, going round, give the same entry |
| Compaction.LookupPosition | topology.go:51-66 | where the look-up lands, and that nothing that counts lies between the token's position and there |
| Compaction.LookupIsSound | topology.go:51-66 | replicasFor on the compacted map is the walk from the token's own ring position, wrap-around included; nothing is found if and only if nothing counts |
| Compaction.NoOwners | topology.go:292-324 | where no datacenter of the ring has replicas a turn collects nobody |
| PlacementLoop.RestIsIdle | topology.go:310-335 | once every quota is full the rest of the walk changes no replica |
| PlacementLoop.TotalMeansFull | topology.go:287-310 | as many replicas as the factors add up to means every quota is full |
| PlacementLoop.EarlyExit | topology.go:244-310 | both conditions that end the walk early leave the replicas of the whole walk |
| PlacementLoop.CollectRacks | topology.go:267-277 | the racks of every datacenter |
| PlacementLoop.TotalRF | topology.go:287-290 | the sum of the factors |
| PlacementLoop.Drain | topology.go:357-369 | the first skipped hosts, as many as the quota has room for |
| PlacementLoop.Visit | topology.go:318-376 | one host of the walk, in place: counts, racks and skipped hosts become those of the specification |
| PlacementLoop.Reset | topology.go:298-307 | emptying the shared maps leaves no count, rack or skipped host of an earlier turn, although only datacenters with a factor are reset |
| PlacementLoop.WalkToken | topology.go:298-376 | the loop, on maps shared with the turns before it, computes the whole walk's replicas and never overfills a datacenter |
| PlacementLoop.NothingLeftOut | topology.go:393-409 | when all datacenters have replicas the map has an entry for every token |
| PlacementLoop.ComputeReplicaMap | topology.go:258-412 | none of the guards that return an empty map fires, and the result is the specified map |
| SimplePlacement.FirstDifferentIs | topology.go:165-187 | the first min(rf, hosts) different hosts, none twice, the first host first |
| SimplePlacement.FirstNewcomers | topology.go:165-187 | which hosts and in which order: the first rf of those that do not come earlier in the turn |
| SimplePlacement.SimpleEntryPromises | topology.go:165-187 | each SimpleStrategy entry starts with its host, repeats none and has min(rf, hosts) replicas |
| SimplePlacement.FirstHosts | topology.go:169-181 | the loop over one token finds those hosts |
| SimplePlacement.SortEntries | topology.go:184-186 | a sorted permutation, which leaves what is in order as it is |
| SimplePlacement.EntriesSorted | topology.go:165-187 | the entries of a ring in order are in order |
| SimplePlacement.SimpleLookup | topology.go:51-66 | replicasFor on the SimpleStrategy map gives the first rf different hosts from the token's own ring position |
| SimplePlacement.ComputeSimpleEntries | topology.go:165-187 | the loops and the closing sort give a sorted permutation of the specified entries, and on a ring in order exactly those |
| SimplePlacement.SortMovesOnlyTies | topology.go:184-186 | whatever the closing sort does on entries in order, it exchanges only entries of one token, and with different tokens changes nothing |
| StrategyKey.AscendingUnique | topology.go:218-238 | a set of names has one ascending order |
| StrategyKey.OneKey | topology.go:218-238 | a strategy has one key |
| StrategyKey.KeyIdentifies | topology.go:146-238 | equal keys imply equal strategies, whatever characters the datacenter names hold |
| StrategyKey.SortedNames | topology.go:219-223 | the names in ascending order, none left out |
| StrategyKey.BuildNetworkTopologyKey | topology.go:218-238 | the loops build that key |
| HostList.Add | policies.go:69-91 | adds if and only if the address is new; addresses stay different |
| HostList.Remove | policies.go:93-122 | removes exactly the host with the address, and says whether there was one |
| HostList.WithoutOne | policies.go:93-122 | removal takes one host at most and keeps addresses different |
| HostList.WithoutIs | policies.go:93-122 | the other hosts keep their places |
| HostList.AddAllIs | policies.go:625-631 | adding a list keeps the old hosts in front and appends, in order, of each new address the first host |
| ReplicaCache.CachedIsRecomputed | policies.go:574-592 | what is cached under a strategy's key is that strategy's own map: sharing by key is safe |
| ReplicaCache.NextInv | policies.go:539-707 | every change of hosts, partitioner or schema keeps the cache fresh |
| ReplicaCache.CacheNeverStale | policies.go:539-707 | after any sequence of changes every cached map is the one recomputed from the current ring, and under a known partitioner the ring is that of the current hosts |
| ReplicaCache.MapGivesOwners | topology.go:51-66 | for either strategy the look-up on its map gives the hosts of one turn from the token's own position |
| ReplicaCache.LookupFollowsRing | policies.go:539-707 | after any sequence of changes, looking a token up in what is cached for a strategy gives the hosts of one turn from its own position on the ring of the current hosts |
| ReplicaCache.SupportedIff | policies.go:692-707 | the partitioners with a ring are those whose class names end in Murmur3Partitioner, OrderedPartitioner or RandomPartitioner |
| ReplicaCache.RingIsCurrent | policies.go:692-707 | under a known partitioner, after any sequence of changes, the ring has exactly the tokens of the current hosts |
| ReplicaCache.HostsAreCurrent | policies.go:610-659 | after any sequence of changes the policy has exactly the hosts added and not removed since, the first of each address |
| ReplicaCache.HostsInOrder | policies.go:610-659 | new hosts come after the others, which keep their order, and one at most goes at a time |
| ReplicaCache.RingIff | policies.go:594-608 | there is a ring once a known partitioner has been set, and under an unknown one it stays as it was |
| ReplicaCache.AddedHostsOnRing | policies.go:625-644 | adding a list of hosts puts every token of each new one on the ring |
| ReplicaCache.ChangedKeyspaceServed | policies.go:539-564 | with a ring, a changed keyspace is served from the map of its own strategy |
| ReplicaCache.EveryKeyspaceServed | policies.go:566-592 | with a ring, a schema refresh gives every keyspace the map of its own strategy |
| ReplicaCache.TokenAwarePolicy.constructor | policies.go:490-508 | no hosts, no partitioner, no ring, nothing cached |
| ReplicaCache.TokenAwarePolicy.ReplicaMapFor | topology.go:165-412 | the map of either strategy |
| ReplicaCache.TokenAwarePolicy.UpdateAllReplicas | policies.go:577-592 | one fresh map for each strategy key of the schema when there is a ring, and nothing else, whatever the order of keyspaces |
| ReplicaCache.TokenAwarePolicy.ResetTokenRing | policies.go:692-707 | a new ring of the current hosts; an unset or unknown partitioner keeps the old one |
| ReplicaCache.TokenAwarePolicy.SetPartitioner | policies.go:594-608 | is the specified change, and none when the name is the same |
| ReplicaCache.TokenAwarePolicy.AddHost | policies.go:610-623 | is the specified change, and none when the address is known |
| ReplicaCache.TokenAwarePolicy.AddHosts | policies.go:625-644 | is the specified change, for any list of hosts |
| ReplicaCache.TokenAwarePolicy.RemoveHost | policies.go:646-659 | is the specified change, and none when the address is unknown |
| ReplicaCache.TokenAwarePolicy.SchemaRefresh | policies.go:566-572 | is the specified change |
| ReplicaCache.TokenAwarePolicy.UpdateReplicas | policies.go:539-564 | adds the map of a new key and touches no other |
| Crc.Crc24 | crc.go:44-58 | the two nested loops compute the specified checksum |
| Crc.CrcIs24 | crc.go:44-58 | the checksum fits in 24 bits |
| Crc.ShiftInjective | crc.go:50-55 | one shift never merges two 24-bit states, because the polynomial has its low bit set |
| Crc.ShiftsLinear | crc.go:50-55 | shifts are linear |
| Crc.ThreeBytes | crc.go:47-56 | three bytes act as one 24-bit word added before 24 shifts |
| Crc.CrcInjective | crc.go:44-58 | the same bytes after two different states leave them different |
| Crc.BurstDetected | crc.go:44-58 | buffers that differ only within three consecutive bytes never share a checksum |
| Crc.KnownChecksum | crc.go:38-58 | the checksum of an empty header and of a header whose checksum Cassandra computed |
| Segments.CrcRoundTrip | frame.go:2471-2475 | the three checksum bytes read back as the checksum |
| Segments.NewUncompressedSegment | frame.go:2502-2543 | fills the specified segment in place, or fails when the payload is too long |
| Segments.NewCompressedSegment | frame.go:2545-2608 | builds the specified segment, raw when compression does not pay |
| Segments.DecodeConsumes | frame.go:2458-2664 | every segment read takes bytes off the wire |
| Segments.UncompressedRoundTrip | frame.go:2458-2543 | reading an uncompressed segment gives payload and flag back and stops right after it |
| Segments.CompressedHeader | frame.go:2627-2634 | the two lengths and the flag are read back from their bits |
| Segments.CompressedRoundTrip | frame.go:2545-2664 | a compressed segment is read back up to decompression |
| Segments.DecodeEncodes | frame.go:2458-2664 | any legal segment for a payload, however the peer compressed it, decodes to that payload |
| Segments.EncodeEncodes | frame.go:2502-2608 | what the driver writes is such a segment |
| Segments.DamagedHeaderFails | frame.go:2470-2475 | an uncompressed segment whose header was changed in any way is rejected |
| Segments.DamagedCompressedHeaderFails | frame.go:2621-2625 | a compressed segment whose header was changed within three consecutive bytes is rejected |
| Segments.DamagedBodyFails | frame.go:2484-2497 | an uncompressed segment cut short or with another payload checksum is rejected |
| Segments.DamagedCompressedBodyFails | frame.go:2635-2648 | the same for a compressed one |
| Segments.BadCompressionFails | frame.go:2650-2658 | what does not decompress, or not to the stated length, is rejected |
| Segments.SealBytes | frame.go:2526-2541 | header, three bytes of CRC24 and payload, then four bytes of CRC-32 over the four start bytes and the payload, both least significant first |
| Segments.UncompressedHeaderBytes | frame.go:2516-2525 | 17 bits of length and the flag above them, least significant byte first |
| Segments.CompressedHeaderBytes | frame.go:2573-2586 | two lengths of 17 bits and the flag above them, least significant byte first |
| Segments.UncompressedRead | frame.go:2458-2500 | what comes of any bytes: accepted if and only if both checksums hold, with length and flag at their bits and the bits above ignored |
| Segments.CompressedRead | frame.go:2610-2664 | the same with a compressor |
| Segments.SegmentLength | frame.go:2502-2572 | a payload fails if and only if it is over 131071 bytes or the compressor fails, and takes the shorter of its forms |
| Framing.TakeFrameOf | conn.go:689-789 | a complete frame is read whole whatever follows it, and so is one for a response whose length is impossible |
| Framing.FramesInJoin | conn.go:897-904 | blocks joined in one payload are read one by one, each going to the call that waits for it, and an impossible length ends nothing |
| Framing.BrokenOffBody | conn.go:767-789 | when a response's body breaks off the frames before it are delivered, and the connection lives on if and only if a call still waits for it, which gets the error |
| Framing.UnreadableEnds | conn.go:689-750 | too few bytes, an unknown version, a stream for neither response nor event, or an event without its whole body end the connection after all frames before them |
| Framing.GatherPieces | conn.go:862-895 | pieces of a frame are gathered up to its length and not further |
| Framing.SplitRebuilt | conn.go:807-857 | a frame split over segments is rebuilt |
| Framing.RecvRebuilds | conn.go:807-904 | for every legal packing the receiver delivers exactly its frames in order, each to the call that waits for it, and stands at the next segment |
| Framing.StreamRebuilt | conn.go:807-904 | for every sequence of packings every frame comes out in order: events to the session, the first frame of a waiting call's stream to that call as its response, or as an error if its length is impossible, other responses to nobody; the unanswered calls still wait |
| Framing.FirstAnswers | conn.go:721-786 | where each frame of a list goes, with response, error, event and dropped response told apart |
| Framing.SenderIsLegal | frame.go:2407-2451 | the driver's own layout is one of the legal packings |
| Framing.SentIsReceived | frame.go:2407-2451 | a frame laid out by the driver is the frame received, compressed or not, by the session, the waiting call or nobody |
| Framing.LayoutIs | frame.go:2407-2451 | a frame that fits is one self-contained segment, a longer one full segments of 131071 bytes and a last one with the rest |
| Framing.InterruptedFails | conn.go:862-895 | a frame of several segments is given up when a self-contained segment or too many bytes come |
| Framing.HeaderRead | frame.go:418-448 | the header fields at their bytes, and exactly which headers make an acceptable frame |
| Framing.NewSegment | frame.go:2424-2440 | the segment by whether there is a compressor |
| Framing.PrepareModernLayout | frame.go:2407-2451 | the loop writes that layout, or fails exactly when a segment does |
| Framing.Finish | frame.go:812-843 | the body length goes into bytes 5 to 8 and nothing else changes, unless the frame is too big |
| Framing.Receiver.ReadSegment | conn.go:821-826 | reads one segment and leaves the rest |
| Framing.Receiver.ProcessFrame | conn.go:689-789 | takes the call out of the table before the body is read, and delivers what the specification says: the frame, or an error to the caller |
| Framing.Receiver.ProcessAllFramesInSegment | conn.go:897-904 | delivers exactly the specified frames and errors, and stops exactly where the specification does |
| Framing.Receiver.RecvPartialFrames | conn.go:862-895 | the loop gathers exactly the specified bytes |
| Framing.Receiver.RecvSegment | conn.go:807-857 | delivers exactly the specified frames and leaves the specified rest |
| Debouncer.EnterInv | host_source.go:984-1009 | the flusher's critical section keeps the invariant |
| Debouncer.SendInv | host_source.go:1061-1064 | an error goes only to a listener that has none and is open |
| Debouncer.CloseInv | host_source.go:1061-1064 | only an open listener is closed |
| Debouncer.RegisterInv | host_source.go:962-974 | registering a listener keeps the invariant: a new broadcaster comes with a wakeup |
| Debouncer.StepInv | host_source.go:952-1028 | every step keeps the invariant |
| DebouncerRuns.AnsweredAtMostOnce | host_source.go:1043-1077 | in every run a listener gets at most one error and one close, the error from a refresh that began after it registered |
| DebouncerRuns.ClosedIffRegisteredInTime | host_source.go:962-994 | once the flusher has exited exactly the listeners registered before its final critical section are closed |
| DebouncerRuns.LateRun | host_source.go:962-994 | a run in which a listener registers after the flusher's last critical section |
| DebouncerRuns.LateListenerWaitsForever | host_source.go:962-994 | whatever happens after it, that listener gets neither an error nor a close |
| DebouncerRuns.FlusherCanMove | host_source.go:976-1016 | an open listener never leaves the flusher without a step: no wakeup is lost |
| DebouncerRuns.MoveCloser | host_source.go:976-1016 | every flusher step brings an open listener nearer to its close |
| DebouncerRuns.OthersKeepDistance | host_source.go:952-1028 | no other goroutine sets it back |
| DebouncerRuns.AnsweredWithin | host_source.go:962-1016 | in every run a listener registered in time is closed after a known number of flusher steps |
| DebouncerRuns.DebounceNotLost | host_source.go:952-1009 | in one step a request stays, a refresh begins for it, or the flusher has exited |
| DebouncerRuns.DebouncedUntilRefresh | host_source.go:952-1009 | in every run a request made before stop waits until a refresh begins after it or the flusher has exited |
| DebouncerRuns.FiredCanMove | host_source.go:976-1016 | once the timer has fired the flusher always has a step |
| DebouncerRuns.RefreshWithin | host_source.go:976-1016 | in every run a refresh begins, or the flusher exits, within a known number of flusher steps |
| DebouncerRuns.OneRefreshForAll | host_source.go:961-1009 | taking the requests clears both wakeups, and no further refresh comes until someone asks again |
| DebouncerRuns.OneRefreshPerAsking | host_source.go:961-1009 | in every run at most one refresh begins for all the requests taken, until somebody asks again |
| DebouncerRuns.WakeupsAreAskedFor | host_source.go:952-1009 | in every run the timer fires at most once per debounce, and every wakeup has its own tick or call of refreshNow |
| DebouncerRuns.StopEndsRefreshes | host_source.go:984-1009 | in every run no refresh begins after stop, but for the one already taken up |
| DebouncerRuns.StoppedCanMove | host_source.go:976-1028 | a stopped flusher always has a step |
| DebouncerRuns.StopReturns | host_source.go:1018-1028 | after quit is closed the flusher exits within a known number of its steps |
| DebouncerObjects.ErrorBroadcaster.NewListener | host_source.go:1043-1049 | a fresh open channel is added |
| DebouncerObjects.ErrorBroadcaster.Broadcast | host_source.go:1051-1065 | every listener gets the error and is closed; no send blocks and none is closed twice |
| DebouncerObjects.ErrorBroadcaster.Stop | host_source.go:1067-1077 | every listener is closed without an error |
| DebouncerObjects.RefreshDebouncer.constructor | host_source.go:935-950 | nothing requested, nothing armed |
| DebouncerObjects.RefreshDebouncer.Debounce | host_source.go:952-959 | performs the machine's step |
| DebouncerObjects.RefreshDebouncer.RefreshNow | host_source.go:962-974 | performs the machine's step; the listener is registered |
| DebouncerObjects.RefreshDebouncer.Collect | host_source.go:984-1009 | performs the machine's step; every waiting listener is taken |
| DebouncerObjects.RefreshDebouncer.Stop | host_source.go:1018-1025 | performs the machine's step; one caller goes on to close quit |
| ConnPool.SwapRemoveIs | connectionpool.go:636-640 | swap-removal takes away exactly one occurrence of the connection |
| ConnPoolInv.UpgradeInv | connectionpool.go:439-457 | the second look under the write lock lets only one filler through |
| ConnPoolInv.WorkerInv | connectionpool.go:564-614 | every step of a connect keeps the invariant |
| ConnPoolInv.HandleErrorInv | connectionpool.go:617-647 | removing a broken connection keeps the invariant |
| ConnPoolInv.CloseNextInv | connectionpool.go:413-416 | closing what Close took keeps the invariant |
| ConnPoolInv.StepInv | connectionpool.go:389-647 | every step keeps the invariant |
| ConnPoolInv.OneFiller | connectionpool.go:420-461 | in every run at most one filler is at work, and then the flag is set |
| ConnPoolInv.NeverOverfull | connectionpool.go:420-490 | pooled connections plus those the filler has still to make never exceed the size |
| ConnPoolInv.NoConnectionLost | connectionpool.go:564-614 | every open connection is pooled, held by a running connect or about to be closed by Close |
| ConnPoolInv.PooledOnce | connectionpool.go:600-612 | no connection is pooled twice |
| ConnPoolInv.ReportedIsGone | connectionpool.go:617-647 | a reported connection is out of the pool and the others stay |
| ConnPoolInv.ClosedPoolIsEmpty | connectionpool.go:389-417 | after Close, with no connect running, nothing is left open |
| ConnPoolRuns.OwnStepNearer | connectionpool.go:464-525 | every step of a fill and of its connects brings it nearer to clearing the flag |
| ConnPoolRuns.OthersLeaveFill | connectionpool.go:389-647 | nobody else sets it back |
| ConnPoolRuns.FillCanStep | connectionpool.go:464-525 | while the lock can be had a fill under way has a step to take |
| ConnPoolRuns.FillEnds | connectionpool.go:420-525 | in every run that keeps the lock a fill under way has cleared the flag after a known number of its own steps |
| ConnPoolRuns.FillCanEndIff | connectionpool.go:600-609 | a fill under way can end if and only if no connect keeps the lock for good |
| ConnPoolRuns.LockKept | connectionpool.go:600-609 | the lock is lost only in a closed pool and only to a connect that could not close its socket |
| ConnPoolRuns.LockLostRun | connectionpool.go:600-625 | a run in which it is lost and the fill can never end |
| ConnPoolRuns.FillReachesSize | connectionpool.go:441-525 | a fill that no failed connect, error or close disturbs has made exactly the connections the pool lacked once it and its connects have taken their steps |
| ConnPoolRuns.FillAttempts | connectionpool.go:441-525 | however a fill runs to its end, it connects once if the pool was empty and that connect fails, and otherwise as often as the pool lacked connections |
| ConnPoolRuns.DeadLeavesIff | connectionpool.go:617-647 | a dead connection of an open pool can leave it if and only if its one report is still to be handled |
| ConnPoolRuns.ForgottenForGood | connectionpool.go:617-647 | without one it stays until the pool is closed, in every run |
| ConnPoolRuns.ForgottenRun | connectionpool.go:600-647 | a run in which a connection is reported before it is added, and stays |
| HostConnPool.Pool.constructor | connectionpool.go:323-340 | an empty open pool |
| HostConnPool.Pool.MayFill | connectionpool.go:420-437 | goes on if and only if the pool is open, not filling and short of connections |
| HostConnPool.Pool.StartFilling | connectionpool.go:439-457 | performs the machine's step |
| HostConnPool.Pool.FillingStopped | connectionpool.go:516-521 | performs the machine's step |
| HostConnPool.Pool.Add | connectionpool.go:602-613 | performs the machine's step; in a closed pool the connection is to be closed |
| HostConnPool.Pool.HandleError | connectionpool.go:617-647 | performs the machine's step; a refill is asked for if and only if the connection was pooled |
| HostConnPool.Pool.Close | connectionpool.go:389-411 | performs the machine's step; every pooled connection is to be closed, once |
| Vint.BitLenHolds | vector.go:247-250 | the bit count is the least that holds the value |
| Vint.UnsignedRoundTrip | vector.go:210-245 | for every 64-bit value decoding inverts encoding whatever bytes follow |
| Vint.UnsignedLength | vector.go:247-250 | the length is the bit count over seven rounded up, at least 1 and at most 9 |
| Vint.SixtyFourBits | vector.go:247-250 | the length is the bit count over seven rounded up if and only if the value is below 2^63 |
| Vint.DecodedFits | vector.go:227-245 | no input overflows 64 bits |
| Vint.PutBytes | vector.go:217-222 | the loop fills in the big-endian bytes |
| Vint.WriteUnsignedVInt | vector.go:210-225 | the loop writes the specified encoding |
| Vint.ReadUnsignedVInt | vector.go:227-245 | the loop reads the specified value and position, and fails on exactly the same data |
| Vint.ZigZagMeaning | marshal.go:1723-1729 | 0, -1, 1, -2, 2 become 0, 1, 2, 3, 4 and so on, and decoding inverts it |
| Vint.VintRoundTrip | marshal.go:1703-1753 | for every int64 decoding inverts encoding whatever bytes follow |
| Vint.DurationRoundTrip | marshal.go:1687-1734 | the three vints of a duration decode back to the same triple |
| Vint.EncVint | marshal.go:1736-1753 | computes the specified encoding |
| Vint.DecVint | marshal.go:1703-1721 | computes the specified value and position |
| Vint.EncVints | marshal.go:1731-1734 | computes the specified encoding |
| Vint.DecVints | marshal.go:1687-1701 | computes the specified duration |
| BigInt.TwosCompFits | marshal.go:1318-1327 | n bytes hold exactly the n-byte range, and the top bit is the sign |
| BigInt.RedundantIff | marshal.go:782-803 | a leading byte can go if and only if the value fits without it |
| BigInt.ShortestUnique | marshal.go:1331-1353 | every integer has one shortest form |
| BigInt.TrimIsShortest | marshal.go:780-804 | trimming keeps the value of any non-empty byte string and leaves its shortest form |
| BigInt.NoShorterForm | marshal.go:780-804 | no other byte string for the value is shorter |
| BigInt.TrimBytes | marshal.go:780-804 | the loop computes that trimming |
| BigInt.LongEnough | marshal.go:1341-1350 | the length chosen for a negative number holds it and is at most one byte too long |
| BigInt.BigIntRoundTrip | marshal.go:1318-1353 | for every integer of any size decBigInt2C inverts encBigInt2C, and the encoding is the shortest |
| BigInt.Uint64Value | marshal.go:765-772 | the uint64 route writes the value, with a zero byte in front from 2^63 on |
| BigInt.Int64Value | marshal.go:708-711 | the eight bytes of an int64 are its two's complement |
| BigInt.RoutesAgree | marshal.go:757-808 | uint64, int64 and big.Int write the same bytes for the same number |
| BigInt.GatherBytes | marshal.go:713-718 | shifting bytes to their places gathers the big-endian number |
| BigInt.UnmarshalInt64 | marshal.go:829-837 | succeeds if and only if there are at most eight bytes, with the two's complement value |
| Cells.Int4RoundTrip | marshal.go:1863-1937 | a length or -1 is read back |
| Cells.FixedRoundTrip | marshal.go:590-631 | two's complement of a fixed width is read back over its whole range |
| Cells.CellsRoundTrip | marshal.go:2585-2593 | cells are read back with their nulls, whatever follows |
| Cells.MissingCells | marshal.go:2585-2632 | missing cells are null in a tuple, null in a user type only if nothing is left over, and an error in a collection |
| Cells.BrokenOffCell | marshal.go:2585-2593 | a cell that breaks off is an error everywhere |
| Cells.NegativeLength | marshal.go:2585-2593 | any negative length stands for null |
| Cells.VectorRoundTrip | vector.go:161-184 | a vector splits into its elements, by their lengths or evenly |
| Cells.HugeLength | vector.go:165-184 | a vector element whose length no int can hold takes nothing after it and is null |
| Cells.BrokenOffElement | vector.go:176-184 | a vector element that breaks off is an error |
| Cql.ScalarRoundTrip | marshal.go:590-631 | every scalar kind decodes to the value encoded |
| CqlRoundTrip.FixedIffNested | vector.go:196-208 | the types without lengths in a vector are exactly the eight fixed kinds inside any number of vectors |
| CqlRoundTrip.FixedSizeOf | vector.go:196-208 | such a type takes the bytes of its kind times all the dimensions |
| CqlRoundTrip.FixedLength | vector.go:196-208 | every value of a type that is not variable has one length |
| CqlRoundTrip.CollectDistinct | marshal.go:2150-2192 | setting distinct keys one by one builds the map read |
| CqlRoundTrip.CollectAll | marshal.go:2150-2192 | a map that keeps as many entries as were read had distinct keys |
| CqlRoundTrip.LastWins | marshal.go:2150-2192 | of a key read again the last value is kept |
| CqlRoundTrip.RoundTripIff | marshal.go:1863-2699 | for every type tree of lists, sets, maps, tuples, user types and vectors and every value: decoding the encoding gives the value, nulls kept, if and only if map keys differ, vectors have elements and no nulls, and tuples and user types without fields stand where their container writes them all the same |
| CqlRoundTrip.ListIff | marshal.go:1877-2003 | the same for lists and sets |
| CqlRoundTrip.MapIff | marshal.go:2061-2193 | the same for maps |
| CqlRoundTrip.TupleIff | marshal.go:2495-2632 | the same for tuples |
| CqlRoundTrip.UdtIff | marshal.go:2857-2875 | the same for user types |
| CqlRoundTrip.VectorIff | vector.go:86-191 | the same for vectors |
| CqlRoundTrip.PresentIff | marshal.go:2495-2520 | the same for a value whose container writes it even without bytes |
| CqlRoundTrip.FieldlessTuple | marshal.go:2495-2520 | a tuple without fields is encoded as null, but comes back as itself inside a tuple |
| CqlRoundTrip.LongFieldIff | marshal.go:2585-2593 | a tuple of one blob comes back if and only if the blob is no longer than an int32 can state |
| CqlRoundTrip.NullElementRead | vector.go:161-184 | a vector element whose length no int can hold reads as null |
| CqlTypes.TakenIff | marshal.go:196-2920 | for every type tree and every value: marshalling fails if and only if the value is not of the type, a number is out of its range or a length in a collection cannot be written |
| CqlBytes.LengthBytes | marshal.go:1863-1875 | a length is four bytes, most significant first, and null four bytes 255 |
| CqlBytes.VintBytes | vector.go:210-225 | the first byte of a vint has as many leading ones as bytes follow, and the rest is the value, most significant first |
| CqlBytes.VintReads | vector.go:227-245 | and so it is read, whatever the bytes are |
| CqlBytes.DurationBytes | marshal.go:1731-1734 | months, days and nanoseconds, in this order |
| CqlBytes.ScalarBytes | marshal.go:196-2345 | the bytes of every scalar kind, with sizes and ranges written out |
| CqlBytes.ScalarAccepts | marshal.go:223-2345 | which bytes every scalar kind accepts and what it reads from them, no bytes at all included |
| CqlBytes.ListBytes | marshal.go:1877-1928 | the number of elements, then each after its length |
| CqlBytes.MapBytes | marshal.go:2061-2117 | the number of entries, then each key and value after their lengths |
| CqlBytes.TupleBytes | marshal.go:2495-2520 | each field after its length, null only if it is |
| CqlBytes.UdtBytes | marshal.go:2857-2875 | each field after its length, null if it has no bytes |
| CqlBytes.VectorBytes | vector.go:86-121 | the elements one after the other, each after its length as a vint unless its type has one size |
| CqlBytes.ScalarVectorBytes | vector.go:86-208 | n booleans take n bytes, ints and floats 4n, bigints, timestamps and doubles 8n, uuids 16n; the elements of every other kind carry their lengths |
| CqlBytes.MissingInTuple | marshal.go:2599-2632 | fields missing at the end of a tuple are null |
| CqlBytes.MissingInUdt | marshal.go:3019-3047 | fields missing at the end of a user type are null, unless a few bytes are left over |
| CqlBytes.MissingElements | marshal.go:1939-2003 | a list, set or map with fewer elements than it says is an error |
| CqlBytes.NoCount | marshal.go:1930-2003 | so is one without a number of elements or with a negative one |
| CqlMarshal.MarshalListSet | marshal.go:1877-1928 | the loop writes the specified bytes, or fails when a length does not fit |
| CqlMarshal.MarshalMap | marshal.go:2061-2117 | the same for maps |
| CqlMarshal.MarshalFields | marshal.go:2495-2520 | the same for tuples and user types |
| CqlMarshal.MarshalVector | vector.go:86-121 | the same for vectors |
| CqlMarshal.Marshal | marshal.go:1863-2920 | marshals any value of any type tree as specified |
| CqlUnmarshal.UnmarshalList | marshal.go:1939-2003 | the loop reads the specified values, or fails on exactly the same data |
| CqlUnmarshal.UnmarshalMap | marshal.go:2119-2193 | the same for maps, a key seen again getting the new value |
| CqlUnmarshal.UnmarshalFields | marshal.go:2599-2632 | the same for tuples and user types, with their different ways to end early |
| CqlUnmarshal.UnmarshalVector | vector.go:124-191 | the same for vectors |
| CqlUnmarshal.Unmarshal | marshal.go:1939-3047 | unmarshals any type tree as specified |
| HostIterators.LayerOnce | policies.go:896-915 | every up host of a layer comes as often as it is listed there, and no other host |
| HostIterators.RoundRobinOnce | policies.go:887-918 | the same over all layers |
| HostIterators.RoundRobin.constructor | policies.go:887-890 | all of the order is still to come |
| HostIterators.RoundRobin.ScanLayer | policies.go:899-915 | the next up host of the layer, or on to the next layer |
| HostIterators.RoundRobin.Next | policies.go:892-917 | hands out the order host by host, then ends for good |
| TokenAwareIterator.LocalFirst | policies.go:770-793 | the up local replicas come first, in order |
| TokenAwareIterator.NoHostTwiceIff | policies.go:768-826 | no host comes twice if and only if no replica that is tried, up and of a tier the loop gets to, is listed twice |
| TokenAwareIterator.TriedCount | policies.go:768-808 | before the fallback a host comes as often as it is listed if it is tried, and not at all otherwise |
| TokenAwareIterator.ReplicaOfferedTwice | policies.go:770-793 | an input where a replica comes twice |
| TokenAwareIterator.MissesNoHost | policies.go:810-824 | no host of the fallback is missed |
| TokenAwareIterator.FreshInOrder | policies.go:810-824 | the fallback's hosts come in the fallback's own order, without those used or listed earlier |
| TokenAwareIterator.RemoteCompleteIff | policies.go:795-808 | all up remote replicas come before the fallback if and only if no empty tier lies before a tier with an up replica |
| TokenAwareIterator.ReplicasBeforeFallback | policies.go:438-448 | without such a gap every up replica comes before the fallback's hosts |
| TokenAwareIterator.EmptyTierHidesReplica | policies.go:796-796 | an input where a remote replica is not tried before the fallback |
| TokenAwarePick.Iterator.constructor | policies.go:744-768 | all of the order is still to come |
| TokenAwarePick.Iterator.NextLocal | policies.go:769-793 | the next up local replica; the remote ones are put by tier |
| TokenAwarePick.Iterator.NextRemote | policies.go:795-808 | the next remote replica as the loop visits them |
| TokenAwarePick.Iterator.NextFallback | policies.go:812-823 | the next host of the fallback not used yet |
| TokenAwarePick.Iterator.Next | policies.go:768-826 | hands out the specified order host by host, then ends for good |
| Coalescer.ReportedIsWritten | conn.go:1178-1215 | the byte counts reported add up to the bytes written |
| Coalescer.WrittenIsPrefix | conn.go:1199-1214 | fully written non-empty buffers form a prefix |
| Coalescer.AllWritten | conn.go:1199-1206 | when everything was written nobody is told of an error |
| Coalescer.StepInv | conn.go:1139-1176 | every event keeps the invariant |
| Coalescer.AnsweredExactlyOnce | conn.go:1104-1176 | in every run a request is answered exactly once, by flush or quit, unless it still waits |
| Coalescer.TimerIffPending | conn.go:1139-1176 | in every run the timer is set if and only if requests wait |
| Coalescer.WrittenInOrder | conn.go:1139-1176 | in every run the requests that wait are written in the order they came |
| Coalescer.OneExpiryPerFlush | conn.go:1139-1176 | in every run the timer expires once for each flush, so later requests do not put a flush off |
| Coalescer.FlushTellsEach | conn.go:1178-1215 | a flush tells each waiting caller its own share |
| Coalescer.FailureTellsEach | conn.go:1155-1191 | without a deadline everyone gets the error and no bytes; on quit everyone is stopped |
| WriteFlusher.Flusher.constructor | conn.go:1139-1144 | nothing waits |
| WriteFlusher.Flusher.OnRequest | conn.go:1147-1154 | performs the machine's step; the first request starts the timer |
| WriteFlusher.Flusher.OnQuit | conn.go:1155-1165 | everyone waiting is told once |
| WriteFlusher.Flusher.OnTimer | conn.go:1166-1173 | everyone waiting is told once and nothing waits any more |
| WriteFlusher.Flusher.Flush | conn.go:1178-1215 | the running byte count gives every buffer exactly its share of the bytes written |

## Left out

- Sockets, TLS, dialling, DNS, contexts beyond a done flag, and real time: I/O and library code without a property of their own.
- Authentication and start-up: the connection is modelled from its set-up state.
- Schema queries, row scanning and metadata: long but shallow, and tied to server tables.
- Go's reflection, pointers and interfaces in Marshal and Unmarshal: replaced by a typed value. Null is a nil interface or pointer; a nil slice inside a tuple, and nulls lost when a user type is read into a map of plain values, are not modelled.
- Floats and timestamps beyond their bits, the zero time, date, time, inet and counter values: they add only easy members.
- Murmur3, MD5 and token parsing: tokens are integers, and the hash of a routing key is any integer. Hosts with equal tokens keep their order in the ring, where Go's sort may swap them.
- LZ4, Snappy and CRC-32: any pair with the inverse law, and any function into 32 bits.
- Logging, observers, tracing, host pools, and shuffling and back-off.
- Framing: no call is registered while one segment is processed, and a split frame whose first segment is longer than the frame fails at once, where the source first reads on.
- CqlRoundTrip.RoundTripIff: asks that the whole encoding is at most 2^31-1 bytes, the greatest length a cell can state; beyond that lengths wrap, and whether a value survives depends on the wrapped lengths (`LongFieldIff` is the simplest case).
- ConnPool: the retries of a connect are part of one dial, and at least one attempt is made.
- The policy before it knows the session: without it no replica maps are computed.
- Go's int32 counter of streams in use is an integer; 32768 streams do not come near its width.
