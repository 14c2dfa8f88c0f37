# Verified model of the swactor runtime and data plane

This project models, in Dafny, the parts of swactor whose correctness rests on more than one
function at a time, and proves what holds over all their inputs, runs and interleavings.
`dafny verify dfyconfig.toml` checks everything.

| files | what they model |
|---|---|
| `RingProtocol`, `RingProgress`, `Framing`, `RingRecords`, `ByteRing`, `CursorRaces` | the shared-memory byte ring: interleaved single accesses of producer and consumer, what they come to, record framing, the endpoint operations on an array, and what they touch when the peer rewrites its cursor |
| `Alignment`, `Placement`, `Ranges`, `Arena`, `ArenaAnswers`, `ArenaManager` | the first-fit arena: alignment, free ranges, the request state machine, what it answers over a run, and the manager that updates its lists in place |
| `EdgeLifecycle`, `EdgeLaws`, `EdgeRuns`, `EdgeRings`, `EdgeGrowth`, `EdgeEstablisher` | the edge establisher: its state machine, what each event calls for, what that comes to over runs, the fate of every ring it is given, and the object that updates records in place |
| `EdgeArena`, `EdgeQueue`, `EdgeNeeds` | establisher and arena together, with commands executed at any pace and answers delivered in any order |
| `EdgeRuntime` | the loop that executes commands and drains announcements until neither is left |
| `MissedGrant` | a run of edges and arena in which a granted ring reaches no edge |
| `ActorSlot`, `ActorTurns` | one actor's slot, its whole life, and its turn in the pool |
| `Queues`, `Routing`, `Commands`, `Callbacks` | the loops over retained and queued entries, what becomes of envelopes and commands, and what callbacks do |
| `Passes`, `Scripts`, `Conservation`, `Orders`, `Worker` | one worker's pass: its phases on values, what callbacks and extensions do in it, what goes in and comes out, what becomes of an operator's commands, and the object that updates pool and queues in place |
| `Delivery`, `WorkerDelivery` | message delivery across all workers, and one worker's phases as runs of it |
| `Inbox`, `Census`, `NamespaceStore`, `WatchRegistry` | the awaitable inbox, the actor census, the durable namespace, and the watch registry |
| `Options`, `Arithmetic` | shared helpers |

A part that updates fields in place is a class. Its methods are proved against functions on values,
and the properties over whole runs are proved about those functions. Parts that several threads
share are state machines whose steps are single shared accesses, or single calls where a lock is
held. What callbacks, extensions, ports and file operations do is an arbitrary input of the methods
concerned, and arrivals from other threads are arbitrary at every point. P1 to P10 are the properties listed in the header of `byte_ring.rs`
(lines 27-47).

Results that differ from what one would expect of the code:

- `send_record` does not test the payload length against the 32-bit prefix: `UncheckedLengthSurvivesIff`.
- The checked least common multiple can overflow and turn away a request that fits: `LayoutIsComplete`, `OverflowTurnsAway`.
- With the ring ids used up, an allocation takes its range out of the free list and then fails: `ExhaustedIdsLoseTheRange`, `ExhaustedIdsLoseAnArena`.
- P5 does not hold of the raw calls: every operation tests one pair of loaded cursors and uses another, so a peer that moves its cursor in between can make `read`, and `reserve` with `write` where overflow wraps, leave the data region. `ReadBoundedIff`, `ReserveBoundedIff` and `RecordReadBoundedIff` say exactly when; a length up to the capacity is always safe.
- `persist` creates the directory of the state file but never syncs the entry for it, so a first commit can be lost after it reported success and an epoch returned twice: `SuccessIsDurableIff`, `EpochsStrictlyIncreaseIff`, `LostDirectoryRepeatsTheEpoch`.
- A watch placed between the announcement of a death and the clean-up stays behind: `DeadAreForgottenIff`, `LateWatchKeepsTheDead`.
- The edge runtime ignores the arena's answer to a release, so a lease granted from the queue reaches no edge: `OnlyDirectGrantsAreTold`, `QueuedGrantIsMissed`; a run from the start that comes to it is `SecondEdgeIsNotTold`.
- A panic of `on_stop` does not make an actor's removal a panic: `RemovalMatchesHistory`, `StopPanicIsSwallowed`.
- Without an ingress budget, the loops over retained envelopes and retained commands may not end: `UnbudgetedDrainEndsIff`, `UnbudgetedAdminEndsIff`.
- A pass does not always keep the order of the messages retained for one actor: `RetainedAreReordered` is an input, and `OrderKeptIff` says exactly when.
- With a budget, one retained envelope that cannot be settled keeps the whole transfer queue waiting for that pass: `Worker.DrainTransfers`.

## Model

| member | source | states |
|---|---|---|
| `RingProtocol.ExactlyOnceInOrder` | crates/data-plane/src/byte_ring.rs:772-997 | for every schedule of producer and consumer, one cursor load, cursor store or data byte per step, with cursors going stale between loads: what was released is exactly the beginning of what was published, byte for byte, and no cursor test fails (P1) |
| `RingProtocol.PairsLoadedApartPass` | crates/data-plane/src/byte_ring.rs:772-785 | under every schedule, the two cursors a role endpoint loads one after the other pass the test when they are judged, and again when an operation loads them anew |
| `RingProtocol.StreamsOnlyGrow` | crates/data-plane/src/byte_ring.rs:936-997 | a published or released byte is never taken back or delivered again, whatever schedule follows |
| `RingProtocol.UnreadNeverOverwritten` | crates/data-plane/src/byte_ring.rs:808-822 | after any schedule the next byte the producer copies leaves every published, unreleased byte in place, across any number of wraparounds (P2) |
| `RingProtocol.RunKeepsInv` | crates/data-plane/src/byte_ring.rs:772-997 | every schedule keeps the cursors within one capacity, the unread window intact, and what either side has loaded or half copied consistent with the streams |
| `RingProgress.ReleasedIsHandedOver` | crates/data-plane/src/byte_ring.rs:788-997 | from every reachable state in which the consumer is idle and so many bytes are unread: whatever the producer does in between, reading them and releasing a part adds exactly that part to what was handed over and moves the cursor past it |
| `RingProgress.WrittenIsPublished` | crates/data-plane/src/byte_ring.rs:788-960 | from every reachable state in which the producer is idle and the bytes fit: whatever the consumer does in between, reserving, writing and publishing them adds exactly them to the stream |
| `RingProgress.ReadRefusedIff` | crates/data-plane/src/byte_ring.rs:970-982 | a read is refused if and only if it asks for more than is unread, and changes nothing else |
| `RingProgress.ReserveRefusedIff` | crates/data-plane/src/byte_ring.rs:894-912 | a reservation is refused if and only if the bytes do not fit into what is free, and changes nothing else |
| `RingProgress.CorruptIff` | crates/data-plane/src/byte_ring.rs:772-785 | in any state at all, sound or not, a ring is found corrupt exactly by a load that shows cursors no ring can stand with, or by the end of a write that no longer starts at the commit cursor |
| `RingProgress.TestFindsIff` | crates/data-plane/src/byte_ring.rs:772-785 | a test judges the pair as it was loaded, whatever the other side does in between |
| `RingProgress.GivenUpLeavesTheStreams` | crates/data-plane/src/byte_ring.rs:894-997 | a write or a read given up at any point leaves both streams, both cursors and the other side as they were, and the handle idle |
| `RingRecords.RecordsSurviveEverySchedule` | crates/data-plane/src/byte_ring.rs:1002-1231 | under every schedule, if a run of records is published in any pieces, the consumer parses out of what it released a prefix of those records, none torn, and every record that lies wholly in it |
| `Bytes.Le32RoundTrip` | crates/data-plane/src/byte_ring.rs:1030-1073 | the four length bytes read back as the length modulo 2^32 |
| `Framing.KindFromByte` | crates/data-plane/src/byte_ring.rs:280-297 | a byte names a kind if and only if it is that kind's own byte |
| `Framing.ParseEncoded` | crates/data-plane/src/byte_ring.rs:1030-1073 | an encoded record followed by anything parses to its own kind, length and payload, and leaves exactly what followed |
| `Framing.WireFormat` | crates/data-plane/src/byte_ring.rs:280-297 | the bytes on the wire: kinds 1, 2 and 3, the length with its lowest byte first, then the payload |
| `Framing.ParseIsFinal` | crates/data-plane/src/byte_ring.rs:1050-1073 | what is said of the readable bytes, unless it is to wait, holds whatever bytes follow |
| `Framing.WaitsIff` | crates/data-plane/src/byte_ring.rs:1050-1073 | behind a whole prefix the reader waits if and only if some further bytes that the ring can hold complete the record |
| `Framing.TornIsInvisible` | crates/data-plane/src/byte_ring.rs:1050-1073 | a record cut short anywhere parses to nothing at all (P9) |
| `Framing.RecordsRoundTrip` | crates/data-plane/src/byte_ring.rs:1030-1073 | parsing the encoding of any list of records gives the list back |
| `Framing.AnyCutYieldsWholeRecords` | crates/data-plane/src/byte_ring.rs:1050-1073 | a stream cut anywhere parses to exactly the records that end before the cut |
| `Framing.UncheckedLengthSurvivesIff` | crates/data-plane/src/byte_ring.rs:1030-1045 | without the length test that `reserve_record` makes, a record survives if and only if its payload is shorter than 2^32 bytes |
| `Framing.OversizedPayloadIsLost` | crates/data-plane/src/byte_ring.rs:1030-1045 | a payload of 2^32 bytes is received as an empty record, and nothing behind it can be parsed |
| `Wrapping.OverwriteMisses` | crates/data-plane/src/byte_ring.rs:808-822 | a wrapped copy leaves alone every stream position within one capacity of its end |
| `Wrapping.SpansAreWindow` | crates/data-plane/src/byte_ring.rs:824-852 | the two pieces of a wrapped range, in order, are the bytes at its stream positions |
| `ByteRing.Ring.Install` | crates/data-plane/src/byte_ring.rs:471-521 | a new ring has a sound header, empty streams and equal cursors |
| `ByteRing.Ring.NextUnread` | crates/data-plane/src/byte_ring.rs:1050-1073 | on a framed ring the unread bytes start with exactly the next record sent, or are none |
| `ByteRing.ValidateFixed` | crates/data-plane/src/byte_ring.rs:735-760 | a header passes if and only if magic, version, reserved bytes and capacity are right, and the error names the first that is wrong |
| `ByteRing.ValidateCursors` | crates/data-plane/src/byte_ring.rs:772-785 | a pair of cursors passes if and only if the unread bytes are between none and the capacity, and the error says on which side it fails |
| `ByteRing.Endpoint.Reserve` | crates/data-plane/src/byte_ring.rs:894-912 | with no write of the peer between test and load: refused exactly when role, header, cursors or generation are wrong or the free space is short, and then with the exact free amount (P7, P10) |
| `ByteRing.Endpoint.Write` | crates/data-plane/src/byte_ring.rs:923-933 | the reserved span holds the bytes and unread bytes are untouched; refused, with the reason that comes first and no effect, exactly if role, header, cursors or generation are wrong |
| `ByteRing.Endpoint.Commit` | crates/data-plane/src/byte_ring.rs:936-960 | publishes exactly what the reserved span holds; refused, with the reason that comes first and no effect, exactly if role, header, cursors or generation are wrong |
| `ByteRing.Endpoint.Read` | crates/data-plane/src/byte_ring.rs:970-982 | with no write of the peer between test and load: returns the published stream from the consume cursor on, or the exact readable amount |
| `ByteRing.Endpoint.Consume` | crates/data-plane/src/byte_ring.rs:984-997 | moves the cursor by exactly the amount, never past what was published |
| `ByteRing.Endpoint.CopyInto` | crates/data-plane/src/byte_ring.rs:808-822 | the two-block copy is one wrapped copy |
| `ByteRing.Endpoint.ReadSpans` | crates/data-plane/src/byte_ring.rs:824-837 | the spans are the wrapped range, and the second is empty exactly when it does not wrap |
| `ByteRing.Endpoint.SendRecord` | crates/data-plane/src/byte_ring.rs:1030-1045 | publishes the whole record or nothing, and keeps the stream framed |
| `ByteRing.Endpoint.ReserveRecord` | crates/data-plane/src/byte_ring.rs:1002-1028 | writes the prefix ahead of a payload of the caller's, refusing lengths the prefix cannot hold |
| `ByteRing.Endpoint.FillPayload` | crates/data-plane/src/byte_ring.rs:839-852 | filling the payload through the spans leaves the prefix and all unread bytes in place |
| `ByteRing.Endpoint.CommitRecord` | crates/data-plane/src/byte_ring.rs:242-278 | publishing a filled reservation has the effect of sending that record |
| `ByteRing.Endpoint.LocateRecord` | crates/data-plane/src/byte_ring.rs:1050-1147 | finds the next complete record exactly as parsing the readable bytes does, with the same refusals |
| `ByteRing.Endpoint.CopyRecordRange` | crates/data-plane/src/byte_ring.rs:1149-1181 | copies the asked range of the payload, cut short only by its end; refuses a moved or stale cursor |
| `ByteRing.Endpoint.ReleaseRecord` | crates/data-plane/src/byte_ring.rs:1183-1204 | releases exactly the located record, once, and keeps the stream framed |
| `ByteRing.Endpoint.RecvRecord` | crates/data-plane/src/byte_ring.rs:1206-1231 | the copying path: hands over the located payload and releases its record; on a framed ring that is the next record sent, each once, in order, or nothing when all are taken |
| `ByteRing.Endpoint.TakePinned` | crates/data-plane/src/byte_ring.rs:187-237 | the pinned path, spans then release, makes the same promise as receiving: same payload, same cursor, same refusals |
| `ByteRing.Endpoint.TakeInRanges` | crates/data-plane/src/byte_ring.rs:1115-1204 | the partial-copy path, ranges of any sizes then release, makes the same promise as receiving |
| `ByteRing.Endpoint.CopyInRanges` | crates/data-plane/src/byte_ring.rs:1149-1181 | ranges of any sizes, one after the other, add up to exactly the payload |
| `CursorRaces.ReadBoundedIff` | crates/data-plane/src/byte_ring.rs:788-982 | whatever the producer's cursor is when it is loaded again after the test, `read` stays in the data region if and only if it ends within two rounds of the ring from the consumer's position, or, where overflow stops the program, no cursor value reaches the length (P5) |
| `CursorRaces.ReserveBoundedIff` | crates/data-plane/src/byte_ring.rs:788-933 | whatever the consumer's cursor is when it is loaded again, a span from `reserve` is written in the data region if and only if overflow stops the program or the span ends within two rounds of the ring (P5) |
| `CursorRaces.UpToCapacityIsBounded` | crates/data-plane/src/byte_ring.rs:788-982 | no length up to the capacity ever leaves the region, whatever either load returns |
| `CursorRaces.RawCallsCanLeaveTheRegion` | crates/data-plane/src/byte_ring.rs:788-982 | a ring of eight bytes and a length of 17 for which the test passes and the copy leaves the region |
| `CursorRaces.RecordWriteIsBounded` | crates/data-plane/src/byte_ring.rs:1002-1045 | records are written in the region whatever the peer does to the cursors (P5) |
| `CursorRaces.RecordReadBoundedIff` | crates/data-plane/src/byte_ring.rs:1050-1231 | records are read in the region, whatever the peer does to cursors and prefixes, if and only if the ring has at least four bytes (P5) |
| `CursorRaces.QuietPeer` | crates/data-plane/src/byte_ring.rs:788-982 | if both loads return one sound pair, nothing overflows and exactly what the cursors leave is granted, in the region |
| `Alignment.ComputeGcd` | crates/data-plane/src/arena.rs:599-606 | the loop computes the greatest common divisor |
| `Alignment.GcdDivides` | crates/data-plane/src/arena.rs:599-606 | it divides both numbers |
| `Alignment.Bezout` | crates/data-plane/src/arena.rs:599-606 | it is a combination of both, so every common divisor divides it |
| `Alignment.LcmIsCommonMultiple` | crates/data-plane/src/arena.rs:591-597 | the checked least common multiple is a common multiple whenever it is reported |
| `Alignment.LcmDividesCommonMultiples` | crates/data-plane/src/arena.rs:591-597 | it divides every common multiple, so it is the least |
| `Alignment.AlignUpIsLowest` | crates/data-plane/src/arena.rs:579-589 | aligning up gives the lowest multiple not below the value, and fails exactly when that overflows |
| `Placement.LayoutIsPlacement` | crates/data-plane/src/arena.rs:490-509 | a layout is an aligned placement inside the arena |
| `Placement.LayoutIsLowest` | crates/data-plane/src/arena.rs:490-509 | no aligned placement starts or ends below it |
| `Placement.LayoutIsComplete` | crates/data-plane/src/arena.rs:490-509 | a range holds a placement and is passed over if and only if the least common multiple overflows and the placement is the one at zero with no header |
| `Placement.OverflowTurnsAway` | crates/data-plane/src/arena.rs:490-509 | a concrete request that such an overflow turns away though an empty arena holds it |
| `Ranges.TakeKeepsTiling` | crates/data-plane/src/arena.rs:452-475 | carving a lease out of a free range keeps free and live ranges an exact tiling |
| `Ranges.ReturnKeepsTiling` | crates/data-plane/src/arena.rs:511-529 | sorting a returned range in and merging neighbours keeps the tiling and leaves no two free ranges touching |
| `Ranges.CoalesceAll` | crates/data-plane/src/arena.rs:511-529 | the merging loop yields the merged list |
| `Arena.RunTilesArena` | crates/data-plane/src/arena.rs:243-536 | after any requests, free ranges are sorted and not empty, live leases disjoint, and each byte is in a free range or a live lease but not both |
| `Arena.LookupAgreesWithLive` | crates/data-plane/src/arena.rs:259-263 | looking a ring up finds it exactly while it is live |
| `Arena.SampledBytesAreLiveBytes` | crates/data-plane/src/arena.rs:265-291 | the live bytes sampled from the free list are the bytes of the live leases |
| `Arena.HandleKeepsInv` | crates/data-plane/src/arena.rs:243-253 | every request keeps the tiling, the index and the justification of the queue, and uses at most one ring id per lease asked for |
| `Arena.WaitingIsJustified` | crates/data-plane/src/arena.rs:331-440 | a non-empty queue means the arena is ready, some lease is live, and its head fits no free range unless it is cancelled |
| `Arena.QueueIsFifo` | crates/data-plane/src/arena.rs:331-440 | over any run, the requests queued, in order, are those answered from the queue, in order, and those still waiting: none overtaken, lost or answered twice |
| `Arena.LeaseAnswersItself` | crates/data-plane/src/arena.rs:331-360 | a lease request is at once answered or queued, itself alone, and never granted past a queue |
| `Arena.RunCounts` | crates/data-plane/src/arena.rs:331-440 | over any run and at every point of it, the grants under a request id are at most its queued entries that were not cancelled and the requests made under it since |
| `Arena.CancelIsFinal` | crates/data-plane/src/arena.rs:362-368 | after a cancel, whatever follows, there are never more grants under that id than the times it was asked for again since, at any point of the run |
| `Arena.LastReleaseGrantsTheHead` | crates/data-plane/src/arena.rs:370-440 | giving back the last live ring grants the head of the queue in the same answer, unless it was cancelled |
| `Arena.FirstFitIsComplete` | crates/data-plane/src/arena.rs:442-509 | an allocation fails exactly when first fit passed every range, and it passes a range that holds a placement only in the overflow case |
| `Arena.FirstFitTakesLowest` | crates/data-plane/src/arena.rs:442-509 | a success is the lowest aligned placement in the first range that fits |
| `Arena.ExhaustedIdsLoseTheRange` | crates/data-plane/src/arena.rs:452-475 | an allocation that fits and takes any bytes loses its range from both lists if and only if the ring ids are used up |
| `Arena.ExhaustedIdsLoseAnArena` | crates/data-plane/src/arena.rs:452-475 | a concrete arena of 64 bytes whose ids are used up, and a request that fits, takes all of it and is not granted |
| `Arena.LiveChangesAreAnnounced` | crates/data-plane/src/arena.rs:331-440 | a lease is live after a request if and only if it was and was not given back, or it is announced by that request, once and under a new id |
| `ArenaAnswers.LeaseIsAnswered` | crates/data-plane/src/arena.rs:331-360 | in every run a lease request is told at once and alone: that the arena is closing, exactly after a shutdown; before it, that the ring cannot fit, exactly if an empty arena has no place for it; otherwise that it waits, or which aligned place it has |
| `ArenaAnswers.ReleaseIsAnswered` | crates/data-plane/src/arena.rs:370-403 | a release is refused for a ring that is not live, and then for a missing proof; otherwise it announces the range and, unless the arena is closing, ends the first of those that wait |
| `ArenaAnswers.ShutdownIsAnswered` | crates/data-plane/src/arena.rs:405-421 | a shutdown ends everyone who waits, in order, the cancelled as cancelled and the others as turned away |
| `ArenaAnswers.ClosedFromShutdownOn` | crates/data-plane/src/arena.rs:405-421 | in every run the arena is closing exactly from the first shutdown on, and nothing waits from then on |
| `ArenaAnswers.NothingAfterShutdown` | crates/data-plane/src/arena.rs:405-421 | once a shutdown was handled no ring is granted and no request queued, whatever follows |
| `ArenaAnswers.ClosingIsSaidWhenClosing` | crates/data-plane/src/arena.rs:331-421 | nobody is told that the arena is closing before it is |
| `ArenaAnswers.ReleaseStillFrees` | crates/data-plane/src/arena.rs:370-403 | a release while the arena is closing gives every byte of the range back |
| `ArenaAnswers.EndedAsAsked` | crates/data-plane/src/arena.rs:362-440 | in every run of requests with ids of their own, only what was asked for and not called off is granted, with a place that fits it; only what was called off is told so; and a shutdown turns away only what was not |
| `ArenaAnswers.FailuresAreCounted` | crates/data-plane/src/arena.rs:265-291 | the failure counters of the health sample count the refused leases and the refused releases of the run, up to the largest 64-bit number |
| `ArenaManagers.ArenaManager.Request` | crates/data-plane/src/arena.rs:243-253 | each request does to the fields what the state machine says and keeps the arena tiled |
| `ArenaManagers.ArenaManager.TryAllocate` | crates/data-plane/src/arena.rs:442-488 | the search loop and the splitting compute the first-fit allocation |
| `ArenaManagers.ArenaManager.ReleaseRing` | crates/data-plane/src/arena.rs:370-403 | a release needs the ring to be live and the proof verified; it returns the range, rebuilds the index and retries the queue |
| `ArenaManagers.ArenaManager.RetryPendingLeases` | crates/data-plane/src/arena.rs:423-440 | settles the queue from the front and stops at the first request that does not fit |
| `ArenaManagers.ArenaManager.InsertFreeRange` | crates/data-plane/src/arena.rs:511-529 | exactly the bytes of the range become free besides those that were, and no two free ranges touch afterwards |
| `ArenaManagers.ArenaManager.RebuildLiveIndex` | crates/data-plane/src/arena.rs:531-537 | the rebuilt index maps each live ring to its position |
| `ArenaManagers.ArenaManager.Shutdown` | crates/data-plane/src/arena.rs:405-421 | the phase becomes closing, the queue is drained in order with the right answer to each entry, and nothing else changes; what follows from it over a run is stated in `ArenaAnswers` |
| `ArenaManagers.ArenaManager.TakeSample` | crates/data-plane/src/arena.rs:265-291 | live and free bytes are those of the leases and the free ranges and add up to the capacity; the largest free range is the maximum of them; waiting requests are those not cancelled |
| `EdgeLifecycle.EdgeMovesForward` | crates/data-plane/src/edge_lifecycle.rs:311-655 | over any run with distinct edge ids an edge never returns to an earlier state and its announcements stay in order |
| `EdgeLifecycle.AnnouncedInOrder` | crates/data-plane/src/edge_lifecycle.rs:311-655 | an edge is announced ready, faulted and stopped at most once each, in that order |
| `EdgeRings.ObserveKeepsAccounts` | crates/data-plane/src/edge_lifecycle.rs:311-339 | every event keeps each leased ring either held by one edge or released by one command, late leases included |
| `EdgeRings.EveryRingHeldOrReleasedOnce` | crates/data-plane/src/edge_lifecycle.rs:379-603 | over every run a leased ring is held by exactly the edge it went to, or has exactly one release; a ring never leased has none |
| `EdgeLaws.ObserveDoesWhatIsDue` | crates/data-plane/src/edge_lifecycle.rs:311-615 | every event issues exactly the commands it calls for, once each, and announces exactly what it calls for: a sending edge is connected with its own peer and a receiving one as receiving, a stopping one is asked for exactly the proofs due, each edge under its own request, ring and actor |
| `EdgeLaws.RecordsMove` | crates/data-plane/src/edge_lifecycle.rs:311-655 | every event leaves the record of an edge as the edge's own part in it says, and every other edge alone; a new edge has the direction, peer and ring it was provisioned with |
| `EdgeRuns.IssuedAsDue` | crates/data-plane/src/edge_lifecycle.rs:311-655 | over every lawful run each command was issued, and everything announced, exactly as often as an event called for it |
| `EdgeRuns.EdgeWasProvisioned` | crates/data-plane/src/edge_lifecycle.rs:341-378 | every edge there is was provisioned, and still has the direction and peer it was provisioned with |
| `EdgeRuns.ConnectedOnceIff` | crates/data-plane/src/edge_lifecycle.rs:425-456 | over every lawful run an edge is connected to send to a peer, or to receive, at a layout, once if it was provisioned so and the ring brought to it at that layout was installed while it waited for that, and never otherwise |
| `EdgeRuns.ReadyOnceIff` | crates/data-plane/src/edge_lifecycle.rs:458-471 | an edge is announced ready, once and with its own actor, if its driver's event came while it waited for it, and never otherwise |
| `EdgeRuns.ActorsAreOwn` | crates/data-plane/src/edge_lifecycle.rs:644-655 | no two edges share an actor, in any state of any lawful run |
| `EdgeRuns.ReleasedWithLastProof` | crates/data-plane/src/edge_lifecycle.rs:545-603 | over every lawful run a stopping edge has stopped, and its ring was given back, by the time the last proof it needs is observed |
| `EdgeEstablishers.Establisher.Observe` | crates/data-plane/src/edge_lifecycle.rs:311-339 | the dispatching method does to the fields what the state machine says, for every event; what that comes to, event by event and over runs, is stated in `EdgeLaws` and `EdgeRuns` |
| `EdgeEstablishers.Establisher.StartStopping` | crates/data-plane/src/edge_lifecycle.rs:503-543 | an edge that is unknown, stopping or stopped is left alone; for any other exactly the proofs due are asked for, the ring is released at once only if none is, and only then does the edge stop and say so |
| `EdgeLifecycle.StopIsBegun` | crates/data-plane/src/edge_lifecycle.rs:503-543 | the same of the state machine: which commands are among those issued, in both directions, and that no other record changes |
| `EdgeEstablishers.Establisher.RingLeased` | crates/data-plane/src/edge_lifecycle.rs:379-408 | a lease nobody asked for changes nothing; otherwise one command is issued, installing the ring for an edge that asked for it and still waits, or releasing it |
| `EdgeGrowth.ObserveGrows` | crates/data-plane/src/edge_lifecycle.rs:311-655 | no event takes back a command, and a record keeps its ring and layout once it has them |
| `EdgeGrowth.ObserveCost` | crates/data-plane/src/edge_lifecycle.rs:379-603 | an event that answers a command adds less work than the command weighed |
| `EdgeArena.NextKeepsInv` | crates/data-plane/src/edge_lifecycle.rs:379-603 | every step of establisher and arena together, in any order of events, keeps their books consistent with each other |
| `EdgeArena.RangeOutlivesItsReaders` | crates/data-plane/src/edge_lifecycle.rs:503-603 | in every reachable state, an edge with a ring that has not stopped still owns its range: the lease is live there and every other live lease is disjoint from it; and it has not stopped before every teardown proof it needs was observed |
| `EdgeArena.LiveLeaseIsInOnePlace` | crates/data-plane/src/arena.rs:370-403 | in every reachable state a live lease is on its way to the establisher, held by one edge, or awaiting its one release, and in only one of these places |
| `EdgeArena.SettledWorldKeepsNothingElse` | crates/data-plane/src/edge_lifecycle.rs:584-615 | with all commands executed and all answers delivered, the live rings are exactly those of edges that have not stopped |
| `EdgeArena.ObserveWitnesses` | crates/data-plane/src/edge_lifecycle.rs:545-582 | a teardown flag is raised only by the event that proves it, for the ring the edge has |
| `EdgeQueue.WaitingEdgesAreTheQueue` | crates/data-plane/src/edge_lifecycle.rs:379-424 | over every run of establisher and arena, once every command has been executed and every answer delivered, the edges that wait for a lease are those whose request waits in the arena: each once, and no request waits for an edge that does not |
| `EdgeQueue.NobodyWaitsForAClosedArena` | crates/data-plane/src/arena.rs:405-421 | after a shutdown no edge is left waiting, once every command has been executed and every answer delivered |
| `EdgeQueue.NextInPlace` | crates/data-plane/src/edge_lifecycle.rs:379-543 | in every reachable state a request is in one place, not yet asked for, waiting in the arena or answered, and its edge waits exactly until it learns the answer or stops, a cancel then following the request |
| `EdgeNeeds.CommandsFindTheirNeeds` | crates/data-plane/src/edge_runtime.rs:439-581 | in every run of establisher and arena, when its turn comes a command to install a ring finds the lease live at the place it names and a command to connect an edge finds its ring; so it fails if and only if it is to send without an outbound edge, or is for the worker or the transport and these do not do their part |
| `EdgeNeeds.TornDownAfterSetUp` | crates/data-plane/src/edge_lifecycle.rs:425-543 | over every lawful run a pump is asked to stop only after it was asked to start, and a ring to be uninstalled only after it was asked to be installed for that edge |
| `EdgeQueue.RejectionReachesItsEdge` | crates/data-plane/src/edge_lifecycle.rs:410-424 | a rejection fails the edge that waits, and is announced once, with the arena's own reason |
| `EdgeQueue.GrantReachesItsEdge` | crates/data-plane/src/edge_lifecycle.rs:379-408 | a grant gives the edge that waits the ring and the place of the lease, and asks once for it to be installed |
| `EdgeRuntimes.EdgeRuntime.Drive` | crates/data-plane/src/edge_runtime.rs:405-420 | always ends; without a fault every command was executed once in issue order and went through, every announcement was observed once in order, and none was a fault; a fault reported is the failure of the last command executed or the last announcement drained |
| `EdgeRuntimes.EdgeRuntime.ExecuteCommands` | crates/data-plane/src/edge_runtime.rs:424-438 | executes every command, those issued meanwhile included; the arena is asked exactly what the executed commands ask, also if a failure cuts it short, and then it is the last command that failed |
| `EdgeRuntimes.EdgeRuntime.ExecuteCommand` | crates/data-plane/src/edge_runtime.rs:439-571 | asks the arena what the command asks, tells the establisher what the command leads to, and leaves less work than the command weighed; it fails exactly if the lease, ring or outbound edge it needs is missing, or the worker or the transport does not do its part, and says which |
| `EdgeRuntimes.ObserveCarries` | crates/data-plane/src/edge_runtime.rs:590-598 | no event takes back a command or an announcement, takes an edge away or changes its direction, and only edges that are there are announced ready |
| `EdgeRuntimes.OnlyDirectGrantsAreTold` | crates/data-plane/src/edge_runtime.rs:447-569 | a granted lease is live, but the establisher is told of it if and only if it answers the lease command itself; one granted by a release goes to no edge |
| `MissedGrant.QueuedGrantIsMissed` | crates/data-plane/src/edge_runtime.rs:447-569 | whenever an edge waits for the head of the queue and the release of the last live ring is executed, the request is granted and live, and the establisher is left as it was |
| `MissedGrant.SecondEdgeIsNotTold` | crates/data-plane/src/edge_runtime.rs:447-569 | a run from the start that comes to this: an arena of 64 bytes, two edges asking for rings of 8 and 56 bytes, the first stopped and proven quiescent; its release, next to be executed, grants the second request while the second edge goes on waiting |
| `EdgeRuntimes.EdgeRuntime.DrainLifecycle` | crates/data-plane/src/edge_runtime.rs:583-610 | reports announcements in order up to and including the first fault; a ready edge is reported with the direction it was provisioned with |
| `EdgeRuntimes.EdgeRuntime.StopWire` | crates/data-plane/src/edge_runtime.rs:652-667 | reports the ring its edge was given if the wire was ever established, and ring 0 otherwise, and forgets the wire |
| `EdgeRuntimes.EdgeRuntime.EstablishRecvWire` | crates/data-plane/src/edge_runtime.rs:620-625 | a stream that came early makes the edge ready at once |
| `EdgeRuntimes.EdgeRuntime.IncomingStream` | crates/data-plane/src/edge_runtime.rs:627-633 | a stream for a known edge makes it ready, any other is kept |
| `EdgeRuntimes.EdgeRuntime.EstablishInbound` | crates/data-plane/src/edge_runtime.rs:185-197 | an edge of this node's own now waits, under a fresh request id, for the one lease asked for; one of another node asks for nothing; no other edge changes |
| `EdgeRuntimes.EdgeRuntime.EstablishOutbound` | crates/data-plane/src/edge_runtime.rs:201-210 | the same for an outgoing edge, with its consumer |
| `EdgeRuntimes.LinkedIsRun` | crates/data-plane/src/edge_runtime.rs:439-571 | the arena states and answers logged while commands are executed are those of the arena's own run |
| `ActorSlots.CallbacksInOrder` | src/worker.rs:1006-1256 | over every run of one slot: `on_start` once and before any message, nothing handled after a stop or a panic or between a suspension and the next resumption, `on_stop` once and never after a panic of `on_start` or a handler, nothing after removal |
| `ActorSlots.RemovalMatchesHistory` | src/worker.rs:29-47 | an actor is removed as panicked if and only if `on_start` or a handler panicked, else as completed if and only if a stop carried a value; `on_stop` ran if and only if neither panicked |
| `ActorSlots.StopPanicIsSwallowed` | src/worker.rs:1228-1251 | a panic of `on_stop` changes neither the reason nor the value an actor is removed with |
| `ActorSlots.NothingIsLostOrReordered` | src/worker.rs:883-912 | what was put in a mailbox is what was consumed, then discarded, then left, in order, through suspension and interception; nothing is discarded while the actor lives; a tick calls its handler at most `budget` times |
| `ActorSlots.WhatIsAskedTakesEffect` | src/worker.rs:883-1194 | in every state and for every step, the actor is suspended, resumed, stopped or poisoned if and only if the step says so, by a command, a signal that finds it suspended, or what its callback asked for; and it keeps the value of the last stop that carried one |
| `ActorSlots.ConsumedIsHandled` | src/worker.rs:1098-1191 | over every run the handler was called with exactly the messages taken from the mailbox, in order, but the stop signals |
| `ActorSlots.NextKeepsInv` | src/worker.rs:1098-1191 | each delivery, admin command, start, message and cleanup keeps the flags in agreement with what was seen |
| `Workers.Worker.TryTick` | src/worker.rs:144-390 | whatever arrives, whatever each callback does and whatever the extensions send, a worker with work goes through a pass that is made of exactly that: every callback does what its call says and the deaths are told as they were; `did_work` says whether any phase had something to do, the front of each queue is served up to the budget and nothing is lost or made up; a worker without work changes nothing; and one that then sees no work has no dead actor, no unstarted actor or filled mailbox that is not suspended, and empty queues |
| `Conservation.PassConserves` | src/worker.rs:144-390 | over a pass every spawn request that was queued or came in is installed, in order, or still queued; every envelope that was queued, retained or staged, or came in, is delivered, dropped or still waits, and every command is applied or still waits, as multisets |
| `Conservation.PassSifts` | src/worker.rs:472-488 | what a pass delivered was for an actor in the pool, and what it dropped for one neither in the pool nor mapped to this worker, when it was taken up |
| `Passes.PassServes` | src/worker.rs:431-585 | whatever arrives behind it, the front of the spawn queue, and of the transfer and admin queues if nothing is retained for them, is served up to the budget in a pass |
| `Passes.OnlyTheDeadLeave` | src/worker.rs:144-390 | the actors in the pool after a pass are those before it and those installed in it, without those that were dead when it cleaned up |
| `Passes.IdlePassIsQuiet` | src/worker.rs:267-390 | if all are at rest after their turns, nothing came up in them and nobody died, then the rest of the pass leaves the pool as it is |
| `Passes.AnnouncedUnblocks` | src/worker.rs:190-217 | without a budget, once all spawn requests are installed nothing retained is stuck, if each was settled or its request had arrived |
| `Workers.Worker.Ingress` | src/worker.rs:190-228 | spawns, transfers, commands and extension messages in this order, each with what arrives behind it |
| `Workers.Worker.TickAll` | src/worker.rs:1006-1194 | every actor has exactly one turn, each with calls of its own, and what all callbacks did, in order, is what is staged, spawned and mapped; if no message was handled, nothing is left to do for any actor |
| `Workers.Worker.TickActor` | src/worker.rs:1006-1191 | one turn: a start if needed, then messages until the mailbox is empty, a stop, a panic, a suspension or the budget; each callback due is made once, does what its call says, and its effects take place |
| `ActorTurns.TurnIsRun` | src/worker.rs:1006-1191 | every turn in the pool is a run of the slot's own life, so the laws of a life hold for it |
| `Workers.Worker.Perform` | src/worker.rs:749-795 | what a callback sends, spawns and resumes, in its own order: a child is mapped before its request is queued, and exactly the sends to actors mapped here at that moment are staged |
| `Callbacks.SendToChildIsStaged` | src/worker.rs:749-776 | what a callback sends to a child it has spawned is staged for this worker |
| `Workers.Worker.DrainTransfers` | src/worker.rs:490-520 | what is delivered, in order, what is retained, in order, and what is left of the queue are exactly those of the budgeted drain: retained envelopes in turn, then the queue for its share of the budget, and none of it if a retained envelope cannot be settled |
| `Workers.Worker.DrainRetained` | src/worker.rs:500-508 | the loop takes exactly its turns, puts back at the end what waits, and delivers and drops the others in the order taken; it worked if and only if it settled any |
| `Routing.DrainAddsUp` | src/worker.rs:490-520 | a drain loses no envelope and makes none up |
| `Routing.DrainSifts` | src/worker.rs:472-520 | it delivers only to actors in the pool and drops only what is neither there nor mapped here |
| `Routing.OrderKeptIff` | src/worker.rs:490-520 | for any queues and budget, the envelopes of one address that were delivered or dropped, are retained and are still queued, in line, are as before if, and for different envelopes only if, the address is not waited for, or its retained envelopes all lie on one side of the turning point |
| `Queues.StuckAreTurned` | src/worker.rs:500-508 | after any number of turns the retained entries that cannot be settled are cut at the turning point and the two parts exchanged |
| `Queues.PointIsRemainder` | src/worker.rs:500-508 | beyond a full round the turning point is the remainder of the further turns by the number of stuck entries |
| `Routing.RetainedAreReordered` | src/worker.rs:500-508 | two messages retained for one actor that is mapped but not installed, and a budget of one: the pass leaves them the other way round |
| `Routing.UnbudgetedDrainEndsIff` | src/worker.rs:500-508 | without a budget the loop over retained envelopes ends if and only if each is for an installed actor or one not mapped here |
| `Routing.UnbudgetedDrainCanSpin` | src/worker.rs:500-508 | a concrete retained envelope that keeps it going for ever |
| `Workers.SpinFromFresh` | src/worker.rs:490-520 | a fresh worker reaches such a state in one pass: a message for an actor mapped here arrives before its spawn request |
| `Workers.Worker.DeliverOrDefer` | src/worker.rs:472-488 | delivers, retains or drops according to pool and address map |
| `Routing.DeliveredInOrder` | src/worker.rs:883-912 | an actor that is not suspended finds its own envelopes at the back of its mailbox, in order |
| `Workers.Worker.DrainSpawns` | src/worker.rs:431-470 | installs exactly the front of the queue, up to the budget |
| `Workers.Worker.DrainAdmin` | src/worker.rs:555-585 | retained commands in turn, then the queue for its share of the budget: the pool is the old one with exactly those that need not wait applied, in the order taken, and the others are kept; what each does to its actor is stated in `Orders` |
| `Workers.Worker.DrainRetainedAdmin` | src/worker.rs:565-573 | the loop takes exactly its turns, puts back at the end what waits, and applies the others in the order taken |
| `Commands.ManageAddsUp` | src/worker.rs:555-585 | no command is lost, made up or applied twice |
| `Commands.UnbudgetedAdminEndsIff` | src/worker.rs:565-573 | without a budget the loop over retained commands ends if and only if none is for an actor mapped here but not installed |
| `Commands.UnbudgetedAdminCanSpin` | src/worker.rs:565-573 | a concrete retained command that keeps it going for ever |
| `Orders.CommandIsStep` | src/worker.rs:964-1003 | a command is the step of its actor's life, and leaves every other actor alone |
| `Orders.CommandsTakeEffect` | src/worker.rs:626-673 | after any number of commands an actor is suspended or not as the last of them said, and is stopping with an empty mailbox if and only if one of them said so; nothing else of it changes |
| `Orders.StoppedIsRemoved` | src/worker.rs:984-1003 | an actor stopped by a command is removed by the end of that pass |
| `Orders.SuspendedIsLeftAlone` | src/worker.rs:964-972 | an actor that is suspended once the commands of a pass are applied has no handler call in that pass and keeps its mailbox, with what comes for it behind, unless something in the pass resumes or stops it |
| `Orders.SleepsUntilResumed` | src/worker.rs:883-912 | over any number of passes a suspended actor has no handler call and loses no message until something resumes or stops it |
| `Orders.ResumedHasItsTurn` | src/worker.rs:974-982 | an actor whose last command in a pass resumes it, and that is not dead, has its turn in that pass |
| `Orders.WokenIsResumed` | src/worker.rs:790-795 | whoever a callback wakes, if present, is suspended no more once the pass has handed out the messages |
| `Orders.RemovedIsForgotten` | src/worker.rs:700-712 | a removed actor is neither in the pool nor mapped, so what is sent to it is dropped; everybody else stays as they were |
| `Orders.RemovedHearsNothing` | src/worker.rs:718-724 | what the last callbacks of a pass sent to an actor removed in it is dropped, not kept for later |
| `Orders.CommandsAwaitTheirActor` | src/worker.rs:522-553 | no command runs before its actor has come, and one that waits for its actor still waits after the pass |
| `Workers.Worker.FlushPending` | src/worker.rs:277-289 | what was staged locally is delivered, retained or dropped, each in the order it was staged |
| `Workers.Worker.CleanupDead` | src/worker.rs:1214-1256 | removes exactly the stopping and poisoned actors, each with the reason and value its flags give, after one last callback of those that were stopped without a panic |
| `Workers.Worker.CleanupDeadActors` | src/worker.rs:674-731 | the dead are removed and unmapped, and nobody else; the runtime is told of exactly these, with reason and value; the others get the notices of the deaths, then those sends of the last callbacks that are for actors here; the rest of these is retained or dropped, in order |
| `Workers.Worker.LocalDelivery` | src/worker.rs:267-289 | actors spawned during the ticks are installed from the front of their queue, then each message sent locally is delivered, retained or dropped, by the pool of then and in order |
| `Workers.Worker.Egress` | src/worker.rs:267-374 | the state after a pass is the one after local delivery and arrivals, without its dead, plus the notices and the last sends, each settled by the pool and address map of then |
| `WorkerDelivery.DrainIsRun` | src/worker.rs:490-520 | the transfer phase of a worker is a run of the delivery protocol between all workers: it leaves the same messages retained and queued, and has put the same into each mailbox and dropped the same, in the same order |
| `WorkerDelivery.FlushIsRun` | src/worker.rs:277-289 | so is the delivery of what was staged |
| `WorkerDelivery.InstallIsStep` | src/worker.rs:431-470 | taking up a spawn request is a step of the protocol after which both agree on who is in the pool |
| `WorkerDelivery.RemovalIsStep` | src/worker.rs:674-731 | so is removing a dead actor, from the pool and the address map |
| `WorkerDelivery.OnlyRemovedMiss` | src/worker.rs:472-520 | in every reachable state of the protocol a worker drops a message only if its actor has been removed |
| `Delivery.AcceptedMessageIsInOnePlace` | src/worker.rs:472-520 | in every interleaving of any number of workers and senders an accepted message is in exactly one place, that of its actor's own worker while the actor is mapped, or consumed; it is dropped by routing only after the actor was removed |
| `Delivery.AddressHasOneHome` | src/runtime.rs:381-397 | an address is mapped to one worker for its whole life and never again after removal |
| `Delivery.GoneForGood` | src/worker.rs:674-776 | a message consumed, discarded or dropped is never delivered or consumed again |
| `Delivery.NextKeepsInv` | src/runtime.rs:461-475 | each mapping, spawn, send, transfer, delivery, consumption and removal keeps every message tracked and on its own worker |
| `Channels.HybridChannel.Push` | src/channel.rs:20-28 | one operation at a time, a value comes out after all that are there |
| `Channels.HybridChannel.Pop` | src/channel.rs:30-32 | one operation at a time, the oldest value comes out |
| `Inboxes.NoLostWakeup` | src/channel.rs:52-73 | in every interleaving of many producers and one poller, a parked poller with a value in either queue has been notified or a push owes a wake that will notify it |
| `Inboxes.OneWakePerRegistration` | src/channel.rs:52-73 | in every interleaving each registration of the poller is woken at most once |
| `Inboxes.ValueMovesForward` | src/channel.rs:20-73 | in every interleaving a pushed value is in one spot only and moves forward, so it is received at most once |
| `Inboxes.PushedIsInHand` | src/channel.rs:20-28 | a new value starts in its producer's hands |
| `Census.CensusRepliesOnce` | src/worker.rs:597-625 | for any number of workers and any cancels: at most one reply, with one sample from each worker, built if and only if all sampled and no cancel came first; `remaining` is exact |
| `Census.ReplyHoldsWhatWasTaken` | src/worker.rs:603-612 | in every run the reply holds each worker's own sample as it was taken, in the order they were taken, and no other |
| `Census.CancelledNeverReplies` | src/admin.rs:175-186 | a census cancelled before it was complete never replies |
| `Census.Accumulator.Apply` | src/worker.rs:597-625 | the reply comes exactly with the last sample expected and holds all samples taken; the count stays positive until then |
| `NamespaceStores.ReopeningSucceeds` | crates/data-plane/src/namespace_store.rs:300-317 | after any run of openings, commits, failures and crashes, what can be found is absent or a well-formed snapshot in full |
| `NamespaceStores.ValidIff` | crates/data-plane/src/namespace_store.rs:214-256 | a snapshot is accepted if and only if its schema is the supported one, its next revision is not zero and every revision it speaks of, of a binding, a node or an operation, lies between zero and the next; it is turned away for its schema first |
| `NamespaceStores.FoundRevisionsAreBelowTheNext` | crates/data-plane/src/namespace_store.rs:300-317 | after any run, whatever is found speaks only of revisions below the next one it would hand out |
| `NamespaceStores.DefaultIsTheBeginning` | crates/data-plane/src/namespace_store.rs:199-212 | a store that finds no file begins with nothing bound, no epoch handed out and the first revision still to come |
| `NamespaceStores.CommitGoesThrough` | crates/data-plane/src/namespace_store.rs:334-395 | after any run, a commit of a well-formed snapshot none of whose operations fails leaves it in memory and on disk, and reopening finds it; any other is turned away and changes nothing |
| `NamespaceStores.AdvanceGoesThrough` | crates/data-plane/src/namespace_store.rs:323-332 | after any run, an advance none of whose operations fails returns the epoch after the one in memory, if there is one, and changes nothing else of the snapshot |
| `NamespaceStores.MemoryChangesAtTheEnd` | crates/data-plane/src/namespace_store.rs:334-346 | an attempt changes the snapshot in memory, and hands out its epoch, exactly when its last operation succeeds |
| `NamespaceStores.SyncsAreNeeded` | crates/data-plane/src/namespace_store.rs:352-395 | both syncs are needed: before the directory is synced a crash may find the old snapshot or the new one, and a file renamed before it was synced may be found torn |
| `NamespaceStores.OperationsAreProceeds` | crates/data-plane/src/namespace_store.rs:352-395 | the operations of the method, in its order, are the steps of the state machine |
| `NamespaceStores.CrashYieldsOldOrNew` | crates/data-plane/src/namespace_store.rs:334-395 | however far a commit gets before a failure or a crash, reopening yields what could be found before or the attempted snapshot |
| `NamespaceStores.SuccessIsDurableIff` | crates/data-plane/src/namespace_store.rs:334-395 | after any run, once a commit reports success only its snapshot can be found, crash or not, if and only if the directory was durable before the commit or the default snapshot was committed |
| `NamespaceStores.EpochsStrictlyIncreaseIff` | crates/data-plane/src/namespace_store.rs:323-395 | over all runs in which commits do not lower the epoch the epochs returned strictly increase, if and only if the directory was durable to begin with |
| `NamespaceStores.EpochsGrowUnlessDirectoryIsLost` | crates/data-plane/src/namespace_store.rs:323-395 | below any directory they strictly increase over every run whose crashes leave the directory |
| `NamespaceStores.LostDirectoryRepeatsTheEpoch` | crates/data-plane/src/namespace_store.rs:352-395 | a run that returns epoch 1 twice: first advance, a crash that takes the new directory, first advance |
| `NamespaceStores.NamespaceStore.Persist` | crates/data-plane/src/namespace_store.rs:352-395 | for every point at which an operation fails, the creation of the directory included: the error, and exactly what the operations before it leave on disk, which is sound and holds the old or the new snapshot |
| `NamespaceStores.NamespaceStore.Commit` | crates/data-plane/src/namespace_store.rs:334-346 | fails exactly for a snapshot that is not well-formed, with the right error and without touching anything, or at an operation that fails, keeping the snapshot in memory; a success is durable if and only if the directory was durable before or the default snapshot was committed |
| `NamespaceStores.NamespaceStore.AdvanceAuthorityEpoch` | crates/data-plane/src/namespace_store.rs:323-332 | returns the next epoch exactly if there is one and no operation fails, durable if and only if the directory was, and changes nothing in memory otherwise |
| `WatchRegistries.StaysInverse` | src/std/watch_registry.rs:35-83 | the two indexes are exact inverses after every interleaving of single calls of any number of workers |
| `WatchRegistries.WatchStandsIff` | src/std/watch_registry.rs:35-83 | after any interleaving a watch is in the indexes if and only if it was begun and neither its target was announced dead nor its watcher cleaned up since |
| `WatchRegistries.DeadAreForgottenIff` | src/std/extension.rs:44-68 | after any interleaving in which a death was announced and the dead cleaned up, nothing of it is left in either index if and only if no watch came too late |
| `WatchRegistries.LateWatchKeepsTheDead` | src/std/extension.rs:44-68 | a watch between the announcement and the clean-up that leaves the dead actor as a key |
| `WatchRegistries.OneNoticePerStandingWatch` | src/std/watch_registry.rs:42-68 | over any interleaving a death announced once is told exactly once to each watcher whose watch stands then, and to nobody else |
| `WatchRegistries.EveryNoticeIsOfADeath` | src/std/watch_registry.rs:42-68 | over any interleaving every notice sent tells of a death that was announced, to one whose watch stood then: it names the actor and the value, and reads panicked if and only if the actor was removed as panicked |
| `WatchRegistries.PoisonReadsAsPanic` | src/std/extension.rs:36-41 | a watcher reads of a panic if and only if the slot was poisoned, with the value the actor left |
| `WatchRegistries.BatchForgetsTheDead` | src/std/extension.rs:44-68 | after a batch of deaths that no other call interrupts, exactly the watches between survivors are left, and no dead address is a key or a member of either index |
| `WatchRegistries.BatchIsCalls` | src/std/extension.rs:44-68 | such a batch, and its notices, are the run of its own calls |
| `WatchRegistries.OneNoticePerWatch` | src/std/watch_registry.rs:42-68 | each watcher of each of the dead gets exactly one notice of that death, and nobody else any |
| `WatchRegistries.WatchRegistry.HandleDeaths` | src/std/extension.rs:44-68 | the two loops over an uninterrupted batch leave the registry and hand out the notices of the batch |
| `WatchRegistries.WatchRegistry.AddWatch` | src/std/watch_registry.rs:35-39 | keeps the indexes inverses and adds exactly this watch |
| `WatchRegistries.WatchRegistry.Announce` | src/std/watch_registry.rs:42-68 | takes the target out of both indexes and makes one notice per watcher |
| `WatchRegistries.WatchRegistry.Forgotten` | src/std/watch_registry.rs:71-82 | takes the watcher out of both indexes and prunes empty entries |

## Left out

- Cursors, ids and stream lengths are unbounded numbers: the model assumes streams below 2^64 bytes, and runs in which ring ids do not run out are a stated condition where they matter.
- Each acquire or release access is one atomic step; memory orders, mmap, file descriptors and raw memory are not modelled, and neither is `RingProbe`, which may see an inconsistent pair of cursors.
- ByteRing.Endpoint.Reserve: reads each cursor once; what a second load may bring is the subject of `CursorRaces`, and of `RingProtocol` for a peer that follows the protocol.
- ByteRing.Endpoint.Read: reads each cursor once, as `Reserve` does.
- ByteRing.Endpoint.Commit: requires the reservation to start at the commit cursor, which the code asserts and panics otherwise, and to lie in free space, which the code does not test again.
- ByteRing.Endpoint.SendRecord: keeps the stream framed only for payloads below 2^32 bytes, which is exactly where the code does.
- Arena.RunTilesArena: for runs that ask for fewer than 2^64 - 2 leases; `ExhaustedIdsLoseTheRange` shows that the tiling is lost exactly when the ring ids run out.
- EdgeArena.RangeOutlivesItsReaders: for runs of fewer than 2^64 - 2 steps, for the same reason.
- EdgeNeeds.CommandsFindTheirNeeds: for runs of fewer than 2^64 - 2 steps, for the same reason.
- EdgeQueue.WaitingEdgesAreTheQueue: for runs in which the establisher hears of rejections from the arena alone, and for fewer than 2^64 - 2 steps.
- Edge properties take each edge id to be provisioned once, leases to come from the arena, and no stop event from outside, as the lookups by edge and by request assume.
- EdgeRuntimes.EdgeRuntime.ExecuteCommand: tells the establisher only of answers to lease commands, as the code does. `EdgeArena` composes the establisher with an arena all of whose answers arrive, so its results do not speak of the leases this runtime drops.
- EdgeRuntimes.EdgeRuntime.Drive: requires that the ring ids left suffice for the commands outstanding, and leaves out `poll`'s draining of transport events and the parsing of ingress objects.
- `take_observations` is not modelled: observations accumulate.
- Workers.Worker.DrainAdmin: without a budget it requires that no retained command waits for an actor still to be installed, since otherwise it does not end, as `UnbudgetedAdminEndsIff` states.
- Workers.Worker.TryTick: with an ingress budget of zero it requires every retained envelope or command to be settled or its spawn request to have arrived, since otherwise the pass does not end; what other threads push arrives between phases, not inside a draining loop.
- Workers.Worker.DrainTransfers: without a budget it requires that each retained envelope can be settled, since otherwise it does not end, as `UnbudgetedDrainEndsIff` states; `DrainRetained` likewise.
- WorkerDelivery.DrainIsRun: ties messages to envelopes by their place and destination; that a control message to a suspended actor takes effect at once, instead of entering its mailbox, is modelled in `ActorSlot` and not in `Delivery`.
- `request_resume` to an actor on another worker is outside the delivery model: the code always stages it locally.
- Order of the two-stage channel is claimed for whole operations only, not for interleaved single steps.
- Type erasure, message type mismatches beyond their being consumed, statistics, tracing, snapshots and capabilities of the actor runtime.
- Non-local routing (inboxes, remote transport) is a sink.
- `blob.rs`, `bootstrap.rs`, `path.rs`, the distribution cache, and the name and group registries would add only easy members.
- Dashboard, servers, tooling, provisioning and GPU plumbing.
- Serialization of snapshots is taken to be faithful for files written in full; two stores open on one file are not modelled. A directory that has survived a crash counts as durable, and one level stands for the whole path that is created.
