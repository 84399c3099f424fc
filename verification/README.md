# IronMesh protocol models

IronMesh is a peer-to-peer messaging daemon. This project models its stateful protocols in Dafny and proves what they
keep over whole runs:

- the distance-vector mesh (`mesh.py`): convergence of the routing tables over channels that lose messages, soundness
  of every installed route, two-node loops, delivery of a frame end to end, and bounds on what relaying can amplify;
- the two-level duplicate cache and the per-peer circuit breaker of the relay (`mesh.py`), each against its full history;
- session key rotation (`handshake.py`), two ends over two FIFO channels, with rotations from both sides at once;
- the HMAC-chained audit log (`audit.py`): torn writes, any number of writers, rotation, verification across archives,
  and what an HMAC says about the entries before it;
- the connection registry and the deduplication of group broadcasts (`bridge.py`, with its mirror in `handshake.py`);
- the single-use invite ledger (`invite.py`, `trust_ops.py`).

Every object that the source updates in place is a class here, and each of its methods is proved against a function of
the old state. The theorems are about runs of those functions. `dafny verify dfyconfig.toml` checks everything.

| file | contents |
|---|---|
| `Graph.dfy` | topologies, walks, distances |
| `RoutingTable.dfy`, `MeshNetwork.dfy` | one table; the network of tables |
| `MeshStability.dfy`, `MeshLoops.dfy` | exactly what spoils converged tables; exactly what closes a two-node loop |
| `OrderedDict.dfy` | the ordered dictionary under both caches |
| `Dedup.dfy`, `Breaker.dfy`, `Router.dfy` | duplicate cache, circuit breaker, relay engine |
| `Delivery.dfy`, `Amplification.dfy` | a frame's journey; all copies of a frame |
| `Rekey.dfy`, `RekeyOverlap.dfy`, `RekeyReplay.dfy` | key rotation; rotations that overlap; sequence numbers |
| `AuditFormat.dfy`, `AuditLog.dfy` | the log as text and records; writers, rotation, verifiers |
| `AuditCrashes.dfy`, `AuditRotation.dfy`, `AuditTamper.dfy` | torn writes; rotation over whole runs; tamper evidence |
| `Registry.dfy`, `GroupDedup.dfy`, `Invite.dfy` | connection registry, group broadcasts, invites |

## Where the code falls short of its description

The models follow the code. In these places it does not do what its comments or its users expect:

- Poisoned reverse does not rule out two-node loops once announcements wait in a channel
  (`MeshLoops.CrossingAnnouncementsLoop`). A run stays free of them if and only if no announcement crosses when it is
  delivered: the sender now routes to a destination through the receiver, and the receiver would take the offer
  (`MeshLoops.LoopFreeExactly`). An announcement that is applied as it was built never crosses.
- Converged tables can be spoiled by an announcement that arrives out of order. They stay converged if and only if no
  delivery misleads a receiver about a route it has learned from the sender, and no route expires
  (`MeshStability.ConvergedExactly`).
- `_initiate_rekey` overwrites an unanswered rotation. Whatever state the ends have reached and however everything is
  then delivered, they agree if and only if the end had nothing pending, or was the higher id in a collision that the
  lower one has not won yet (`RekeyOverlap.PatienceIsExact`). The first of these an end can check by itself.
- The log writer skips torn lines so that the chain survives a crash, but `verify` stops at the first torn line: it
  accepts the file if and only if no write was torn (`AuditCrashes.VerifyRejectsExactlyTornFiles`).
- `verify_chain_across_archives` asks for the anchor only of a file that has a first entry. An empty file therefore
  cuts the log in two: the final HMAC pins all of it if and only if no file after the first is empty
  (`AuditTamper.TailPinsLog`). The writers never leave an empty file.
- A group broadcast can be suppressed for any time past the 60 seconds of its window, because a duplicate moves behind
  fresher entries with its old stamp (`GroupDedup.SuppressedPastTheWindow`, and exactly when:
  `GroupDedup.SuppressedExactly`).
- Two invites with one nonce could both be accepted if the second expires more than 3570 seconds after the first
  (`Invites.DoubleUseExactly`). With unique nonces this cannot arise. An invite shown by a peer that is already pinned
  is checked but not used up (`Invites.KnownPeerKeepsInvite`).

## Model

| member | source | states |
|---|---|---|
| RoutingTables.AnnouncementIsDistinct | mesh.py:168-187 | An announcement names each destination at most once, the own node included. |
| RoutingTables.ApplyAllElsewhere | mesh.py:789-815 | Handling an announcement leaves every destination it does not name as it was. |
| RoutingTables.ApplyAllAt | mesh.py:789-815 | The outcome for a destination that is named once is independent of every other line and of their order. |
| RoutingTables.ApplyAllKeepsSelfOut | mesh.py:93-94 | No announcement makes a node install a route to itself. |
| RoutingTables.RoutingTable.constructor | mesh.py:72-75 | A new table is empty. |
| RoutingTables.RoutingTable.Add | mesh.py:81-131 | The acceptance rule: own node refused, infinity withdraws only from the learner, same learner overwrites, another must be strictly cheaper; the flag is true exactly when a route is installed, refreshed or withdrawn. |
| RoutingTables.RoutingTable.ExpireOld | mesh.py:157-166 | Exactly the routes older than the time-to-live go, and they are the ones reported. |
| RoutingTables.RoutingTable.ToAnnouncement | mesh.py:168-187 | Every route but the one to the neighbour is told once, poisoned exactly if the neighbour taught it, after the own node at cost 0. |
| MeshNetwork.AnnouncementIsSound | mesh.py:168-187 | Costs told to a neighbour are lengths of real walks, or infinity. |
| MeshNetwork.DeliveryIsSound | mesh.py:789-815 | Handling a sound announcement keeps all routes of the network sound. |
| MeshNetwork.RoutesAreSound | mesh.py:81-166 | Soundness holds over every run in which announcements are lost, duplicated, delayed and reordered and routes expire at any time. |
| MeshNetwork.RoutesFromEmptyTables | mesh.py:81-187 | In every run from empty tables each cost is in 1..15 and is the length of a walk through the next hop, which is the learner and a neighbour; no node routes to itself. |
| MeshNetwork.ShortestSurvives | mesh.py:113-131 | No sound announcement spoils a shortest route, unless it comes from the learner and is wrong about the learner's own distance. |
| MeshNetwork.ShortestIsLearned | mesh.py:81-131 | An announcement with the exact distance gives its receiver a shortest route, whatever it held before. |
| MeshNetwork.RoundsConverge | mesh.py:683-709 | One more round takes the converged radius one hop further, with stale announcements still in flight. |
| MeshNetwork.Convergence | mesh.py:81-187 | From empty tables, after k rounds over order-keeping lossy channels every pair at distance d, 1 <= d <= min(k, 15), has a route of cost d through a neighbour at distance d - 1, for ever after. |
| MeshNetwork.TablesAreExact | mesh.py:57-131 | After fifteen rounds there is a route if and only if the destination is 1..15 hops away, and its cost is the distance. |
| MeshStability.SurvivesExactly | mesh.py:113-131 | A shortest route survives an announcement of any age exactly when its sender is not the learner, or does not name the destination, or tells its distance. |
| MeshStability.DeliveryKeepsConvergedExactly | mesh.py:789-815 | One delivery keeps the tables converged if and only if it misleads its receiver at no destination. |
| MeshStability.ExpiryKeepsConvergedExactly | mesh.py:157-166 | One expiry keeps them converged if and only if it drops no route within the radius. |
| MeshStability.ConvergedExactly | mesh.py:81-187 | Over every run with loss, duplication, delay, reordering and expiry, converged tables stay so throughout if and only if no delivery misleads and no such route expires. |
| MeshLoops.CrossesAt | mesh.py:93-131 | At one destination the receiver comes to route through a sender that routes through it exactly when the announcement crosses. |
| MeshLoops.DeliveryClosesLoopExactly | mesh.py:789-815 | One delivery of any announcement keeps two-node loops out if and only if it crosses at no destination. |
| MeshLoops.LoopFreeExactly | mesh.py:81-187 | Over every run with loss, duplication, delay, reordering and expiry, all states are free of two-node loops if and only if no announcement crosses when it is delivered. |
| MeshLoops.PromptDoesNotCross | mesh.py:180-184 | Poisoned reverse: an announcement applied to the tables it was built from does not cross. |
| MeshLoops.ExpiryKeepsLoopFree | mesh.py:157-166 | Expiry creates no mutual learners. |
| MeshLoops.PoisonedReverseExcludesTwoNodeLoops | mesh.py:93-187 | With each announcement applied as it is built, no reachable state has two nodes that are each other's learner, through refresh, withdrawal and expiry. |
| MeshLoops.CrossingAnnouncementsLoop | mesh.py:168-187 | With announcements in flight, a concrete run ends with two nodes that are each other's learner. |
| Dedup.CacheIsBounded | mesh.py:330-345 | In every reachable state there are at most sources_max buckets, at most per_source_max ids in each, and none is empty. |
| Dedup.DuplicateWasAdded | mesh.py:318-323 | A duplicate answer always means that the pair was added before. |
| Dedup.RememberedIsReported | mesh.py:330-365 | A pair within the windows of ids, sources and age is reported, however the clock behaves. |
| Dedup.CacheIsExact | mesh.py:330-469 | With a nondecreasing clock a pair is reported if and only if the full history says that it is within all three windows. |
| Dedup.TrackedAddIsIsolated | mesh.py:330-345 | An add to a tracked source changes no other source's bucket. |
| Dedup.NewSourceEvictsOldest | mesh.py:338-345 | A new source evicts at most one bucket, only at the cap, and only that of the source added to least recently. |
| Dedup.TagsAreInert | mesh.py:367-441 | On any mix of plain and transport-aware calls the cache is the plain one once transport tags are erased. |
| Dedup.DedupCache.constructor | mesh.py:303-316 | A new cache is empty, with an empty history. |
| Dedup.DedupCache.IsDuplicate | mesh.py:318-323 | Answers whether the pair is held, which for an orderly clock is whether the history remembers it. |
| Dedup.DedupCache.AddLocked | mesh.py:330-345 | The nested eviction loops leave what one more add in the history means. |
| Dedup.DedupCache.Add | mesh.py:325-328 | Adds one plain entry to the history. |
| Dedup.DedupCache.CheckAndAdd | mesh.py:347-365 | A duplicate changes nothing and anything else is recorded. |
| Dedup.DedupCache.CheckAndAddWithTransport | mesh.py:367-441 | As the plain call; a duplicate is reported with the transport and age of the last recorded sighting, cross-transport only if both transports are known and differ. |
| Dedup.DedupCache.CleanupExpired | mesh.py:443-469 | The sweep loops leave exactly the entries within the time-to-live, drop emptied sources, and count what they removed. |
| Dedup.SizeIsExact | mesh.py:471-473 | The size by which removals are counted is one for each source and id that the cache reports. |
| Breaker.BreakerAgreesWithHistory | mesh.py:508-544 | For nondecreasing times the pruned list is the window filter of every failure since the last reset, and the opening time is that of the uncleared trip of the full list. |
| Breaker.OpenMeansRecentTrip | mesh.py:534-544 | is_open is true exactly when there is an uncleared trip at most cooldown old. |
| Breaker.TripsAtThreshold | mesh.py:520-532 | A failure trips the breaker exactly when no trip is uncleared and the unpruned failures inside the window reach the threshold. |
| Breaker.CircuitBreaker.constructor | mesh.py:492-503 | A new breaker has no peers and no history. |
| Breaker.CircuitBreaker.RecordSuccess | mesh.py:515-518 | A success joins that peer's history and forgets its failures and trip; every peer's state stays that of its full history. |
| Breaker.CircuitBreaker.RecordFailure | mesh.py:520-532 | A failure joins that peer's history, prunes and trips as the history says; the callback fires exactly on a trip. |
| Breaker.CircuitBreaker.RecentOf | mesh.py:524-526 | The pruning loop keeps exactly the failures at most the window old. |
| Breaker.CircuitBreaker.Open | mesh.py:534-544 | For an orderly clock the answer is whether the peer's full history holds an uncleared trip at most the cooldown old; an older one is cleared, and every peer's state stays that of its full history. |
| Router.WireRoundTrip | mesh.py:683-689 | An announcement serialised and parsed back by the receiver's checks loses nothing. |
| Router.LineExactly | mesh.py:789-815 | What a line of any shape does to a route: a missing cost is a withdrawal, a cost that is no integer, no name or the own name is ignored, a cheaper or refreshed finite cost is installed plus one. |
| Router.ChangesCountWrites | mesh.py:789-819 | The learned count is the number of lines that are written, each judged against the table as it was. |
| Router.RouteExactly | mesh.py:635-649 | In any state, exactly which hop is chosen: never one without a connection or behind an open breaker, and the route only if the destination itself cannot be reached. |
| Router.RouteAsksOnly | mesh.py:534-544 | Looking for a route closes only breakers of the destination and the next hop, and only after their cooldown. |
| Router.FreshnessExactly | mesh.py:846-855 | A relay refuses a frame as stale if and only if it carries a timestamp more than 86400 seconds back; the frame is then neither recorded nor changed. |
| Router.NoticeGoesBack | mesh.py:959-966 | The unreachable notice goes to exactly the hop that reaches the source. |
| Router.MeshRouter.constructor | mesh.py:566-612 | A new router has an empty table, cache and breaker. |
| Router.MeshRouter.LearnLine | mesh.py:789-815 | A malformed line or one about this node changes nothing; any other is offered at one more than its cost. |
| Router.MeshRouter.HandleRouteAnnounce | mesh.py:756-824 | Malformed payloads change nothing; usable lines are offered in order, those that changed the table are counted, and a known sender is marked as a relay. |
| Router.MeshRouter.GetRoute | mesh.py:635-649 | The choice of `Router.RouteExactly`; the breakers asked have the question in their history. |
| Router.MeshRouter.SeenBefore | mesh.py:857-914 | The duplicate check with and without a transport agree on the answer; an unseen frame is recorded with its transport if that is known. |
| Router.MeshRouter.RelayMessage | mesh.py:828-966 | Exactly when each of the eight outcomes occurs, in order of the checks; then ttl, hop list, duplicate history and the next hop's breaker history. |
| Router.MeshRouter.HandOn | mesh.py:931-966 | The next hop's breaker history ends with the success or failure of the send; without a route the way back is looked for. |
| Delivery.NextHopIsCloser | mesh.py:635-649 | In a converged mesh the chosen next hop is a connected neighbour one hop closer to the destination. |
| Delivery.RelayedHome | mesh.py:857-951 | A fresh frame at a relay d hops out arrives if and only if it may live that long, along a shortest path whose nodes sign its hop list. |
| Delivery.EndToEndDelivery | mesh.py:635-957 | A fresh frame for a destination at distance d arrives if and only if d <= ttl + 1, after exactly d - 1 relays, its hop list the interior of a shortest path; otherwise it expires after ttl relays. |
| Delivery.DeliveryAfterRounds | routing.py:1025-1055 | From empty tables, d rounds of announcements are enough for that. |
| Amplification.CopiesStayBounded | mesh.py:916-935 | In a network that duplicates, delays and reorders copies, ttl plus hop-list length is constant along each copy's relays and no hop list repeats a node. |
| Amplification.RelaysWithinTtl | mesh.py:916-935 | No copy is relayed more often than its initial ttl. |
| Amplification.ForwardsOnce | mesh.py:857-914 | While nodes remember what they forwarded, no node forwards one message twice. |
| Amplification.NetworkRelaysOncePerNode | mesh.py:857-957 | Then the whole network relays one message at most once per node, however many copies circulate. |
| Rekey.PeerSession.constructor | handshake.py:773-776 | A new session holds the handshake's key, nothing retained and nothing pending, and counts from one. |
| Rekey.PeerSession.Initiate | handshake.py:123-138 | The request carries the new public half under the current key and the next number; an unanswered one is overwritten. |
| Rekey.PeerSession.NextSequence | protocol.py:1420-1433 | Each frame takes the next number. |
| Rekey.PeerSession.CheckReplay | protocol.py:1181-1221 | A frame passes exactly if its number is above the mark of the key that decrypted it and at most 2^48; the mark then becomes its number. |
| Rekey.PeerSession.BeginTransition | routing.py:236-261 | The retiring key and its replay mark replace whatever was retained, for thirty seconds. |
| Rekey.PeerSession.HandleRequest | handshake.py:140-202 | The collision rule, the answer under the retiring key and its number, the switch, and fresh number spaces exactly when there is a switch; a request without a key changes nothing. |
| Rekey.PeerSession.HandleResponse | handshake.py:204-239 | Exactly the valid answer to the pending request completes a rotation, with fresh number spaces; anything else changes nothing. |
| Rekey.InvStep | handshake.py:123-239 | Every data frame, delivery and harmless request keeps the invariant that ties what both ends wait for to the messages in the two channels. |
| Rekey.RekeyAgreement | handshake.py:123-239 | Over all interleavings the rotation counts differ by at most one, and whenever no rotation message is in flight both ends hold the same key and count and nothing is pending. |
| Rekey.RekeyLosesNoFrame | handshake.py:182-197 | Whatever comes to the head of a channel is under a key its receiver holds as current or as the one retained, for any number of rotations in either direction. |
| Rekey.RotationsComplete | handshake.py:123-239 | From every reachable state deliveries alone come to rest: in every order there is a bound on them, and when the channels are empty both ends agree. |
| RekeyOverlap.OvertakenByOther | handshake.py:140-202 | Once the other end has more moves coming than an end can make, no delivery changes that. |
| RekeyOverlap.HarmDooms | handshake.py:123-138 | A request by an end with another one pending dooms the session, except by the higher id in a collision that is still open. |
| RekeyOverlap.PatienceIsExact | handshake.py:123-239 | In every state reached by harmless requests, data and deliveries, and for every order in which everything is delivered afterwards, a request under a new id ends in agreement if and only if it was harmless: nothing pending, or the higher id in an open collision. |
| RekeyReplay.HeadIsAccepted | routing.py:196-221 | A frame is checked against the mark of its own epoch, current or retained, and passes. |
| RekeyReplay.GuardRefusesNothing | handshake.py:182-198 | In every run of harmless requests, data and deliveries, whatever is at the head of a channel has a number above the receiver's mark for the key that decrypts it, and no guard has refused a frame. |
| RekeyReplay.ReplayIsRefused | protocol.py:1206-1212 | A frame that was delivered once is above no mark any more, in every state of every further run in which the receiver still holds its key. |
| AuditFormat.AppendAddsOneRecord | audit.py:352-376 | A write adds exactly its own record, also after a torn line. |
| AuditFormat.CutAppend | audit.py:352-376 | A write cut after any byte adds nothing, one malformed line, or its own record. |
| AuditFormat.VerifyAcceptsChains | audit.py:425-472 | verify accepts exactly the unbroken chains from the genesis and then counts every record. |
| AuditFormat.FirstBadBreaksChain | audit.py:434-470 | For a rejected file the reported line, which is also the count, is that of the first record at which the chain breaks. |
| AuditFormat.VerifyAcceptsLinked | audit.py:474-554 | The check across archives accepts exactly the files that are chains and are anchored to each other where they have a first entry, and then counts every record. |
| AuditFormat.FirstBadUnlinks | audit.py:512-552 | For rejected files the reported line is the count of all records up to the first at which the log stops being linked, by its seal or as a missing or wrong anchor; all before it were accepted. |
| AuditLogs.ShiftedAt | audit.py:400-415 | Where each file is after a rotation, with gaps between archives. |
| AuditLogs.RotatesAtThreshold | audit.py:380-423 | At the size threshold and not before, the log just written becomes the first archive and one anchor to it the live log. |
| AuditLogs.TailIsLastUsable | audit.py:245-283 | The tail is the HMAC of the last record with one of full length, unless JSON that is no object follows it; torn lines make no difference. |
| AuditLogs.AuditLog.constructor | audit.py:211-243 | An instance resumes from the tail on disk; a threshold below 1024 bytes is raised to it. |
| AuditLogs.AuditLog.ReadLastHmac | audit.py:245-283 | The tail is the last line with a usable HMAC. |
| AuditLogs.AuditLog.TailByWalkingBack | audit.py:264-273 | Torn lines are skipped; a line that is JSON but no object restarts the chain. |
| AuditLogs.AuditLog.WriteEntry | audit.py:315-378 | One terminated line, sealed over the given tail, set off from a torn line. |
| AuditLogs.AuditLog.Shift | audit.py:400-415 | The downward renaming loop leaves each file one place higher. |
| AuditLogs.AuditLog.MaybeRotate | audit.py:380-423 | Below the threshold nothing happens; else the new live log holds one anchor to the old tail. |
| AuditLogs.AuditLog.Log | audit.py:290-313 | The disk after a call depends on the disk before it and not on what the instance remembers. |
| AuditLogs.AuditLog.Verify | audit.py:425-472 | The loop computes validity, count and first bad line of the record-level check. |
| AuditLogs.AuditLog.CheckFile | audit.py:514-541 | One file of the check across archives: seal first, then the anchor if one is due. |
| AuditLogs.AuditLog.ListFiles | audit.py:493-500 | The files that exist, oldest first. |
| AuditLogs.AuditLog.VerifyChainAcrossArchives | audit.py:474-554 | The loops compute the check over all files found, with its global count. |
| AuditCrashes.ChainSurvivesCrashes | audit.py:245-376 | After any writes to one file, any of them cut after any byte, the parseable lines in order form one unbroken chain from the genesis. |
| AuditCrashes.VerifyRejectsExactlyTornFiles | audit.py:425-472 | verify accepts such a file if and only if no write was cut strictly inside its line. |
| AuditRotation.DiskIsWindow | audit.py:380-423 | The disk always holds exactly the newest files, at most six, of a log that never drops any. |
| AuditRotation.RotationKeepsTheChain | audit.py:290-554 | After any calls by any number of instances with any thresholds, both verifications accept the disk with the exact counts. |
| AuditRotation.OnlyOldestFilesAreLost | audit.py:290-423 | What was logged is the lost files' events followed by the kept ones without anchors, in order; only whole files beyond five archives and the live log are lost. |
| AuditTamper.SameTailSameFile | audit.py:285-288 | Two logs that verify accepts and that end in the same HMAC are identical entry for entry, unless two of their own MAC inputs collide. |
| AuditTamper.EmptyFileUnpins | audit.py:529-535 | For every accepted log with an empty file after the first there is another accepted one with the same final HMAC and a different start. |
| AuditTamper.TailPinsLog | audit.py:474-554 | For an accepted log, all accepted logs with the same final HMAC agree with it file by file from the end, if and only if it has no empty file after the first. |
| AuditTamper.WrittenLogsArePinned | audit.py:290-554 | What the writers leave is pinned by its final HMAC in that sense. |
| Registry.ConnectionRegistry.constructor | bridge.py:570-573 | A new registry is empty. |
| Registry.ConnectionRegistry.Register | bridge.py:1669-1703 | Admits, upgrades or refuses, and closes exactly the connection an upgrade replaces. |
| Registry.ConnectionRegistry.Unregister | bridge.py:1821-1840 | Clears entry, status and key if and only if the connection is the registered one. |
| Registry.ReachableIsCoherent | bridge.py:1672-1702 | In every reachable state a peer is online, with a key and its connection's transport, exactly when a connection of its own is registered. |
| Registry.OpenAreRegistered | handshake.py:811-837 | Whatever the interleaving, admitted connections that are neither closed by an upgrade nor torn down are exactly the registered ones, at most one for a peer. |
| Registry.KeyIsTheOwners | bridge.py:1628-1700 | In every run a registered connection's peer holds the key of that connection's own last admitted handshake, upgrades included. |
| Registry.KeepsUnlessDisplaced | bridge.py:1676-1697 | One event takes a registration away exactly if it is the owner's teardown or a WebSocket for a peer held over RNS; nothing else changes its status or key. |
| Registry.LosersLeaveNoTrace | handshake.py:893-906 | After every run the teardown of a connection that was refused, displaced or already torn down changes nothing. |
| Registry.OwnershipIsKeptExactly | bridge.py:1672-1840 | Over any further run a connection keeps its registration, status and its own key if and only if its own handler has not ended and no WebSocket has displaced an RNS link. |
| Registry.RaceHasOneWinner | handshake.py:811-837 | Of any number of competing handshakes the first WebSocket wins, or the first of all if every one runs over RNS, and the session key is the one it negotiated. |
| GroupDedup.PopStaleKeeps | bridge.py:2145-2152 | Popping stale entries from the front keeps exactly those with a fresh one at or before them. |
| GroupDedup.HandledAtMostOnce | bridge.py:2125-2165 | A payload is not handled again within 60 seconds while fewer than 10,000 other payloads have arrived since it was last seen. |
| GroupDedup.MapIsBounded | bridge.py:2160-2164 | Whatever the clock does, the map never ends a call above its cap and holds the time of each payload's last handling. |
| GroupDedup.SuppressedExactly | bridge.py:2145-2158 | Whatever the clock does, a payload is suppressed if and only if it is in the map and it, or one not seen after it, was handled within the window. |
| GroupDedup.SuppressedPastTheWindow | bridge.py:2153-2158 | For every time there is a run in which a payload last handled at 0 is still suppressed after it. |
| GroupDedup.GroupReceiver.constructor | bridge.py:2140-2143 | A new receiver has seen nothing. |
| GroupDedup.GroupReceiver.DropStale | bridge.py:2147-2152 | The loop stops at the first entry that is not stale. |
| GroupDedup.GroupReceiver.OnGroupMessage | bridge.py:2125-2165 | An empty payload is ignored; any other is recorded and handled exactly as the history says. |
| Invites.InviteLedger.constructor | invite.py:361-385 | A restart loads what was saved, pruned by the current clock. |
| Invites.InviteLedger.Prune | invite.py:387-397 | Drops exactly the entries whose token expired more than an hour ago. |
| Invites.InviteLedger.IsSpent | invite.py:420-422 | Whether the nonce is on record. |
| Invites.InviteLedger.MarkSpent | invite.py:424-433 | Memory is updated even if the file is not; the file only as a whole. |
| Invites.InviteLedger.Redeem | trust_ops.py:664-720 | Validate, check, mark, pin: accepted only if every one of them succeeds. |
| Invites.AcceptedIsRemembered | invite.py:387-433 | After an acceptance its nonce stays on record, in memory and on disk, through restarts and pruning, until its token has expired for good. |
| Invites.AcceptedTwiceNeedsLaterExpiry | invite.py:163-165 | Two accepted tokens with one nonce expire more than retention less skew apart. |
| Invites.DoubleUseExactly | invite.py:387-433 | Some run accepts both of two tokens with one nonce if and only if the second expires more than 3570 seconds after the first. |
| Invites.EachNonceIsAcceptedOnce | invite.py:348-440 | With unique nonces every nonce is accepted at most once, over any run with restarts, failed saves and failed pins. |
| Invites.UnusedInviteIsAccepted | trust_ops.py:805-853 | A genuine token whose nonce was never marked is accepted from a new peer exactly until its expiry plus the skew. |
| Invites.KnownPeerKeepsInvite | trust_ops.py:684-716 | An invite shown by a peer that is already pinned is not accepted and not used up. |
| Invites.BurnedInviteIsRefused | trust_ops.py:694-716 | Once a presentation has reached the mark, saved, pinned or not, the nonce is refused in that process, and after restarts if it was saved, unless a token outlives the first by 3570 seconds. |

## Left out

- Cryptography (NaCl, X25519, Ed25519, HMAC, SHA-256) is abstract: Diffie-Hellman is any pair of functions that agree on shared keys; the MAC is any 64-character function that never gives the genesis, and collisions are excluded only among the entries of the logs compared.
- JSON text is abstract: a rendered line has no newline, parses back, and no proper prefix of it parses. Characters stand for bytes, since the log is ASCII.
- Clocks, floats and random sources are parameters; time is in whole seconds.
- Files that cannot be read, renamed or written, and a missing file lock, are not part of the audit model; neither is a crash inside `_maybe_rotate`.
- Restored routing tables (`RoutingTable.load`) are not modelled: runs start from empty tables, or from any sound state where a lemma takes one.
- Count-to-infinity and loops of three or more nodes after a link is lost: the protocol does not exclude them, and the topology is fixed here.
- How an unreachable notice travels on, telemetry and audit events of the relay, and the origin's store-and-forward queue.
- MeshNetwork.Convergence: assumes that channels, which may lose messages, keep their order, and that nothing expires in the run; what happens without these assumptions is `MeshStability.ConvergedExactly`.
- MeshNetwork.TablesAreExact: the same assumptions.
- Router.MeshRouter.HandleRouteAnnounce: reads the clock once for the whole announcement; the time of the last announcement and the scheduled save are left out.
- Router.MeshRouter.RelayMessage: a failing send is an input; how the daemon's `_send_frame` fails is not part of this model.
- Delivery.EndToEndDelivery: every send works and nothing else changes while the frame travels.
- Rekey.RekeyAgreement: requests that are not harmless are excluded, because the code does not guard against them and agreement then fails (`RekeyOverlap.PatienceIsExact`); handlers are atomic, channels keep their order, and the 30-second grace of the retained key does not run out.
- Rekey.RekeyLosesNoFrame: the same assumptions.
- RekeyOverlap.PatienceIsExact: rekey ids are new; with a repeated id and secret the second request would be a copy of the first.
- The trust gate; the replay guard's check of a frame's age, and its window of numbers, which the mark makes redundant.
- RekeyReplay.GuardRefusesNothing: assumes that no end sends 2^48 frames under one key, and that a new key differs from the one it replaces.
- Registry.ReachableIsCoherent: the heartbeat and send failures also mark peers offline, without the lock and from what they read before waiting; those are not part of the model.
- Registry.ConnectionRegistry.Register: rate limiters, replay resets and address books are left out; awaiting the close of the replaced connection happens under the lock and is one step with the rest.
- GroupDedup.GroupReceiver.OnGroupMessage: the operator's callback and the counters are left out; payloads are told apart by digest.
- Invites.InviteLedger.constructor: a corrupt ledger file makes the code raise, which refuses every join; that branch is not modelled.
- Parsing and issuing invites, the joiner's side, and revoked peers.
- Configuration, dashboard, discovery, LXMF, key storage, backup, hooks, agent SDK, federation policy, capabilities and conversations: wrappers and I/O, or properties that one branch settles.
