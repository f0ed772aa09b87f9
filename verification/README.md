# Port forwarding relay: a verified model

A model in Dafny of the parts of go-port-forward that are hard to get right: shared player sockets,
batched UDP, tunnel sessions and their isolation, the NetherNet data plane, paged logs and sliding
windows, quotas and their migration, and the guard over the kernel's return path.  `dafny verify
dfyconfig.toml` checks everything.

How the files fit together:

- `TupleRegistry.dfy` is the registry of player sockets as a machine of atomic steps, one per critical
  section or system call, over any number of actors; `TupleDeaths.dfy` is what it keeps whatever happens
  to its sockets, `UdpForwarder.dfy` puts forwarders and their sessions on top, and `UdpService.dfy` is
  what a player gets from them.
  `TupleRegistryClass.dfy` and `UdpForwarderClass.dfy` are the objects, each method proved equal to its
  step.
- `Gso.dfy`, `BatchIo.dfy`, `BatchReader.dfy`: segment arithmetic, the batch writer and the batch reader
  over their slot arrays.
- `Ipv4.dfy`, `AccessCodes.dfy`, `PeerIndex.dfy`, `Isolation.dfy`, `TunnelServer.dfy`: address allocation,
  the access-code bucket, the session index, packet filtering, and runs that put them together around the
  handshake worker.  `RoutePush.dfy`: replication of return routes to clients.
- `Multiplexer.dfy`, `MultiplexerTraffic.dfy`, `MultiplexerStop.dfy`, `MultiplexerClass.dfy`: the NetherNet
  data plane, its counters, session sink and registry.  `Stun.dfy`, `MultiplexerStun.dfy`: the username
  parser and packets as bytes.  `Sdp.dfy`, `SdpStability.dfy`, `SdpLines.dfy`: the answer rewriter.
- `ConnLog.dfy`, `RateLimit.dfy`, `EmailCodes.dfy`: merged paging and trimming, the limiter, e-mailed codes.
- `Quota.dfy`, `GroupAdmin.dfy`, `GroupRaces.dfy`, `Migration.dfy`: quota resolution, administration by
  whole edits and by interleaved transactions, schema migration.
- `ReturnPath.dfy`, `ReturnPathClass.dfy`: the guard over sysctls, routing and iptables chains.

Objects that the source shares by pointer (registry entries, handles, peer sessions, multiplexer sessions,
code entries) are records named by an identity, in maps or sequences that the enclosing object updates; two
pointers are the same object exactly when the identities are equal.

Where the code does not do what its comments say, the model follows the code, and for a property that
fails a lemma exhibits a run and another proves exactly when it holds:

- `release` deletes by key without an identity check, against the invariant at
  internal/forward/tuple_registry.go:53-59 (`TupleSpec.RunKeepsInvIff`, `UdpSpec.WRunKeepsInvIff`,
  `TupleSpec.StaleReleaseBreaksExclusivity`); even so nothing stays open in the end
  (`TupleDeaths.NothingLeaks`, `UdpSpec.NothingHeldDespiteDeaths`).
- The address index deletes without an identity check, so a session behind a shared port can become
  unreachable (`PeerIndex.AddrCompleteIffNeverWarned`, `PeerIndex.SharedPortLosesSession`).
- A tunnel address handed to `CreateAccessCode` is not checked against those in use
  (`AccessCodes.DistinctIffNoClash`).
- Saving an access code writes back a record read in another transaction, fingerprint included
  (`TunnelSpec.FpRulesIff`, `TunnelSpec.OvertakenSaveFreesCode`).
- The comment at internal/tunnelapp/tunnelapp.go:105 says a tunnel limit of 0 means no limit; the code
  refuses at 0 and takes a negative value for no limit (`TunnelSpec.ZeroLimitKeepsOffline`).
- Forgetting a push record runs after the new session is installed (`RoutePush.ConvergesIffNoSlip`,
  `RoutePush.LateForgetLeaks`, `RoutePush.LeakStays`).
- A multiplexer accepts registrations after it stopped (`MuxStop.StopPairsAllIff`,
  `MuxStop.RegisterAfterStopStaysOpen`).
- A page's offset counts unreadable rows and its limit does not (`ConnLog.PagesCoverIff`).
- STUN attributes behind the declared message length are parsed (`Stun.ExtractInvertsEncode`).
- An answer without a usable candidate may change again when it is rewritten a second time
  (`SdpStability.IdempotentIff`, `Sdp.WithoutTemplateNotStable`).
- The recorded default group can be deleted (`GroupAdmin.RecordedDefaultIff`,
  `GroupAdmin.DefaultMayDangle`, `GroupRaces.RecordedKeptIff`, `GroupRaces.NamedKeptIff`), and settings and
  group edits read, check and write in separate transactions (`GroupRaces.WithinCeilingIff`,
  `GroupRaces.DefaultKeptIff`, `GroupRaces.InterleavedEditsEscape`).
- The policy-routing rule is recognised by the text `lookup 7947` alone (`ReturnPath.OurRuleIff`).
- The deletions before the INPUT chain is locked are allowed to fail, and take out one copy each: an
  ESTABLISHED rule that survives defeats the repair (`ReturnPath.RunOrderIff`,
  `ReturnPath.FailedDeletionHidesLoss`, `ReturnPath.LockOrderedIff`, `ReturnPath.LeftoverHidesLoss`).
- The comment at internal/nethernet/gateway.go:518-519 keeps the first loopback candidate's port in
  reserve; the code keeps that of any candidate whose address is no literal one, too, so the data can go to
  another port than the answer's (`Sdp.DataPortIsTemplates`, `Sdp.NamedCandidateTakesData`).
- The limiter reads the clock before taking its lock (`RateLimit.DecidesLikeFullIff`,
  `RateLimit.OldReadingMisjudged`).

Clocks are integers, and readings may come in any order unless a result says otherwise.

## Model

| member | source | states |
|---|---|---|
| `TupleSpec.RunKeepsInv` | internal/forward/tuple_registry.go:53-59 | safety over every interleaving of check, bind, commit, attach, release, dead sockets and close: the registry invariant is kept, for the code as it is on runs without a dead socket, and for all runs when `release` checks identity; a closed table stays empty |
| `TupleSpec.RunsFromStart` | internal/forward/tuple_registry.go:100-243 | read off every state reachable from the empty registry: one open socket per player tuple, committed table entries are open, removed ones closed, `ready` closed exactly once, `refs` is the number of unreleased handles, nothing after close |
| `TupleSpec.InvGivesOneSocket` | internal/forward/tuple_registry.go:53-59 | the invariant rules out two open sockets on one tuple, including those of binds still in flight |
| `TupleSpec.Quiescent` | internal/forward/tuple_registry.go:216-243 | with all handles released and no bind in flight the table is empty and no socket is open |
| `TupleSpec.CheckKeepsInv` | internal/forward/tuple_registry.go:100-129 | first critical section of acquire: joins exactly a committed entry (one more handle, one more reference, nothing else), waits exactly on a placeholder, refuses exactly a new key on a closed table and reserves a placeholder for any other; the invariant is kept |
| `TupleSpec.CommitKeepsInv` | internal/forward/tuple_registry.go:131-167 | second critical section: commits with the first handle, withdraws the placeholder after a failed bind, or finds it gone and hands the socket back; `ready` is closed, the invariant kept |
| `TupleSpec.AttachKeepsInv` | internal/forward/tuple_registry.go:188-214 | attaching subscribes the handle once, in its own entry's list for its backend |
| `TupleSpec.ReleaseKeepsInvIff` | internal/forward/tuple_registry.go:216-243 | the delete by key without identity check keeps the invariant if and only if no other entry has taken the key by the last release |
| `TupleSpec.RunKeepsInvIff` | internal/forward/tuple_registry.go:53-59 | the code as it is, over every run with any number of dead sockets: the registry invariant holds at every moment if and only if no last reference is released after another entry took its key |
| `TupleSpec.ReleaseKeepsInv` | internal/forward/tuple_registry.go:216-243 | with the identity check, or while no socket has died, every release keeps the invariant |
| `TupleSpec.StaleReleaseBreaksExclusivity` | internal/forward/tuple_registry.go:239-242 | the concrete run, dead socket then fresh acquire then stale release, after which one tuple has two open sockets |
| `TupleSpec.DropDeadKeepsInv` | internal/forward/tuple_registry.go:321-335 | dropping a dead socket's entry, which does check identity, keeps the invariant |
| `TupleSpec.CloseKeepsInv` | internal/forward/tuple_registry.go:339-366 | close withdraws placeholders, closes committed entries and keeps the invariant |
| `TupleDeaths.RunHeld` | internal/forward/tuple_registry.go:53-61 | over every run of the code as it is, dead sockets and stale releases included: `refs` is the number of unreleased handles, `ready` is never closed twice, a socket is open only for its creator or a handle on it, subscriptions are in step |
| `TupleDeaths.NothingLeaks` | internal/forward/tuple_registry.go:216-243 | so from the empty registry, whatever happened in between: with all handles released and no bind in flight the table is empty and no socket is open |
| `TupleRegistry.Registry.constructor` | internal/forward/tuple_registry.go:90-96 | an empty registry |
| `TupleRegistry.Registry.AcquireLocked` | internal/forward/tuple_registry.go:100-129 | the first critical section on any valid object: a handle exactly if the key has a committed entry, then unreleased, unsubscribed, the caller's, on that very entry, with `refs` one more and nothing else changed; the placeholder to wait for, a refusal or a reservation exactly in the other three cases |
| `TupleRegistry.Registry.CommitLocked` | internal/forward/tuple_registry.go:131-167 | the second critical section on the object: what each of its three outcomes changes, in full |
| `TupleRegistry.Registry.RemoveFirst` | internal/forward/tuple_registry.go:216-238 | the slice splice removes exactly the first occurrence |
| `TupleRegistry.Registry.AttachLocked` | internal/forward/tuple_registry.go:188-214 | attach on the object equals the modelled step |
| `TupleRegistry.Registry.ReleaseLocked` | internal/forward/tuple_registry.go:216-243 | release on any registry object: a released handle changes nothing; else it is marked, unsubscribed and `refs` is one less, and the last one closes the socket and deletes whatever stands under the key; the invariant is kept exactly when that is not stale |
| `TupleRegistry.Registry.DropDeadEntry` | internal/forward/tuple_registry.go:321-335 | exactly the dead entry leaves the table, and its socket is closed exactly then |
| `TupleRegistry.Registry.Subscribers` | internal/forward/tuple_registry.go:279-303 | the snapshot taken by `deliver` lists every unreleased handle on that entry subscribed to that backend, once each, and no other |
| `TupleRegistry.Registry.Close` | internal/forward/tuple_registry.go:339-366 | the closing loop over the table: empty and closed afterwards, exactly the committed entries' sockets closed, handles untouched; equal to the one-step close |
| `UdpSpec.WRunKeepsInv` | internal/forward/udp.go:324-445 | every interleaving of any number of forwarders, in-flight calls, cleanup ticks and Stop keeps: each unreleased handle is in exactly one place, sessions and handles agree, counters agree outside the Stop loop |
| `UdpSpec.DeliverReachesSessions` | internal/forward/tuple_registry.go:279-303 | in every reachable state, stale releases or not, a backend packet goes once each to exactly the live sessions on that entry whose rule targets its source |
| `UdpSpec.EverySessionIsReached` | internal/forward/tuple_registry.go:279-303 | conversely every live session is reached through the one shared socket of its player |
| `UdpSpec.NothingHeldAfterStop` | internal/forward/udp.go:143-159 | after all forwarders stopped and calls settled: no session, no unreleased handle, no entry, no open socket, active is 0 |
| `UdpSpec.WRunKeepsInvIff` | internal/forward/tuple_registry.go:216-243 | forwarders, calls, ticks and stops over the code as it is, sockets dying at will: the invariant holds at every moment if and only if no release is stale |
| `UdpSpec.NothingHeldDespiteDeaths` | internal/forward/udp.go:143-159 | in every run of the code as it is, however many sockets died and however stale a release, nothing is held after all stops and settled calls |
| `UdpSpec.SessionsOverRuns` | internal/forward/udp.go:293-315 | over every run from a fresh start: active equals the number of sessions, stopped forwarders hold nothing, no handle leaks; and one socket per tuple while no socket dies or with the identity check |
| `UdpSpec.SettleWins` | internal/forward/udp.go:363-403 | a call that wins the second look becomes the one session of its player on that rule, and no longer holds its handle itself |
| `UdpSpec.SettleLoses` | internal/forward/udp.go:351-362 | a call that loses keeps its handle only until it is discarded |
| `UdpService.SecondRuleShares` | internal/forward/udp.go:324-403 | from every reachable state: a call for a player whose socket another rule uses, made by a rule that has no session for it, ends in a session on that very socket; packets from its target reach it there, and every rule that had the player on that socket still is reached |
| `UdpService.FirstRuleOpens` | internal/forward/tuple_registry.go:100-167 | from every reachable state of an open registry: a call for a player nobody serves, whose bind works, ends in a session on the player's own open socket |
| `UdpForwarder.Forwarder.Settle` | internal/forward/udp.go:351-403 | becomes the session exactly if none exists and no stop has begun, else releases its handle; the whole new state of table and registry |
| `UdpForwarder.Forwarder.GiveBack` | internal/forward/udp.go:428-437 | discarding an unused upstream is exactly a release |
| `UdpForwarder.Forwarder.CleanupTick` | internal/forward/udp.go:293-315 | exactly the sessions idle beyond the timeout go, and of the sessions' handles exactly theirs are released; active follows |
| `UdpForwarder.Forwarder.Stop` | internal/forward/udp.go:143-159 | all sessions go, all their handles are released, active is 0 |
| `Gso.MergeThenSplit` | internal/tunnelapp/gso.go:30-90 | for every list of packets accepted one after another, cutting the concatenation at its control size returns those packets |
| `Gso.AppendCut` | internal/tunnelapp/gso.go:30-62 | one accepted merge adds exactly one piece to the cut and stays within the byte bound |
| `Gso.CutLosesNothing` | internal/tunnelapp/gso.go:68-90 | cutting any message at any segment size loses, adds and reorders no byte |
| `Gso.AcceptedShape` | internal/tunnelapp/gso.go:30-55 | all segments but the last have the first one's length, the last is no longer, and the run is closed exactly after a short one |
| `Gso.AcceptedIff` | internal/tunnelapp/gso.go:30-62 | packets are accepted one after another exactly if none is empty, all but the last are as long as the first, the last is no longer, and several together stay within 32768 bytes |
| `Gso.SegmentInBounds` | internal/tunnelapp/gso.go:68-90 | every segment index yields a non-empty range inside the message |
| `BatchIo.Drive` | internal/tunnelapp/tunnelapp.go:1190-1211 | over any sequence of enqueues and flushes, the messages sent, cut at their control sizes, are the fitting packets, in order, once each, to the right address and port |
| `BatchIo.BatchWriter.Add` | internal/tunnelapp/udpio.go:246-282 | the slot arrays gain exactly the packet, merged into the last message whenever that may take it, or in a slot of its own; packets that are empty or larger than a slot go nowhere; refused only when full |
| `BatchIo.BatchWriter.Flush` | internal/tunnelapp/udpio.go:284-308 | hands out exactly the pending messages and empties the batch |
| `BatchIo.BatchWriter.Enqueue` | internal/tunnelapp/tunnelapp.go:1190-1200 | flushes when full; the second attempt never fails, so no packet that fits is dropped here |
| `BatchIo.MergePackets` | internal/tunnelapp/udpio.go:256-270 | merging a packet into a message appends it to the packets the message stands for |
| `BatchReader.Reader.Read` | internal/tunnelapp/udpio.go:144-187 | returns the next owed packet and leaves the rest owed, across batch refills |
| `BatchReader.Reader.Buffered` | internal/tunnelapp/udpio.go:189-198 | whoever sees 0 has been given everything of the batch, and the count never exceeds what is left when no message is skipped |
| `BatchReader.Reader.Refill` | internal/tunnelapp/udpio.go:150-168 | called only on a used-up batch, so undelivered data is never overwritten |
| `BatchReader.DrainAll` | internal/tunnelapp/udpio.go:144-187 | reading to the end hands out every segment of every non-empty message, in order, once each |
| `BatchReader.AcrossTheWire` | internal/tunnelapp/udpio.go:144-308 | what a reader owes for the messages a writer flushed is what was queued |
| `BatchReader.OwedAt` | internal/tunnelapp/gso.go:80-90 | the k-th packet of a message is its k-th slice |
| `PeerIndex.RunFinds` | internal/tunnelapp/registry.go:190-297 | over every run of upsert, evict and reap: what a lookup finds is current and under its own key, and with distinct tunnel addresses the tunnel index is a bijection with the online codes |
| `PeerIndex.AddrCompleteIffNeverWarned` | internal/tunnelapp/registry.go:190-297 | over every run: each online session can be found by its address at every moment if and only if the port-reuse warning never fires |
| `PeerIndex.UpsertAddrIff` | internal/tunnelapp/tunnelapp.go:803-812 | installing keeps the address index complete exactly when the address is not already another code's, the test that is only logged |
| `PeerIndex.UpsertTunIff` | internal/tunnelapp/registry.go:190-206 | the same for tunnel addresses |
| `PeerIndex.UnsharedIsFound` | internal/tunnelapp/registry.go:190-297 | session by session, over every run: an online code whose address no handshake of another code ever used is found by that address, whatever was evicted, reaped or replaced |
| `PeerIndex.EvictKeepsTunEntry` | internal/tunnelapp/registry.go:263-265 | the guarded delete hides nobody |
| `PeerIndex.SharedPortLosesSession` | internal/tunnelapp/registry.go:262-262 | a concrete run in which an online session loses its address entry |
| `PeerIndex.ReapSound` | internal/tunnelapp/registry.go:274-297 | reaping removes exactly the listed codes and keeps lookups sound |
| `PeerIndex.Registry.Install` | internal/tunnelapp/registry.go:190-206 | the new session under its code, its address and its tunnel address, its predecessor's entries gone and returned, `lastSeen` set; nothing else changes |
| `PeerIndex.Registry.EvictCode` | internal/tunnelapp/registry.go:252-268 | the code is gone and returned; its address entry goes whoever has it, its tunnel entry only if it is its own |
| `PeerIndex.Registry.ReapIdle` | internal/tunnelapp/registry.go:274-297 | exactly the sessions idle beyond the threshold go |
| `PeerIndex.Registry.CountByUser` | internal/tunnelapp/registry.go:228-236 | counts exactly the user's online codes |
| `Ipv4.AllocTunIP` | internal/storage/user.go:351-373 | the least address of the pool that is unused and not network, broadcast or gateway; fails exactly when there is none or the pool is invalid |
| `Ipv4.LastAddr` | internal/storage/user.go:376-383 | the bit-setting loop over four bytes yields the broadcast address of every prefix |
| `Ipv4.BroadcastFormsAgree` | internal/tunnelapp/tunnelapp.go:1053-1061 | the 32-bit form equals the byte-wise loop's result for every prefix shorter than 32, masked or not |
| `Ipv4.ContainsRange` | internal/storage/user.go:351-373 | a prefix contains exactly the addresses from network to broadcast |
| `Ipv4.ContainsIsBlock` | internal/storage/user.go:376-383 | in numbers: a prefix of n bits is the block of 2^(32-n) addresses around its own, from the network to the broadcast address |
| `AccessCodes.CreateDistinctIff` | internal/storage/accesscode.go:131-181 | a create keeps tunnel addresses distinct if and only if the caller did not hand in an address in use, which is not checked |
| `AccessCodes.DistinctIffNoClash` | internal/storage/accesscode.go:131-341 | over every run of all bucket operations: addresses stay distinct if and only if no create clashed |
| `AccessCodes.AllocatedRunsDistinct` | internal/users/accesscode.go:67-113 | the panel's creates leave the address to the allocator, so its runs keep all addresses distinct |
| `AccessCodes.QuotaOverRuns` | internal/storage/accesscode.go:154-156 | no user ever owns more codes than the largest limit its creates carried |
| `AccessCodes.CodeStore.CreateAccessCode` | internal/storage/accesscode.go:131-181 | the transaction's outcome and new contents for every input, including quota, invalid pool and exhausted pool |
| `AccessCodes.CodeStore.DeleteAccessCodesByUser` | internal/storage/accesscode.go:214-239 | removes exactly the user's codes and counts them |
| `AccessCodes.CodeStore.BindAccessCodeDevice` | internal/storage/accesscode.go:246-276 | binds a free code, refreshes the same device, refuses another |
| `Isolation.NoClientReachesClient` | internal/tunnelapp/tunnelapp.go:1140-1187 | a packet admitted from one client is sealed for no client, whatever the table holds |
| `Isolation.ReplyReturns` | internal/tunnelapp/tunnelapp.go:1140-1187 | the reply to an admitted packet goes back to its session exactly if it is short enough and comes from outside or from the gateway |
| `Isolation.AdmitEncoded` | internal/tunnelapp/tunnelapp.go:1032-1049 | on every encoded IPv4 packet, header lengths 20 to 60: dropped as spoofed exactly if its source is not the session's own, as cross-tunnel exactly if its destination is inside and not the gateway, or is the gateway and the packet is TCP with SYN set and ACK clear; else admitted |
| `Isolation.RouteEncoded` | internal/tunnelapp/tunnelapp.go:1140-1187 | and outbound: sealed for the session at its destination exactly if there is one, it does not come from inside except from the gateway, and it fits that session |
| `TunnelSpec.RunKeepsInv` | internal/tunnelapp/tunnelapp.go:781-919 | every run of handshakes, administration, eviction and reaping keeps: session addresses are in the pool and not the gateway, match the code's own, and existing codes are reached by them |
| `TunnelSpec.RunsIsolate` | internal/tunnelapp/tunnelapp.go:652-703 | over every run, a packet admitted from any online session is never sealed for a client, then or later |
| `TunnelSpec.RunsAdmitOwn` | internal/tunnelapp/tunnelapp.go:652-703 | over every run: an admitted packet carries the address its code was issued, no other stored code could have sent it, and it opens no TCP connection to anything inside the tunnel network; the same read off the address bytes, protocol and flag bits of every encoded packet |
| `TunnelSpec.RunsRouteBack` | internal/tunnelapp/tunnelapp.go:1140-1187 | over every run, the reply to an existing code's packet goes back to that code's session under an exact condition |
| `TunnelSpec.TunnelLimitHolds` | internal/tunnelapp/tunnelapp.go:870-876 | in no reachable state has a user more codes online than the largest limit its handshakes read, with evictions between check and install |
| `TunnelSpec.ZeroLimitKeepsOffline` | internal/tunnelapp/tunnelapp.go:870-876 | a limit of 0 is no tunnel at all: no code of a user whose handshakes read 0 is ever online |
| `TunnelSpec.FpRulesIff` | internal/users/accesscode.go:115-143 | over every run: stored fingerprints change only from empty to the connecting device's, from its first to its second, or to empty by unbind, if and only if no panel save comes after its code's fingerprint changed since the panel read the record |
| `TunnelSpec.OvertakenByRebinding` | internal/storage/accesscode.go:246-336 | what overtakes the first such save is a bind, upgrade or unbind of that very code between the panel's read and its save |
| `TunnelSpec.OvertakenSaveFreesCode` | internal/storage/accesscode.go:184-200 | a run from a freshly started server: a rename read before the first device was registered lets a second device past the device rules, and nobody unbound |
| `TunnelSpec.DeviceLock` | internal/tunnelapp/tunnelapp.go:835-868 | over every run in which no panel save is overtaken, at every moment, no handshake gets past the device rules while the code is bound to another device |
| `TunnelSpec.CloneRefused` | internal/tunnelapp/tunnelapp.go:847-868 | over every run: once a device has got past, a hello that does not bring its strongest fingerprint, a clone that shares only the first one, is refused and changes nothing, until an unbind, an overtaken save or a device that has it as its first and brings another |
| `TunnelServer.Server.HandleHello` | internal/tunnelapp/tunnelapp.go:781-919 | one handshake on the objects, for every input: which of the seven answers it gets, each exactly when; afterwards the code is bound to the second fingerprint if there is one, else the first, exactly if the device rules were passed; a session is installed exactly on acceptance; nothing is answered or changed before authentication; equal to its steps in a row |
| `RoutePush.OrderlyRunsAgree` | internal/tunnelapp/tunnelapp.go:1302-1396 | whenever no record is dropped after a round's routes reached the current session and no ended message to it is lost, every delivered round leaves client and server agreeing, across reconnects and lost routes messages |
| `RoutePush.ConvergesIffNoSlip` | internal/tunnelapp/tunnelapp.go:1302-1396 | over every run: delivered rounds end in agreement, now and in every faultless future of every moment, if and only if no record is dropped and no ended message lost while the client holds an address nothing else accounts for |
| `RoutePush.CoveredIffConverges` | internal/tunnelapp/tunnelapp.go:1355-1386 | in any reachable state the server's record covers the client's set if and only if every delivered round of every faultless continuation agrees; otherwise one that does not is constructed |
| `RoutePush.RoundConverges` | internal/tunnelapp/tunnelapp.go:1317-1329 | one delivered round from a covered state leaves the client with exactly the server's set |
| `RoutePush.LateForgetLeaks` | internal/tunnelapp/tunnelapp.go:917-918 | a whole round between installing a session and forgetting its record leaks the address it installed |
| `RoutePush.LeakStays` | internal/tunnelapp/tunnelapp.go:1302-1396 | a leaked address stays installed over every continuation without a reconnect or a new listing, and every delivered round on the way disagrees |
| `RoutePush.PushRecord.DiffPushed` | internal/tunnelapp/tunnelapp.go:1360-1386 | replaces one code's record, reports exactly what left the list, and flags exactly real changes |
| `MuxSpec.RunKeeps` | internal/nethernet/multiplexer.go:162-541 | over every run: address bijection, paired events, registry agreement and byte conservation all hold at every moment |
| `MuxSpec.InvGivesBijection` | internal/nethernet/multiplexer.go:162-207 | learned sessions and `addrMap` are in bijection, and the registry holds the same addresses |
| `MuxSpec.RegistryFollows` | internal/forward/nethernet_backend.go:66-120 | over every run: the shared session registry holds an address exactly while a session is open there, and its entry shows exactly what that session has reported |
| `MuxSpec.LearnKeeps` | internal/nethernet/multiplexer.go:181-199 | learning starts exactly one event pair and one registry entry |
| `MuxSpec.EndKeeps` | internal/nethernet/multiplexer.go:450-467 | ending removes only the session's own entries and pairs its start |
| `MuxSpec.ReportKeeps` | internal/nethernet/multiplexer.go:487-505 | reporting keeps the registry entry equal to the watermark |
| `MuxSpec.ReportConserves` | internal/nethernet/multiplexer.go:487-505 | each report adds exactly the bytes since the last one |
| `MuxSpec.ForwardConserves` | internal/nethernet/multiplexer.go:273-315 | session and rule counters rise together, by the packet's length if it was sent and not at all if not |
| `MuxTraffic.CountersAreTraffic` | internal/nethernet/multiplexer.go:273-315 | at every moment of every run: a session's bytesIn is the sum of the packets of at least 20 bytes that arrived at its address and were sent on, the learning one included, bytesOut that of its replies, and it was last seen when it was last heard from |
| `MuxTraffic.TotalsAreTraffic` | internal/nethernet/multiplexer.go:295-314 | and the rule's totals are those sums over all packets and all replies, up to replies whose second counter is still to be raised |
| `MuxTraffic.CleanupEndsSilent` | internal/nethernet/multiplexer.go:425-437 | over every run: a cleanup ends exactly the sessions whose last packet, reply or registration is more than 60 seconds ago |
| `MuxTraffic.ReportTellsAll` | internal/nethernet/multiplexer.go:487-505 | over every run: right after a report the registry shows the sums of all packets and replies of every open session |
| `MuxStop.StopPairsAllIff` | internal/nethernet/multiplexer.go:525-541 | stop ends every session, closes every player socket and leaves every start paired, and it stays so at every later moment if and only if nothing is registered afterwards |
| `MuxStop.RegisterAfterStopStaysOpen` | internal/nethernet/multiplexer.go:372-395 | after any run that was stopped, a registration is not refused, and a packet in flight then opens a session no stop will end |
| `Multiplexer.Mux.HandlePacket` | internal/nethernet/multiplexer.go:162-207 | one packet on the objects, for every state: a known address first, then learning, else or under 20 bytes dropped; what exactly each changes, and that bytes count only once they are sent |
| `Multiplexer.Mux.RegisterSession` | internal/nethernet/multiplexer.go:372-395 | a repeated ufrag ends the old session first |
| `Multiplexer.Mux.EndSessionLocked` | internal/nethernet/multiplexer.go:450-467 | equals the modelled end: the session leaves, its socket is closed, and its address entry goes only if it is its own |
| `Multiplexer.Mux.ReportBytes` | internal/nethernet/multiplexer.go:487-505 | the loop reports every session once, in some order |
| `Multiplexer.Mux.Cleanup` | internal/nethernet/multiplexer.go:425-437 | exactly the sessions silent for more than 60 seconds end |
| `Multiplexer.Mux.Stop` | internal/nethernet/multiplexer.go:525-541 | every session ends, once; none and no address entry is left |
| `Multiplexer.Mux.Stats` | internal/nethernet/multiplexer.go:513-522 | over every run: bytes in are the sum over all packets sent on, bytes out that over all replies but those still to be counted; active is the number of registered addresses |
| `Stun.ExtractInvertsEncode` | internal/nethernet/multiplexer.go:222-267 | parsing inverts encoding for every padded attribute list; the declared length only has to fit, attributes behind it are read too |
| `Stun.RequestNamesSession` | internal/nethernet/multiplexer.go:209-221 | `server:client` parses back to the server fragment, whatever attributes surround it |
| `Stun.ExtractUfrag` | internal/nethernet/multiplexer.go:222-267 | the offset loop never reads outside any packet and finds the first username's fragment |
| `MuxStun.RequestOpensSession` | internal/nethernet/multiplexer.go:162-267 | from bytes to the registry: an encoded binding request for a waiting session opens exactly that session at the sender's address, whatever attributes surround the username |
| `MuxStun.OnlyItsNameOpens` | internal/nethernet/multiplexer.go:162-267 | and no other bytes do: whatever arrives opens a session only if it is at least 20 bytes long, looks like STUN, names it and comes from an unknown address |
| `ConnLog.ListConnLogs` | internal/storage/acl.go:117-198 | returns exactly the page of the merged log: 100 rows if no limit is given and never more than 1000, from the first row on for a negative offset; and the total number of rows |
| `ConnLog.MergeKeepsRows` | internal/storage/acl.go:163-182 | the merge has exactly the rows of all buckets |
| `ConnLog.MergeDescends` | internal/storage/acl.go:163-182 | the merge is newest first |
| `ConnLog.DescendingUnique` | internal/storage/acl.go:163-182 | with distinct keys there is only one such list |
| `ConnLog.PagesCoverIff` | internal/storage/acl.go:163-196 | consecutive pages make up the whole readable log without gap or repeat if and only if every page's window is clean of unreadable rows or nothing readable follows |
| `ConnLog.PageIsWindowIff` | internal/storage/acl.go:183-192 | the same for one page |
| `ConnLog.TrimConnLogs` | internal/storage/acl.go:302-337 | keeps each bucket's newest rows, 2000 if no cap is given, and counts the removed ones |
| `ConnLog.TrimKeepsNewest` | internal/storage/acl.go:320-333 | every removed row is older than every kept one, and the listing keeps its beginning |
| `ConnLog.MergeNeedsNewest` | internal/storage/acl.go:163-182 | the newest k rows of the merged log depend only on the newest k rows of each bucket |
| `ConnLog.PagesSurviveTrim` | internal/storage/acl.go:302-337 | trimming every bucket to n rows changes no page, of one user or of all merged, that finds its rows within the newest n of the listing; unreadable rows included |
| `RateLimit.DecidesLikeFullIff` | internal/users/register.go:55-109 | over every run, whatever the clock readings: the pruned, trimmed limiter decides each call exactly as one keeping the full history since the last reset, if and only if no call is at its limit only through records that earlier readings have dropped |
| `RateLimit.FastDecidesLikeFull` | internal/users/register.go:55-109 | that is so whenever no reading goes back behind one served before it for the same key or in a sweep; calls for different keys may come in any order |
| `RateLimit.WindowBound` | internal/users/register.go:78-91 | on such runs no window ever contains more than the limit of accepted events of one key |
| `RateLimit.RefusedIffFull` | internal/users/register.go:78-102 | on every run that decides as the full history does: a call is refused exactly if as many events of its key as the limit were accepted within the window before its reading |
| `RateLimit.OldReadingMisjudged` | internal/users/register.go:78-80 | the clock is read before the lock: a run in which two calls on one key are served against their reading order and one is misjudged |
| `RateLimit.AskingChangesNothing` | internal/users/register.go:94-102 | asking does not record: on a run whose readings never go back, leaving an `Allowed` call out changes no other decision |
| `RateLimit.AskingChangesNothingIff` | internal/users/register.go:55-109 | for any readings: from a run that decides as the full history does, an `Allowed` call can be left out without changing any other decision if and only if what is left still does so |
| `RateLimit.TrimInPlace` | internal/users/register.go:67-75 | filtering a slice over its own backing array keeps exactly the live records |
| `RateLimit.RateLimiter.AllowCall` | internal/users/register.go:78-91 | the object's call equals the modelled one: only an accepted event is recorded, and nothing outside the window is kept of the key |
| `RateLimit.RateLimiter.AllowedCall` | internal/users/register.go:94-102 | the object's call equals the modelled one: true exactly if fewer records than the limit are left inside the window |
| `RateLimit.RateLimiter.PruneLocked` | internal/users/register.go:55-64 | the sweep drops only keys with nothing left in the window, and only above the key limit |
| `EmailCodes.EachCodeOnce` | internal/email/email.go:298-323 | over every run each code succeeds at most once, only after fewer than five wrong tries, and takes at most five |
| `EmailCodes.SuccessMeans` | internal/email/email.go:298-323 | a success uses up an unused code sent to that address for that purpose at most ten minutes ago |
| `EmailCodes.LiveCodeSucceeds` | internal/email/email.go:298-323 | conversely, over every run: a code that was sent is accepted within its ten minutes unless a newer one was sent for the same purpose and address, it was used, five tries were made on it, or a call has read the clock past its end |
| `EmailCodes.PacedIff` | internal/email/email.go:259-287 | over every run, whatever the clock readings and whether draws fail or not: an address is sent at most five codes in any hour, at least 60 seconds apart, over all purposes, if and only if no call reads the clock too early for the last or the fifth last sending after a failed draw has dropped that one |
| `EmailCodes.SendingIsPaced` | internal/email/email.go:241-287 | so an address is always sent at most five codes in any hour, at least 60 seconds apart, over all purposes, whatever the clock readings and their order, since the generator does not fail |
| `EmailCodes.SentIffPaced` | internal/email/email.go:259-287 | and nothing is held back without need: over every run a code is sent exactly if with it the address still gets at most five an hour, 60 seconds apart |
| `EmailCodes.FailedDrawLosesOne` | internal/email/email.go:274-278 | what a failing generator would cause: a run in which the failed draw drops a sending and a sixth code goes out within the hour |
| `EmailCodes.VerificationService.IssueCode` | internal/email/email.go:241-287 | the object's step equals the modelled one, for every outcome: the new code stands under its own key for ten minutes, and of the others exactly those past their end go |
| `EmailCodes.VerificationService.VerifyCode` | internal/email/email.go:298-323 | the object's step equals the modelled one, for every outcome, each of them exactly when |
| `Quotas.FittingGroupIsBounded` | internal/models/settings.go:275-342 | a validated group opens no port outside the global range, lifts no limit above the global one, and without any range there is no port |
| `Quotas.QuotaMeans` | internal/models/settings.go:275-342 | what a group and the settings grant: its own range and limits where it has them, 0 a ban; no port at all for a locked group or one banned from rules without a range of its own; for the rest the global values, where 0 is no limit |
| `Quotas.UnfitGroupEscapes` | internal/models/group.go:77-106 | a well-formed group that fails validation would let a user past the ceiling: the check is needed |
| `GroupAdmin.NoUserEscapes` | internal/users/group.go:32-314 | over every run of whole settings and group edits no user gets past the configured ceiling |
| `GroupAdmin.RunKeeps` | internal/storage/group.go:101-203 | over every run of whole edits all groups fit the settings, at most one is the default, and a default once there stays |
| `GroupAdmin.RecordedDefaultIff` | internal/storage/group.go:170-203 | over every run of whole edits: the default group recorded in the settings exists at every moment if and only if no deletion of it is accepted, which looks at the mark and not at the record |
| `GroupAdmin.DefaultMayDangle` | internal/users/group.go:61-69 | such a deletion is accepted after the settings were pointed at an unmarked group |
| `GroupRaces.RecordedKeptIff` | internal/users/group.go:61-110 | over every interleaving: the recorded default exists at every moment if and only if no deletion of it is accepted and no write records a group deleted since its request looked it up |
| `GroupRaces.NamedKeptIff` | internal/storage/group.go:170-203 | over every interleaving: the default in the settings and those that requests are about to record exist at every moment if and only if no deletion of one of them is accepted |
| `GroupRaces.WithinCeilingIff` | internal/users/group.go:32-111 | edits read, check and write in separate transactions; over every interleaving of any number of them: all groups fit the settings and the default is unique at every moment if and only if each write would still pass its own check when it is made |
| `GroupRaces.UndisturbedWithinCeiling` | internal/users/group.go:175-278 | that is so whenever no write falls between the read and the write of another request |
| `GroupRaces.DefaultKeptIff` | internal/users/group.go:224-278 | over every interleaving: a default group once there stays at every moment if and only if no copy of a group read unmarked is written after that group became the default |
| `GroupRaces.InterleavedEditsEscape` | internal/users/group.go:84-101 | a run from fresh settings in which a group is created between the check and the write of a settings update and its user ends up above the new ceiling |
| `GroupRaces.SettingsInARow` | internal/users/group.go:32-111 | the four transactions of a settings edit with nothing in between are the whole edit |
| `GroupRaces.CreateInARow` | internal/users/group.go:175-221 | the same for creating a group |
| `GroupRaces.UpdateInARow` | internal/users/group.go:224-278 | the same for editing one |
| `GroupAdmin.AdminService.ApplySettings` | internal/users/group.go:32-110 | accepted exactly if valid and no group conflicts; then exactly the given fields change |
| `GroupAdmin.AdminService.AddGroup` | internal/users/group.go:175-221 | accepted exactly if named, fitting and not a duplicate |
| `GroupAdmin.AdminService.EditGroup` | internal/users/group.go:224-278 | the same for an edit; the default mark cannot be taken off directly |
| `GroupAdmin.AdminService.SaveGroup` | internal/storage/group.go:101-163 | becoming the default clears every other mark in the same transaction |
| `GroupAdmin.AdminService.RemoveGroup` | internal/storage/group.go:170-203 | refused exactly for the default group, for groups with members and for missing ones; else exactly that group goes |
| `Migration.Migrate` | internal/storage/migrate.go:36-92 | the version dispatch: what each starting version ends up as; a fresh database gets the default settings and a recorded default group, its own or a new one that follows the globals; a current one is unchanged |
| `Migration.MigrateTwice` | internal/storage/migrate.go:54-56 | a second run changes nothing |
| `Migration.MeaningKept` | internal/storage/migrate.go:168-309 | each non-admin user with a valid legacy quota resolves to the same explicit range and rule limit as before, and to the globals where nothing was set; without a quota to what the default group says, the one there was or a new one that follows the globals |
| `Migration.ShareIffEqual` | internal/storage/migrate.go:231-263 | users with an explicit quota share a group exactly when their triples are equal |
| `Migration.CodesKept` | internal/storage/migrate.go:265-285 | codes keep identifier, address and secret; existing codes are untouched, a user that carried one gets it, and no code appears under an identifier of nobody |
| `Migration.MigratedFits` | internal/storage/migrate.go:191-229 | every group fits the widened settings and exactly one is the default, so administration starts from its invariant |
| `Migration.SettingsKept` | internal/storage/migrate.go:191-229 | settings that were written survive: the range and the rule limit only grow, and only to what some user had; the other limits and a recorded default stay; unwritten ones start from 20000-29999, 3, 3 and 10 |
| `Migration.UsersKept` | internal/storage/migrate.go:231-309 | every user is still there with its role; administrators have no group, all others an existing one, and no old quota or tunnel field is left |
| `Migration.UpgradeKeepsMeaning` | internal/storage/migrate.go:318-345 | turning 0 into -1 keeps what every schema 2 group meant |
| `Migration.MigrateV2ToV3` | internal/storage/migrate.go:320-365 | collect, then rewrite: every group upgraded |
| `Migration.FindExtremes` | internal/storage/migrate.go:191-204 | the least start and the greatest end and limit, each attained by some user |
| `Migration.EnsureDefault` | internal/storage/migrate.go:115-155 | an existing default is used, else one is made that follows the globals |
| `Migration.PlaceUsers` | internal/storage/migrate.go:231-309 | one group per quota, users placed accordingly, codes carried over |
| `ReturnPath.VerifyConverges` | internal/tunnelapp/returnpath.go:82-171 | from any kernel state a verify that returns no error makes the next one a no-op |
| `ReturnPath.SuccessIsHealthy` | internal/tunnelapp/returnpath.go:82-171 | no error means everything is in place, whatever checks failed on the way |
| `ReturnPath.VerifyReports` | internal/tunnelapp/returnpath.go:82-171 | a verify returns no error exactly if every item is found or its repair works, and then reports a repair exactly if some item was not found |
| `ReturnPath.VerifyKeeps` | internal/tunnelapp/returnpath.go:82-171 | and changes nothing that it finds in place: no rule twice, an intact INPUT chain as it is, no foreign rule removed from FORWARD |
| `ReturnPath.SetupReports` | internal/tunnelapp/setup_linux.go:78-128 | a setup returns no error exactly if ip_forward, the mark, the policy rule, the route, both INPUT rules and the three FORWARD rules are found or could be written |
| `ReturnPath.OurRuleIff` | internal/tunnelapp/returnpath.go:112-122 | the policy rule is recognised by text: after success it exists exactly if it did before or nothing looked like it |
| `ReturnPath.RunOrderIff` | internal/tunnelapp/returnpath.go:56-170 | under any mix of removals, flushes, foreign insertions, fresh setups and repairs, with whatever commands failing: ESTABLISHED stays before DROP and the hairpin DROP before the accepts at every moment if and only if DROP is never put on top of an ESTABLISHED rule whose deletion has failed |
| `ReturnPath.LockOrderedIff` | internal/tunnelapp/returnpath.go:56-71 | locking yields that order exactly from chains with at most one ESTABLISHED rule, or none if its deletion fails |
| `ReturnPath.SetupOrderedIff` | internal/tunnelapp/setup_linux.go:78-128 | a setup without error establishes the order exactly on such kernels without a misplaced hairpin rule |
| `ReturnPath.SetupHealthy` | internal/tunnelapp/setup_linux.go:78-128 | a setup without error whose rp_filter writes worked leaves nothing to repair |
| `ReturnPath.LeftoverHidesLoss` | internal/tunnelapp/returnpath.go:137-146 | with a second ESTABLISHED rule left over, losing the first is taken for intact, with DROP in front |
| `ReturnPath.FailedDeletionHidesLoss` | internal/tunnelapp/returnpath.go:56-71 | a failing deletion leads there by itself: from a healthy chain one such repair, the loss of one rule, and a verify that works and repairs nothing; then DROP decides packets of established connections |
| `ReturnPath.GuardedInputDecides` | internal/tunnelapp/returnpath.go:49-71 | in any such run in which no failed deletion has done that, right after a setup or an error-free verify, a packet from the tunnel that no foreign rule matches is accepted exactly if it is established, wherever the foreign rules were inserted |
| `ReturnPathGuard.Host.VerifyReturnPath` | internal/tunnelapp/returnpath.go:82-171 | the command sequence equals the modelled verify, failing deletions ignored and stopping at the first other failure; its two results mean what `VerifyReports` says |
| `SdpLines.OneCandidate` | internal/nethernet/gateway.go:397-491 | with a usable candidate exactly one candidate line is left: the words of the first host candidate outside loopback, or else on it, with the public address and port; all other lines stay in order, as the next row says |
| `SdpLines.AnswerLines` | internal/nethernet/gateway.go:397-491 | the rewritten text of every answer, line by line: connection lines name the public address, media lines have the relay's port as second word and otherwise their own, every other line is as it was, in order; the kept candidate stands where the first one stood, and without a usable one each candidate of six words is readdressed in place |
| `SdpStability.IdempotentIff` | internal/nethernet/gateway.go:397-491 | for every answer: rewriting twice is rewriting once, if and only if it has a usable candidate, no host candidate or a single candidate line, or the public address is no literal address |
| `Sdp.Idempotent` | internal/nethernet/gateway.go:397-491 | with a usable candidate rewriting twice is rewriting once |
| `Sdp.WithoutTemplateNotStable` | internal/nethernet/gateway.go:476-484 | a concrete answer without a usable candidate on which the second rewrite differs |
| `Sdp.EndingsKept` | internal/nethernet/gateway.go:398-406 | for every answer the output has CRLF line ends exactly if the input has and there is more than one line |
| `Sdp.UfragKept` | internal/nethernet/gateway.go:547-556 | for every answer the ufrag read from the rewritten answer is the original's |
| `Sdp.DataPortIsTemplates` | internal/nethernet/gateway.go:499-532 | for every answer with a usable candidate: data goes to the port of the candidate that is kept if and only if that one states a port and lies outside loopback or states what the first stating candidate states, or nothing states a port and there is no signalling port |
| `Sdp.NamedCandidateTakesData` | internal/nethernet/gateway.go:518-525 | such an answer: a candidate named by host name before one on loopback |
| `SdpLines.RewriteAnswer` | internal/nethernet/gateway.go:397-491 | the two passes compute the modelled rewrite, whose lines are those of `AnswerLines` |
| `SdpLines.BackendDataPort` | internal/nethernet/gateway.go:499-532 | the loop returns the first port that a host candidate states outside loopback, else the first stated at all, else the signalling port |
| `Sdp.ExtractIceUfrag` | internal/nethernet/gateway.go:547-556 | the loop returns what follows `a=ice-ufrag:` on the first such line, or nothing without one |
| `Sdp.MLineShape` | internal/nethernet/gateway.go:537-544 | the media line keeps its kind and rewriting its port again changes nothing |

## Left out

- Sockets, the TUN device, bbolt, iptables and SMTP themselves: they appear as sets, sequences, maps and
  outcomes passed in; only bind exclusivity and rule order are kept of them.
- Cryptography and the tunnel wire protocol: whether a MAC verifies and whether an accept message could be
  sealed and sent are inputs of the handshake; decrypted packets are given.
- The answer to clients with an outdated handshake version, and all log throttling.
- JSON, base64, bcrypt, certificates, HTTP handlers, rule management, ACL matching, retry backoff.
- Waiting on a placeholder's `ready` channel: acquire returns "wait" and the caller's retry is a new check.
- The nesting of the registry's lock inside a forwarder's lock is one atomic step.
- A fatal write error that makes a UDP session be dropped at once is the same step as its retirement.
- Partial sends by the kernel; a batch counts as sent when it is flushed. IPv6 zones are ignored, as in the
  merge test. No bound on the number of segments of a message is claimed, since the code bounds bytes only.
- Publishing a session snapshot through an atomic pointer: snapshots are values, so a reader's copy cannot
  change.
- Eviction on disabling, deleting or unbinding is a step of its own that may come at any later time; limits
  that change while a session is online are covered only through the limits that handshakes read.
- The FEC and heartbeat paths of a tunnel session, and the TUN write batch's slots.
- Route messages are delivered in order or lost; the client's own grace period is not modelled.
- The text of a route list is its multiset of addresses: sorting two lists and comparing them compares those.
- The connection log's leave entries, and appending under a clock that jumps back.
- E-mail addresses and codes come trimmed and lower-cased; sending the mail happens after the modelled step.
- Whether a random code could be drawn is an input.  The source handles an error there, but with the Go
  version it asks for, crypto/rand ends the process instead of returning one.
- Filling in fields that old settings records lack.
- Names, comments and time stamps of groups and users, reserved ports, relay address and time zone settings;
  the generated names of migrated groups, which are not unique in the source.
- Records that do not decode end a migration or a bucket scan with an error and no change; only the
  connection log goes on past them, and only there they are modelled.
- Unicode white space and case folding in SDP lines; the numeric and address parsers are parameters.
- Tearing the return path down, its non-Linux stub, and commands that take effect and still report failure.
