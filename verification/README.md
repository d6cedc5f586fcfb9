# Verified models of the store, the peer manager and header sync

This project models three parts of brewery-bitcoin and proves properties of them in Dafny 4.11.
`dafny verify dfyconfig.toml` checks everything.

**Column-family store (`db/`).** The Pebble-backed store keeps many families in one ordered key space by putting
`name + NUL` in front of every key; the in-memory store is a map of maps. Both are given twice: as step functions on
values (`FlatSpec`, `MockSpec`) and as classes that follow the Go code with slices as heap arrays (`PebbleStore`,
`MockStore`), each method proved to do what its step function says. `StoreRefinement` proves that a client cannot
tell the two apart, on any run of `Store`, `Batch` and `Iterator` calls made as the interfaces ask, exactly when no
registered name followed by NUL begins another. `StoreLaws` says of calls and replies what a client may rely on: the
order of errors, reads after writes, batches and scans. `Client` proves that the byte slices really behave as values: a
client with any number of batches, iterators and slices, making any calls and overwriting its slices between them,
gets the replies and ends in the values of the same run with every slice passed by value.
The engine is assumed to be an ordered byte map with atomic batches and range-bounded cursors; it appears as the
small classes `Engine` and `EngineCursor`.

**Peer manager (`pkg/btcclient/`).** `PeerManager` holds the bodies that run under the peer-map lock as methods on
mutable objects; `PeerTable` gives what they do to the map. `PeerProtocol` is the concurrent protocol: one program
counter per connection loop, the health loop, Stop, and the holder of the peer-map lock, every mutex-protected region
one atomic step, dial outcomes, timers, remote disconnects and context cancellations free. `PeerInvariant` proves
its invariant; `PeerTheorems`, `PeerRemoval`, `PeerLock`, `PeerShutdown`, `PeerStop`, `PeerLiveness` and
`PeerCancelled` what follows for every reachable state and run; `PeerRuns` and `PeerWitness` build runs that reach
the exceptions the theorems name. The last fields of a peer are history that no step's guard reads.

**Header sync (`indexer/`, `examples/headerindexer/`).** `HeaderLog` is the log class and its behaviour under
interleaved handlers; `HeaderSync` composes it with one honest peer, and `HeaderFlow` follows the
answers of that peer. `Bootstrap` covers peer resolution.

Where documents and code differ the code is followed: docs/pkg/btcclient.md:119 says that health checks mark peers
Unhealthy, but pkg/btcclient/manager.go:224-230 removes them and nothing sets that status; docs/pkg/btcclient.md:106
does not mention that the connection loop evicts its own peer at the threshold (manager.go:122-126).

What the proofs found about the code:

- `Open` accepts any family names, but names where one followed by NUL begins another share keys (`TelltaleTells`).
- A removal can leave a peer connected off the map, never told to disconnect, exactly when it meets the peer's loop
  inside the dial (`LeftAloneExactlyWhenDialing`). Stop's own sweep does the same to a peer that stays on the map.
- Stop can always be brought to success by the other sides dropping their connections (`StopCanSucceed`). Without any
  drop it can succeed exactly when no loop is stranded, that is, has a connection which neither side has ended and
  which neither the sweep nor an older loop's eviction can still reach (`StopSucceedsAloneExactlyWhen`). A stranded
  loop, on the map or off it, holds Stop up until the other side drops (`StrandedHoldsUpStop`).
- An eviction removes by address, so it can take away a newer peer (`EvictionHitsTheNewcomer`).
- After a first sync of a multiple of 2000 headers `synced` stays false, and announced blocks are ignored until a
  reconnect (`SyncedExactlyWhen`, `UnsyncedLogStaysBehind`).
- Two announcements that arrive before the first is answered make the log store the new headers twice
  (`TwoAnnouncementsBreakTheLog`), and so does a connection that ends while its answer is still being handled, when the
  next one asks from the same tip (`LateHandlerBreaksTheLog`). The log follows the peer's chain exactly when every
  appended answer was empty or asked for from the tip of its moment (`PrefixExactlyWhenAnswersAreFresh`).
- Staging into a batch after the store is closed gives different replies in the two stores
  (`StagingAgreesExactlyWhen`), and so does moving an iterator two steps past an end or before the first Seek
  (`OvershootPartsTheCursors`), and reading the value off an entry (`ReadsAgree`).

## Model

| member | source | states |
|---|---|---|
| `StoreRefinement.RefinementExactlyWhenPrefixFree` | db/pebble.go:110-245 | on every allowed run of store, batch and iterator calls both stores give the same replies, if and only if the registered names are prefix-free |
| `StoreRefinement.RunsAgree` | db/mock.go:45-131 | from any two stores that agree (also with other keys in the engine), every allowed run gives the same replies and ends in stores that agree |
| `StoreRefinement.NulFreeNamesAreSafe` | db/pebble.go:19-21 | names without NUL bytes are enough for the two stores to be indistinguishable |
| `StoreRefinement.TelltaleTells` | db/pebble.go:78-84 | two registered names where one followed by NUL begins the other: a write to the second is seen by a read of the first |
| `StoreRefinement.WriteCommutes` | db/pebble.go:141-183 | a Put or Delete on the flat key is the Put or Delete in its family and changes no other family |
| `StoreRefinement.CommitCommutes` | db/pebble.go:334-350 | applying the flat writes of a batch represents the replay of its staged operations |
| `StoreRefinement.OpenedCursorsAgree` | db/pebble.go:219-245 | the range-bounded flat cursor opens on the sorted snapshot of the family, key by key with the prefix in front |
| `StoreRefinement.MovesAgree` | db/pebble.go:371-379 | iterators that agree keep agreeing under a Seek, SeekToFirst, SeekToLast, Next or Prev if and only if the move is allowed: after a first Seek and at most one past either end |
| `StoreRefinement.ReadsAgree` | db/pebble.go:379-402 | iterators that agree show the same Valid and Key, and the same Value exactly on an entry |
| `StoreRefinement.StagingAgreesExactlyWhen` | db/mock.go:233-262 | staging gives the same reply in both stores exactly when the store is open, the family unknown, the batch closed or the key nil |
| `StoreRefinement.OvershootPartsTheCursors` | db/mock.go:315-326 | after any move that is not allowed some further moves tell the two iterators apart, unless there are no entries |
| `StoreRefinement.BatchRunIsAllowed` | db/db.go:64-81 | making a batch, staging any operations, committing once, closing it and reading is an allowed run, so the laws about batches hold of the flat store too |
| `StoreRefinement.ScanIsAllowed` | db/db.go:83-117 | so is opening an iterator, reading every entry in order, closing it and then the store |
| `StoreLaws.KeyCallErrors` | db/mock.go:45-131 | a call on a key answers closed exactly for a closed store, then nil key, then unknown family, and Get not found exactly for a missing key; a failed call changes nothing |
| `StoreLaws.StagingErrors` | db/mock.go:233-262 | staging answers batch closed, then nil key, then unknown family, exactly when that holds, and then changes nothing |
| `StoreLaws.CommitErrors` | db/mock.go:268-278 | a commit answers batch closed, then closed, exactly when that holds, and then changes nothing |
| `StoreLaws.ClosedForGood` | db/mock.go:174-184 | a store closes once; afterwards every store call, and a commit of an open batch, answers closed |
| `StoreLaws.ClosedBatchRefuses` | db/mock.go:290-293 | a closed batch counts nothing and refuses to stage and to commit |
| `StoreLaws.PutIsRead` | db/mock.go:71-91 | after a Put every Get and Has answers as before, but for the one key of the one family, which has the value |
| `StoreLaws.DeleteIsRead` | db/mock.go:93-111 | after a Delete likewise, and the key is not found |
| `StoreLaws.HasTellsWhatGetFinds` | db/mock.go:113-131 | Has answers true exactly when Get finds a value |
| `StoreLaws.NewStoreIsEmpty` | db/mock.go:28-39 | a new store knows its families and finds nothing in them |
| `StoreLaws.StagingKeepsOrder` | db/mock.go:233-262 | staging calls append their operations in the order of the calls and leave the store alone |
| `StoreLaws.BatchEqualsDirectCalls` | db/mock.go:233-288 | NewBatch, staging calls in order and Commit leave every family as the same operations called directly one after the other; before the commit nothing has changed |
| `StoreLaws.NewIteratorLists` | db/mock.go:137-165 | a new iterator lists the family and is on no entry |
| `StoreLaws.ForwardScan` | db/mock.go:315-344 | k steps after SeekToFirst an iterator shows its k-th entry, and nothing after the last |
| `StoreLaws.BackwardScan` | db/mock.go:317-344 | k steps back after SeekToLast it shows the k-th entry from the end, and nothing before the first |
| `StoreLaws.SeekShows` | db/mock.go:309-313 | after Seek it shows the first entry whose key is not below the target, or nothing |
| `StoreLaws.SeekIndexIsLeast` | db/mock.go:309-313 | that entry has the least key of the family from the target on, with its value |
| `Keyspace.RangeIsPrefix` | db/pebble.go:431-445 | for every name and string: the string is in the range from `cf\x00` to `cf\x01` if and only if it begins with `cf\x00` |
| `Keyspace.FlatKeysKeepOrder` | db/pebble.go:447-454 | prefixing keeps and reflects the order of user keys |
| `Keyspace.DisjointRanges` | db/pebble.go:431-445 | two ranges are disjoint if and only if neither prefix begins the other |
| `Keyspace.FlatKeyIsInjective` | db/pebble.go:447-454 | under prefix-free names a flat key determines its family and user key |
| `Keyspace.NulFreeNamesArePrefixFree` | db/pebble.go:19-21 | names without NUL bytes are prefix-free |
| `Keyspace.CfPrefix` | db/pebble.go:431-437 | the filled buffer is the name followed by 0x00 |
| `Keyspace.CfUpperBound` | db/pebble.go:439-445 | the filled buffer is the name followed by 0x01 |
| `Keyspace.PrefixedKey` | db/pebble.go:447-454 | the filled buffer is the prefix followed by the key, nil counting as empty |
| `Snapshot.SortedKeys` | db/mock.go:150-155 | collecting the keys in any order and sorting gives the one ascending list of the set |
| `Snapshot.AscendingListIsUnique` | db/mock.go:150-155 | a set has only one ascending list, so a snapshot does not depend on map iteration order |
| `MockSpec.CommitMeaning` | db/mock.go:268-288 | Commit succeeds exactly on an open batch and store; then every family and key has its last staged operation or old value; otherwise nothing changes |
| `MockSpec.CommitEqualsDirectCalls` | db/mock.go:268-288 | a commit leaves what issuing its operations one by one leaves |
| `MockSpec.OpenIteratorsKeepTheirEntries` | db/mock.go:137-165 | no later call changes what an open iterator shows |
| `StoreApi.EntriesAreTheMap` | db/mock.go:150-162 | a snapshot lists exactly the key-value pairs of the family in strictly ascending key order |
| `MockStore.Store.constructor` | db/mock.go:28-39 | all given families and "default" exist and are empty |
| `MockStore.Store.Get` | db/mock.go:45-69 | result and error kind of the map of maps; the returned slice is fresh |
| `MockStore.Store.Put` | db/mock.go:71-91 | exactly the one key of the one family changes, to a private copy of the value |
| `MockStore.Store.Delete` | db/mock.go:93-111 | exactly the one key of the one family goes |
| `MockStore.Store.Has` | db/mock.go:113-131 | presence of the key, or the error kind |
| `MockStore.Store.NewIterator` | db/mock.go:137-165 | a snapshot of the family in ascending order, in fresh arrays of its own, before the first entry |
| `MockStore.Store.Close` | db/mock.go:174-184 | closes once and drops all data |
| `MockStore.Store.Reset` | db/mock.go:206-214 | every family maps to nothing, and none goes away |
| `MockStore.Batch.Put` | db/mock.go:233-248 | appends the write with a private copy of the value; every staged operation names an existing family while the store is open |
| `MockStore.Batch.Delete` | db/mock.go:250-262 | appends the deletion, or refuses in the order of the code |
| `MockStore.Batch.Commit` | db/mock.go:268-288 | the replay of the staged operations; a missing bucket is never met; the staged arrays become the store's |
| `MockStore.Batch.Close` | db/mock.go:290-293 | forgets the staged operations and refuses later calls |
| `MockStore.Iterator.Seek` | db/mock.go:309-313 | the binary search lands on the least key not below the target |
| `MockStore.Iterator.SeekToLast` | db/mock.go:317-319 | the last entry, or before the first if there is none |
| `MockStore.Iterator.Key` | db/mock.go:328-335 | a fresh copy of the current key, nil off the ends |
| `MockStore.Iterator.ValueCopy` | db/mock.go:337-344 | a fresh copy of the current value, nil off the ends |
| `Client.Caller.PerformAll` | db/mock.go:45-345 | any run of a client with any number of slices, batches and iterators, over all calls, Reset and nil slices included, gets the replies and ends in the values of the same run with slices passed by value |
| `Client.Caller.Overwrite` | db/mock.go:328-344 | overwriting a byte of a slice the client holds changes that slice, and nothing that the store or any open batch or iterator holds |
| `Client.OpenIteratorsKeepTheirEntries` | db/mock.go:150-164 | no call, Reset included, and no change of a slice alters the entries of an open iterator |
| `Client.ResetEmpties` | db/mock.go:206-214 | a Reset leaves every family in place without a key, and all batches, iterators and slices as they were |
| `Client.AfterReset` | db/mock.go:206-214 | after it Has answers false and Get finds nothing, a new iterator has no entries, and what was staged before is still committed, into empty families |
| `PebbleStore.PebbleDB.Open` | db/pebble.go:78-84 | every given name and "default" is registered with its prefix |
| `PebbleStore.PebbleDB.Get` | db/pebble.go:110-139 | the value under the prefixed key, in a fresh slice, or the error kind |
| `PebbleStore.PebbleDB.Put` | db/pebble.go:141-161 | sets the prefixed key and nothing else |
| `PebbleStore.PebbleDB.Delete` | db/pebble.go:163-183 | removes the prefixed key and nothing else |
| `PebbleStore.PebbleDB.Has` | db/pebble.go:185-210 | presence of the prefixed key, or the error kind |
| `PebbleStore.PebbleDB.NewIterator` | db/pebble.go:219-245 | a cursor over the engine's entries between prefix and upper bound |
| `PebbleStore.PebbleDB.Close` | db/pebble.go:261-284 | closes once |
| `PebbleStore.PebbleBatch.Put` | db/pebble.go:296-311 | appends the write of the prefixed key, or refuses in the order of the code |
| `PebbleStore.PebbleBatch.Delete` | db/pebble.go:313-328 | appends the removal of the prefixed key, or refuses |
| `PebbleStore.PebbleBatch.Commit` | db/pebble.go:334-350 | applies all staged writes at once, or fails without effect |
| `PebbleStore.PebbleIterator.Seek` | db/pebble.go:371-373 | seeks the prefixed target |
| `PebbleStore.PebbleIterator.Key` | db/pebble.go:381-391 | a fresh copy of the key without its prefix, nil off the ends |
| `PebbleStore.PebbleIterator.Value` | db/pebble.go:393-402 | a fresh copy of the current value, an empty slice off the ends |
| `PeerTable.DiscoveryIsRepeatedAdd` | pkg/btcclient/manager.go:253-286 | discovery leaves the map that addPeer on each address in order, errors ignored, leaves |
| `PeerTable.DiscoveryAddsTheFirstNew` | pkg/btcclient/manager.go:253-286 | it creates exactly the first distinct new addresses there is room for, keeps old mappings, and leaves min(maxPeers, distinct old and listed) entries |
| `PeerTable.AddKeepsValid` | pkg/btcclient/manager.go:55-71 | adding keeps the size limit and that every entry is the newest peer of its address |
| `PeerTable.RemoveKeepsValid` | pkg/btcclient/manager.go:91 | so does removing, which frees exactly one place |
| `PeerTable.RefusedFor` | pkg/btcclient/manager.go:55-61 | a known address is refused as known also on a full map, a new one exactly on a full map; a refusal changes nothing |
| `PeerManager.Manager.AddPeer` | pkg/btcclient/manager.go:55-77 | already exists exactly for a known address, max peers exactly for a new one on a full map; else one new entry and one more in the wait group; other entries stay |
| `PeerManager.Manager.AddDiscoveredPeers` | pkg/btcclient/manager.go:253-286 | the loop computes Discover and adds one to the wait group for each created peer |
| `PeerManager.Manager.RemovePeer` | pkg/btcclient/manager.go:81-99 | the peer stored under the address, and no other, is cancelled, told to disconnect, unmapped and announced once |
| `PeerManager.Manager.EvictPeer` | pkg/btcclient/manager.go:235-239 | the failing peer itself goes exactly when it is the one stored under its address |
| `PeerManager.Manager.RunHealthChecks` | pkg/btcclient/manager.go:212-231 | removes, cancels, tells and announces exactly the peers at or over the threshold |
| `PeerManager.Manager.CloseAndSweep` | pkg/btcclient/client.go:69-78 | closes done, and cancels and tells every mapped peer |
| `PeerManager.BtcClient.Start` | pkg/btcclient/client.go:42-57 | starts once and counts the health loop |
| `PeerManager.BtcClient.Stop` | pkg/btcclient/client.go:61-95 | error kinds; after a timeout the client still counts as started |
| `PeerInvariant.StepKeepsInv` | pkg/btcclient/manager.go:55-302 | every step of every goroutine keeps the protocol invariant |
| `PeerInvariant.StepKeepsFailures` | pkg/btcclient/manager.go:116-136 | every step of a loop keeps its failure count in line with its consecutive failed dials |
| `PeerTheorems.PointerSafety` | pkg/btcclient/manager.go:110-151 | in every reachable state the pointer is set where the loop uses it and whenever the status is Connected, and unset once the loop has returned; the status is the one that belongs to where the loop stands |
| `PeerTheorems.FailureAccounting` | pkg/btcclient/manager.go:116-136 | the failure count is the number of consecutive failed dials (outside the booking steps), never passes the threshold, and a mapped peer at the threshold is between counting and eviction |
| `PeerTheorems.HealthRemovesOnlyExhausted` | pkg/btcclient/manager.go:212-231 | in every interleaving the health check removes only peers at the threshold whose loops are giving up |
| `PeerRemoval.HealthRemovesEveryExhausted` | pkg/btcclient/manager.go:212-231 | every peer mapped and at the threshold when a health check takes the lock is off the map when the check has released it, and stays off |
| `PeerLiveness.HealthCheckCanBeMade` | pkg/btcclient/manager.go:200-231 | from every reachable state with the health loop waiting, a check can be made from tick to end, after which every peer that was at the threshold is off the map |
| `PeerTheorems.CallbackConservation` | pkg/btcclient/manager.go:91-156 | loop disconnect callbacks equal connect callbacks or trail by one; with removePeer's there is at most one more than connects; removePeer announced a peer once if it is off the map and never before |
| `PeerRemoval.UnmappedForGood` | pkg/btcclient/manager.go:55-91 | a peer that left the map is never mapped again |
| `PeerTheorems.WaitGroupAccounting` | pkg/btcclient/manager.go:73-105 | the wait group counter is the number of connection and health loops not yet returned |
| `PeerTheorems.MappedLoopsRun` | pkg/btcclient/manager.go:104-112 | while done is open every mapped peer with a live context has its loop running |
| `PeerTheorems.StopSucceedsOnlyAfterQuiet` | pkg/btcclient/client.go:80-94 | Stop reports success only after an instant of the run at which no loop was alive |
| `PeerTheorems.CancelledLoopsLetGo` | pkg/btcclient/manager.go:81-91 | a cancelled loop stores another connection, or keeps one untold once the canceller is done with it, only if it was dialing when cancelled |
| `PeerCancelled.CancelledLoopEnds` | pkg/btcclient/manager.go:104-163 | whether done is closed or not and whatever the threshold, a loop whose context is cancelled takes at most 14 more steps, and starts one more dial only if it was about to |
| `PeerCancelled.CancelledLoopEvictsOnlyIf` | pkg/btcclient/manager.go:110-126 | it comes to evict only if it was past its check of the context and at most one failed dial short of the threshold |
| `PeerCancelled.CancelledLoopConnectsNoMore` | pkg/btcclient/manager.go:110-189 | found cancelled outside the dial, it is never in a dial again and stores no further connection |
| `PeerCancelled.CancelledLoopCanReturn` | pkg/btcclient/manager.go:104-163 | from every reachable state a cancelled loop can return, and so can the loop of any peer that a user added, its context being ended |
| `PeerTheorems.SweptLoopsLetGo` | pkg/btcclient/client.go:69-78 | after Stop's sweep every loop from before it is cancelled, and its connection is told unless it was dialing when cancelled |
| `PeerTheorems.ToldOnlyWhenCancelled` | pkg/btcclient/manager.go:87-90 | a connection is told to end only when its peer was cancelled by a removal or by Stop |
| `PeerTheorems.StoppedOnlyAfterStart` | pkg/btcclient/client.go:65-69 | done is closed exactly by Stop, and only when the client was started |
| `PeerTheorems.MapInvariant` | pkg/btcclient/manager.go:55-71 | in every reachable state at most maxPeers entries, each the newest peer of its own address |
| `PeerTheorems.AddInRun` | pkg/btcclient/manager.go:55-77 | AddPeer in any reachable state changes nothing on a known address or a full map, and else maps and counts one new loop |
| `PeerTheorems.DiscoveryInRun` | pkg/btcclient/manager.go:253-286 | an addr message in any reachable state maps exactly the first new addresses there is room for, in order, with one new loop each, and leaves the peers it finds |
| `PeerTheorems.AddressesMayArrive` | pkg/btcclient/manager.go:188-189 | addr messages may come from a peer that is being dialed or that a dial has reached |
| `PeerTheorems.DiscoveredContexts` | pkg/btcclient/manager.go:269-275 | the context of a discovered peer is ended by a removal or by Stop only |
| `PeerTheorems.EvictionTarget` | pkg/btcclient/manager.go:235-239 | an eviction hits the failing loop's own peer if and only if no newer peer was made for its address |
| `PeerTheorems.EvictionsAreOwn` | pkg/btcclient/manager.go:235-239 | if no address is re-added while an older loop for it is alive, evictions remove their own peer or nothing |
| `PeerRemoval.LeftAloneExactlyWhenDialing` | pkg/btcclient/manager.go:81-91 | once a canceller has looked a peer up, some continuation leaves its loop waiting on an untold connection, off the map after a removal, if and only if the lookup met the loop inside the dial |
| `PeerRemoval.RemovingADialingPeerCanOrphanIt` | pkg/btcclient/manager.go:81-91 | from every reachable state in which a user may remove a mapped, dialing peer, such a state is reachable |
| `PeerRemoval.OrphanHoldsUpStop` | pkg/btcclient/client.go:80-94 | a removed peer with an untold connection keeps it until the other side drops it; until then the wait group stays above zero and Stop does not report success |
| `PeerWitness.RemovedPeerStaysConnected` | pkg/btcclient/manager.go:81-91 | such a state is reached from the start, with the only peer connected off the map |
| `PeerWitness.EvictionHitsTheNewcomer` | pkg/btcclient/manager.go:235-239 | a reachable state in which one loop's eviction cancels another peer |
| `PeerShutdown.ShutdownBound` | pkg/btcclient/manager.go:104-163 | once done is closed a loop takes at most 14 more steps and starts at most one dial; a loop created later takes one step and starts none |
| `PeerShutdown.RankFalls` | pkg/btcclient/manager.go:288-302 | with done closed each own step lowers a loop's rank, also when the select picks the timer, and no other step raises it |
| `PeerShutdown.WaitingReturnsExactlyWhen` | pkg/btcclient/manager.go:290-302 | a waiting loop may return exactly if done is closed or its context cancelled, and may always go round again |
| `PeerShutdown.DialsArePaced` | pkg/btcclient/manager.go:128-159 | in every run a loop starts at most one dial more than its timer has fired |
| `PeerLock.LockIsReleased` | pkg/btcclient/manager.go:81-99 | whoever takes the peer-map lock makes fewer than 5 * maxPeers + 2 steps while it holds it, whatever the others do |
| `PeerLock.HolderStepLowers` | pkg/btcclient/client.go:71-78 | every step of the lock holder, in a removal, a health scan or the sweep, brings it nearer to the end of its work |
| `PeerLock.LockHolderMoves` | pkg/btcclient/manager.go:81-99 | whoever holds the lock can take its next step |
| `PeerLock.HolderFinishes` | pkg/btcclient/manager.go:235-239 | the holder can go on until the lock is free; a loop waiting for it can then take it, and one evicting has returned |
| `PeerLock.NoLoopIsStuck` | pkg/btcclient/manager.go:104-163 | a loop that has not returned can step, or waits for a connection nobody ended, or is served within a bounded number of steps of the lock holder |
| `PeerLock.VisitInOneGo` | pkg/btcclient/manager.go:81-91 | the stages of a removal, taken in one go, do to the table and the peer what removePeer does; those of a round of the sweep let the peer go and leave the table |
| `PeerStop.UsersMayCallExactlyWhen` | pkg/btcclient/client.go:62-63 | with the lock free a user may add and remove peers exactly when Stop does not run |
| `PeerStop.StrandedStays` | pkg/btcclient/client.go:69-94 | while Stop runs, no step but a drop by the other side frees a stranded loop |
| `PeerStop.ModestStrandsNobody` | pkg/btcclient/client.go:69-94 | steps that make no new connection strand nobody |
| `PeerLiveness.StrandedHoldsUpStop` | pkg/btcclient/client.go:80-94 | a stranded loop, mapped or not, keeps its connection until the other side drops it; until then Stop does not report success and, unless Stop times out, the wait group stays above zero |
| `PeerLiveness.StopSucceedsAloneExactlyWhen` | pkg/btcclient/client.go:61-95 | from every reachable state in which Stop runs, some continuation without a drop by the other side reports success if and only if no loop is stranded |
| `PeerLiveness.StopCanSucceed` | pkg/btcclient/client.go:42-95 | from every reachable state in which Stop has not timed out, some continuation reports success |
| `PeerLiveness.StopCanTimeOut` | pkg/btcclient/client.go:86-91 | and from every one in which it has not succeeded some continuation times out |
| `PeerShutdown.OnlyLateDialsHoldUpStop` | pkg/btcclient/client.go:69-94 | after the sweep, with the lock free, a loop cannot go on exactly when it waits for a connection nobody ended, and that one was being dialed when its loop was cancelled |
| `HeaderLog.Indexer.OnHeaders` | examples/headerindexer/main.go:52-91 | appends the batch, keeps the tip, asks again exactly after 2000, declares synced after a shorter non-empty batch |
| `HeaderLog.Indexer.OnHeadersOnly` | indexer/headers.go:8-40 | the same without the follow-up request |
| `HeaderLog.Indexer.OnInv` | examples/headerindexer/main.go:95-118 | asks from the tip exactly when a block is announced, the log is synced and the connection is there |
| `HeaderLog.Indexer.OnPeerConnected` | examples/headerindexer/main.go:43-49 | asks from the hash of the last stored header, genesis when there is none |
| `HeaderLog.LogOnlyGrows` | indexer/headers.go:13-38 | under any interleaving of batches the log grows only at its end, the tip is its last hash, and synced is set only by a partial batch and never unset |
| `HeaderLog.SyncedOnceHandled` | indexer/headers.go:13-38 | once all handlers have ended, synced is set if and only if it was before or a partial batch was appended |
| `HeaderLog.ChainExactlyWhenBatchesFit` | indexer/headers.go:13-23 | the log is a linked chain from genesis if and only if every batch was linked and started at the tip when appended |
| `HeaderSync.PrefixExactlyWhenAnswersAreFresh` | examples/headerindexer/main.go:43-118 | after any run with reconnects, a growing chain, late handlers and announcements at any time, the stored headers are a prefix of the peer's chain if and only if every appended answer was empty or asked for from the tip of its moment |
| `HeaderSync.AnswerFitsExactlyWhenFresh` | examples/headerindexer/main.go:57-63 | an answer can be appended to a log that follows the chain if and only if it is empty or was asked for from the current tip |
| `HeaderSync.StoredIsAPrefix` | examples/headerindexer/main.go:43-118 | if blocks are announced to a synced log only while nothing is outstanding and no connection ends while its answer is handled, at most one request is ever out and the stored headers stay a prefix of the peer's chain |
| `HeaderSync.AnnouncedTwice` | examples/headerindexer/main.go:107-117 | two announcements before the first answer can bring each missing header twice |
| `HeaderSync.TwoAnnouncementsBreakTheLog` | examples/headerindexer/main.go:95-118 | a run from the start in which that happens |
| `HeaderSync.LateHandlerBreaksTheLog` | examples/headerindexer/main.go:52-66 | a run in which a handler of an ended connection appends after the next connection's answer: a log of two headers, synced, on a chain of one |
| `HeaderSync.SyncedExactlyWhen` | examples/headerindexer/main.go:76-83 | on a fixed chain of n headers, after any run in which appended answers were fresh, synced holds if and only if all are stored and n is not a multiple of 2000 |
| `HeaderSync.PromptAnswersAreFresh` | examples/headerindexer/main.go:43-118 | on a fixed chain all answers are fresh, whatever is announced, as long as no connection ends while its answer is handled |
| `HeaderSync.SyncedWithPromptHandlers` | examples/headerindexer/main.go:76-83 | so the same holds after every such run |
| `HeaderSync.ResumedSyncFinishes` | examples/headerindexer/main.go:43-83 | from every disconnected log that follows the chain, with n headers missing, a connection and n/2000 + 1 undisturbed replies store them all and leave nothing outstanding; synced is then set if it was before or n is not a multiple of 2000 |
| `HeaderSync.FirstSyncFinishes` | examples/headerindexer/main.go:43-83 | an undisturbed first sync stores all n headers after n/2000 + 1 replies and ends synced exactly when n is not a multiple of 2000 |
| `HeaderSync.SyncNeverStalls` | examples/headerindexer/main.go:76-78 | on a fixed chain, after any run with fresh answers, a connected log that lacks headers has a request or an answer for its tip outstanding |
| `HeaderSync.UnsyncedLogStaysBehind` | examples/headerindexer/main.go:107-114 | an idle log that is not synced ignores all announcements and fetches nothing until a reconnect |
| `HeaderFlow.AnswersAreConserved` | examples/headerindexer/main.go:52-66 | in every run the answers appended, in flight, with a handler or cut off by a disconnect are, as a multiset, the answers the peer has given: none is appended twice or forgotten |
| `HeaderFlow.LogIsWhatWasHandled` | examples/headerindexer/main.go:56-66 | the log is what handlers have appended, in their order, and without a connection nothing is outstanding |
| `HeaderFlow.EachAnnouncementAsks` | examples/headerindexer/main.go:107-117 | whatever is outstanding, every announcement makes a synced log ask from its tip, and an unsynced one never |
| `HeaderFlow.AnnouncedHeadersAreFetched` | examples/headerindexer/main.go:76-118 | one announcement and n/2000 + 1 undisturbed replies bring a synced log with nothing outstanding all n headers it lacks |
| `HeaderFlow.LateHandlersFinish` | examples/headerindexer/main.go:52-66 | connected or not, the handlers of ended connections can all append their answers |
| `HeaderLog.SameAnswerTwiceBreaksTheChain` | examples/headerindexer/main.go:57-63 | a run of the log in which the same non-empty batch is appended twice, as two peers asked from one tip cause, ends unlinked although it was linked after the first |
| `Bootstrap.ResolvePeers` | indexer/indexer.go:267-289 | explicit addresses first, then seeds, each once and nothing else |
| `Bootstrap.FirstOccurrencesAscend` | indexer/indexer.go:267-289 | the resolved list is ordered by first occurrence |
| `Bootstrap.ConnectPeers` | indexer/indexer.go:244-263 | adds every address; reports no peers exactly on an empty list, and all failed exactly when the map was full or had every listed address |
| `Bootstrap.AllRefusedExactlyWhen` | indexer/indexer.go:250-260 | adding a list makes no new peer if and only if the map is full or maps every listed address |
| `Bootstrap.RefusedInRun` | pkg/btcclient/manager.go:55-61 | in every reachable state AddPeer answers already exists exactly for a mapped address, and max peers exactly for another one when maxPeers are mapped |
| `Bootstrap.FirstOnesAreRegistered` | indexer/indexer.go:244-263 | from an empty map exactly the first min(maxPeers, length) addresses are registered, so not all fail |
| `Bootstrap.ConnectPeersNeverAllFails` | indexer/indexer.go:250-260 | in every run of a new client in which the only AddPeer calls are those of connectPeers for its list, whatever the other goroutines do, not all of them are refused |
| `Bootstrap.FirstAddSucceeds` | indexer/indexer.go:250-260 | in particular its first AddPeer succeeds |
| `Bootstrap.RivalMakesTheFirstAddFail` | indexer/indexer.go:258-260 | a second caller of AddPeer, which the indexer does not have, could make the first add fail |

## Left out

- The engine below the flat store (write-ahead log, caches, flushing, I/O errors): assumed to work as an ordered byte map; `Flush` only answers whether the store is open.
- Calls outside the interfaces' protocol: Count of a closed batch, iterator moves before any Seek, Key and Value off an entry, an iterator used after it was closed, and closing the store while an iterator is open, which the engine may answer with an error. `Iterator.Err` is not modelled: the engine is assumed not to fail.
- `PebbleStore.PebbleBatch.Commit`: a second Commit of the same batch, on which the engine's answer would be an assumption.
- Slices that share part of an array: the client's slices are whole arrays, each known by one place in its memory.
- Locks around the store calls: each call is one step, as the reader-writer locks make it.
- `PeerManager.BtcClient.Stop`: which arm of its last select is taken is a parameter of the method; when it can be the successful one is proved in the protocol.
- Restart after Stop, and Stop called again after a timeout, which would close `done` twice.
- connectionLoop as sequential code: it is an endless loop whose interest lies in its interleavings, so it is a program counter in `PeerProtocol`, not a method.
- `PeerManager.Manager.AddDiscoveredPeers` is one step of the protocol although the new goroutines start while it still holds the lock.
- User callbacks that call back into the client, and listeners left unset: callbacks return, and the callback counts are those with all listeners set.
- TCP, DNS and the wire library: a dial succeeds or fails, a connection is told or dropped; a dial on a context that is already cancelled fails.
- Timers, tickers and timeouts: they may fire at any moment. The int32 width of the failure count: it never passes the configured threshold.
- Several peers asked for headers at once: the sync runs have one peer; `SameAnswerTwiceBreaksTheChain` shows on the log what two equal answers do.
- Block hashing is an arbitrary function; the sync theorems with a peer assume that the hashes on its chain differ from each other and from genesis.
- Setters and accessors of ManagedPeer, message forwarding in handlers.go, configuration, logging and the empty handlers in indexer/: no branching of their own.
