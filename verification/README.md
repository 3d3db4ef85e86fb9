# A verified model of the DSM's protocols and tables

The program is a page-based distributed shared memory for up to 64 nodes.
One node, the master (id 1), keeps the lock records, the barrier, the node
table and the shared pages it has allocated; the workers reach it over TCP.
This project models what the nodes do to each other and to their own tables,
and proves what users of the library rely on.

Five state machines are modelled as transition systems in which any thread of
any node may take the next step: a step is what the code does between two
points where another thread can come in (a mutex dropped, a message sent or
received). A run is any sequence of enabled steps, so each theorem about runs
covers every interleaving.

- `LockRecord`, `LockProtocol`: the distributed lock. The master's record with
  its array of 64 waiters, the workers' shadows, requests, grants and releases
  in flight; dropping the mutex and sending the grant are separate steps.
- `BarrierRecord`, `BarrierProtocol`: the barrier. The master leaves on a test
  of shared state, the workers on a message.
- `PageRecord`, `PagingProtocol`, `PagingReads`, `PagingRaces`: demand paging of
  the master's pages, every node with its fault handler, timeout and server,
  the master among them. Page state, protection, the installation of late
  replies, and the whole history of the master's memory.
- `NodeReplication`: the node table while nodes join, with the copies of it at
  the workers; and while they come and go.
- `Allocation`: the master's address counter and ownership index, used by its
  application thread and its server thread at once, initialization included.

The sequential parts are classes over the fields and arrays of the program,
each method proved against a function on sequences, about which the rest is
proved.

- `Wire`, `Framing`: message layout, the send loop, and the receive loop that
  finds the message boundaries in a byte stream.
- `NodeTable`: add, remove, search, serialize, and merge of a received table.
- `Ownership`: the hashed ownership index.
- `Regions`, `PageTable`: mapped regions, address translation, and the growing
  table of pages, over runs of creating and destroying regions.
- `Discovery`: the datagrams of the join sequence and the listener's answer.
- `Common`: constants and a few small lemmas.

## Where the code does less than its documentation says

- `dsm_lock` on the master is documented to return once the lock is acquired
  (include/dsm.h). A release by a worker changes the record without signalling
  the master's condition variable (src/dsm_sync.c:173-180), so a master that
  finds the lock held sleeps on even when it is free.
  `LockProtocol.MasterLockReturns` gives the exact condition,
  `LockProtocol.MasterSleepsOnFreeLock` a run.
- The master answers requests from the moment it has its role
  (src/dsm_init.c:308), but initializes its locks and its barrier only later
  (src/dsm_init.c:353), which frees every lock and empties the arrival list.
  `LockProtocol.ConservedIffResetFree` says exactly when a lock survives this;
  `LockProtocol.TwoInCritical` is a run with two workers in their critical
  sections, and `LockProtocol.ForgottenForever` the fate of a worker queued
  then. For the barrier it is one more way to lose an entry, below.
- A barrier call may never return: a worker waits without a predicate
  (src/dsm_sync.c:399-401), the master reads the round number after it has
  entered (src/dsm_sync.c:365-373), and an entry may come before the barrier is
  initialized. Safety holds all the same (`BarrierProtocol.BarrierSafety`);
  `BarrierProtocol.BypassedRun` says exactly when a node is lost,
  `BarrierProtocol.NextRoundPossible` what it costs, and
  `BarrierProtocol.RoundInEveryRun` that rounds complete otherwise.
  `BarrierProtocol.EarlyRelease`, `BarrierProtocol.EarlyReentry` and
  `BarrierProtocol.EntryBeforeInit` are runs from the start that end that way.
- The copy of a page at a worker is meant to be read-only. While a reply is
  installed the page is writable (src/dsm_memory.c:388-398), and with a late
  reply the application can be running then. `PagingProtocol.SingleWriter`
  gives the exact window and `PagingReads.WhatIsRead` what can be read;
  `PagingRaces.WindowRace` is a run in which a worker ends up reading a value
  the owner never had, `PagingRaces.ZeroRead` one in which a worker that stores
  nothing reads a zero the owner had overwritten before the worker asked.
- The ownership index finds an address only in a range that starts in the
  address's own bucket: `Ownership.AgreesOnDisjoint`,
  `Allocation.OwnerOfAllocated`.
- `dsm_mem_init` empties the ownership index and counts addresses up without
  the allocation mutex while the server thread may already be answering
  requests (src/dsm_memory.c:609, 618-619). `Allocation.RangesExact` says
  exactly when that does harm; `Allocation.LostRegistration`,
  `Allocation.OverlappingGrants`, `Allocation.StraddlingRequest` and
  `Allocation.CounterSetBack` are runs in which it does. No part of the program
  sends such a request yet (src/dsm_memory.c:709-711), only the handler is there.
- Destroying a region leaves its page-table entries (src/dsm_memory.c:524-549).
  `PageTable.LookupsAfter` says exactly when a lookup is misled;
  `PageTable.StaleLocalHit` and `PageTable.StaleGlobalHit` are runs in which it is.
- A node id can be given twice after a removal, or when a discovery is answered
  before the master has added itself: `NodeReplication.UniqueThroughout`,
  `NodeReplication.AddAfterRemovals`, `NodeReplication.MasterAddsItself`.

## Model

| member | source | states |
|---|---|---|
| LockProtocol.ConservedIffResetFree | src/dsm_sync.c:21-183 | through any run, or any first part of it, the lock is in exactly one place in every state, if and only if the master's initialization, when it comes, finds the record free |
| LockProtocol.TokenConservation | src/dsm_sync.c:98-183 | in every state of every such run the lock is in exactly one place: free at the master, or one of held, granted and unsent, in flight, delivered and unobserved, or being released, summed over all nodes |
| LockProtocol.TwoInCritical | src/dsm_init.c:353 | a run with a lock granted before the initialization and again after it, which ends with two workers in their critical sections |
| LockProtocol.ResetForgets | src/dsm_sync.c:27-32 | every worker queued when the initialization comes is left waiting with nothing on its way |
| LockProtocol.ForgottenForever | src/dsm_sync.c:290-298 | such a worker never gets in, in any run |
| LockProtocol.MutualExclusion | src/dsm_sync.c:234-356 | in every state of every run whose initialization finds the record free at most one node is between the return of its lock call and its unlock call, and the master's record names it |
| LockProtocol.NoErrorBranch | src/dsm_sync.c:113-147 | in no such run is a request dropped for a full queue, a release refused, or a shadow cleared that a later grant had set |
| LockProtocol.NeverFull | src/dsm_sync.c:113-121 | with fewer than 64 workers, each queued once, the waiter array has a free slot whenever a handler starts |
| LockProtocol.StepInv | src/dsm_sync.c:86-356 | every step of any thread, initialization on a free record included, keeps the invariant tying record, queue, shadows, program counters and messages together |
| LockProtocol.RunInv | src/dsm_sync.c:21-62 | so it holds in every state reached from the start, before and after an initialization that finds the record free |
| LockProtocol.ReachesGrant | src/dsm_sync.c:149-172 | a worker whose request the master has handled is in its critical section after at most 318 steps of one explicit continuation |
| LockProtocol.EntersInEveryRun | src/dsm_sync.c:149-172 | in every run, whatever the other nodes do, a worker whose request the master has handled has been in its critical section once at most 318 steps that move the lock on have been taken, unless a held lock is initialized meanwhile |
| LockProtocol.HelpfulDecreases | src/dsm_sync.c:149-172 | from any state with a served worker there is an enabled step, the protocol's own or the holder's, that brings the worker one step nearer its grant |
| LockProtocol.HelpfulPersists | src/dsm_sync.c:290-298 | every other step of any node leaves that step enabled and the distance as it was |
| LockProtocol.SendIsHelpful | src/dsm_sync.c:160-172 | a grant decided but not sent is always to the node the record names as holder |
| LockProtocol.TakingIsHelpful | src/dsm_tcp.c:183-198 | a grant delivered or observed is always the holder's |
| LockProtocol.MasterLockReturns | src/dsm_sync.c:246-259 | without spurious wake-ups the master's lock call returns if and only if no other node holds the lock at the moment of the call |
| LockProtocol.AsleepStays | src/dsm_sync.c:173-180 | no step of any worker wakes a master asleep on the condition variable |
| LockProtocol.MasterTries | src/dsm_sync.c:248-255 | at its call and at any wake-up the master takes the lock exactly if no other node has it, and sleeps otherwise |
| LockProtocol.UnlockReturns | src/dsm_sync.c:316-323 | the master's unlock call returns: it hands the lock to the recorded holder or frees it, sends the grant it owes, signals, and touches the record no more |
| LockProtocol.MasterSleepsOnFreeLock | src/dsm_sync.c:173-180 | a run that ends with the lock free, nothing in flight, and the master asleep on it |
| LockRecord.Fifo | src/dsm_sync.c:100-180 | over any calls of the handlers by any nodes, grants made followed by the queue equal the queue before followed by the requests accepted, in order; a free record has an empty queue |
| LockRecord.OneGrantPerRelease | src/dsm_sync.c:149-172 | while anyone waits, accepted releases and grants are equal in number and the record stays locked |
| LockRecord.BoundedWaiting | src/dsm_sync.c:113-172 | the request at position k is at the front after k accepted releases and is granted by exactly the (k+1)-th |
| LockRecord.DsmLock.HandleRequest | src/dsm_sync.c:98-123 | a free lock goes to the asker, who is granted it; a held one queues the asker last; with 64 waiters nothing changes |
| LockRecord.DsmLock.HandleRelease | src/dsm_sync.c:140-182 | the holder's release makes the first waiter holder and grants it the lock, the others moving up in order, or frees the lock; any other release changes nothing and fails |
| LockRecord.DsmLock.TryTake | src/dsm_sync.c:248-257 | the master takes the lock exactly when its wait condition is false |
| LockProtocol.ShadowTruth | src/dsm_tcp.c:188-195 | in every state of every such run a waiting worker whose shadow says granted is the holder by the master's record with no grant still coming; the shadow is granted all through the critical section and free when idle; after the unlock the record names the worker exactly while its release is on the way |
| LockRecord.DsmLock.constructor | src/dsm_sync.c:27-43 | a new record is free with nobody queued |
| LockRecord.LockTable.constructor | src/dsm_sync.c:26-43 | 256 separate free records |
| LockRecord.LockTable.HandleLockRequest | src/dsm_sync.c:86-126 | an id out of range is refused; otherwise that lock changes as specified and no other lock does |
| LockRecord.LockTable.HandleLockRelease | src/dsm_sync.c:128-183 | the same for a release, with its return code |
| BarrierProtocol.BarrierSafety | src/dsm_sync.c:358-405 | in every state of every run a node that has left r barriers shows that every node has entered r, and no two nodes are more than one round apart |
| BarrierProtocol.StepInv | src/dsm_sync.c:189-405 | every step keeps the invariant on arrival list, round number, nodes and messages |
| BarrierProtocol.RunInv | src/dsm_sync.c:45-48 | so it holds in every state reached from the start, before and after the barrier is initialized |
| BarrierProtocol.HandleOpens | src/dsm_sync.c:203-224 | the entry that completes a round finds every node entered and sends every worker exactly one release |
| BarrierProtocol.BypassingSteps | src/dsm_sync.c:365-401 | a step leaves some node bypassed if and only if it delivers a release to a worker not yet waiting, handles an entry to the next round before the master has tested its own, or handles an entry before the barrier is initialized |
| BarrierProtocol.BypassedRun | src/dsm_sync.c:189-405 | in every state of every run some node is bypassed if and only if such a step has been taken |
| BarrierProtocol.BypassedStep | src/dsm_sync.c:370-401 | whatever step is taken, a bypassed node stays inside its barrier call and no round completes |
| BarrierProtocol.BypassedForever | src/dsm_sync.c:370-401 | so it is for the rest of every run |
| BarrierProtocol.TestedRun | src/dsm_sync.c:369-373 | once the master has tested while its round was open nothing can bypass it in that call, in any run |
| BarrierProtocol.EarlyRelease | src/dsm_sync.c:393-401 | a run from the start in which a release overtakes the worker's wait and leaves it bypassed |
| BarrierProtocol.EarlyReentry | src/dsm_sync.c:365-373 | a run from the start in which a worker is back at the barrier before the master has tested, which leaves the master bypassed |
| BarrierProtocol.EntryBeforeInit | src/dsm_init.c:353 | a run from the start in which an entry is handled before the barrier is initialized and its worker is left bypassed |
| BarrierProtocol.NextRoundPossible | src/dsm_sync.c:189-228 | a further round can complete if and only if no node has been bypassed |
| BarrierProtocol.StepAdvances | src/dsm_sync.c:358-405 | with nobody bypassed every step that bypasses nobody, other than the master waking in vain, completes the round or lowers a measure |
| BarrierProtocol.CanAdvance | src/dsm_sync.c:358-405 | and there always is such a step |
| BarrierProtocol.RoundInEveryRun | src/dsm_sync.c:358-405 | in every run, while nobody is bypassed, a round is complete after at most 382 such steps, whatever order they come in |
| BarrierProtocol.EntryInFlight | src/dsm_sync.c:196-203 | when all nodes wait in an open round an entry is still in flight: the list cannot be complete and unreleased |
| BarrierRecord.ArrivalsFit | src/dsm_sync.c:196-224 | under any joins, departures and repeated entries at most 63 arrivals are listed when a handler starts, so the append stays inside the array |
| BarrierRecord.Barrier.HandleEnter | src/dsm_sync.c:189-228 | an entry that makes the list at least as long as the node count, or longer after departures, empties it, moves the 32-bit round number on by one and releases exactly the listed nodes other than the master; any other is listed and releases nobody |
| BarrierRecord.ListShort | src/dsm_sync.c:196-224 | after any joins, departures and entries, an entry leaves fewer nodes listed than the count it read |
| BarrierRecord.OthersSplit | src/dsm_sync.c:210-216 | releases are in the order of arrival, one for each arrival but the master's |
| BarrierRecord.Barrier.Releases | src/dsm_sync.c:210-216 | the loop sends a release to every listed node but the master, in the order of arrival |
| BarrierRecord.Barrier.constructor | src/dsm_sync.c:45-48 | round 0, nobody in |
| BarrierRecord.OthersMembers | src/dsm_sync.c:210-216 | releases go to exactly the arrived nodes other than the master |
| PagingReads.WhatIsRead | src/dsm_memory.c:331-419 | in every state of every run a node can read a page of the master's if and only if a reply for it has been copied in or is about to be; it reads its own last store if it has stored since the last copying, else a snapshot of the master's memory sent after it asked, else, only in the window of a first installation, zero |
| PagingReads.SnapshotReads | src/dsm_memory.c:331-370 | an installed byte not stored to since is what the master had in memory at a step that sent it, after this node had asked for the page, whatever timeouts and late replies there were |
| PagingReads.MarksRun | src/dsm_memory.c:383-408 | a copy counts as installed, or as stored to, exactly if the steps of the run contain such a copying, or a store with no copying after it |
| PagingReads.LastStoreRead | src/dsm_memory.c:394-398 | after a node's last store with no copying since, its memory holds the value of that store |
| PagingReads.StoresInWindow | src/dsm_memory.c:388-398 | a store to a page of the master's that no copying has overwritten was made between the copying and the protection of an installation, or in a window whose copying is still to come |
| PagingReads.NoGoingBack | src/dsm_memory.c:372-419 | what is installed later at a node is never older in the master's history |
| PagingReads.RefetchedAfterGivingUp | src/dsm_pagefault.c:290-294 | a failed send or a timeout leaves protection and content, and the next fault on the page sends a new request |
| PagingReads.TraceRun | src/dsm_tcp.c:109-129 | everything a node holds or is about to receive stems from a request it made |
| PagingProtocol.SingleWriter | src/dsm_memory.c:383-408 | in every state of every run a node can store to a master's page if and only if an installation of it is between its two protection changes; else it is read-only after a first installation, without access before; shared implies installed |
| PagingProtocol.OwnedUntouched | src/dsm_pagefault.c:190-221 | in every state of every run nothing is requested or on its way for a page at the node that owns it, no installation of it is open or can be opened, and it stays valid and writable |
| PagingProtocol.OwnerWrites | src/dsm_tcp.c:120-129 | in every run the master's memory of a page changes by the master's own stores and by nothing its server receives |
| PagingProtocol.MasterEnabled | src/dsm_pagefault.c:190-221 | the master never asks for a page, is never sent one and never installs one |
| PagingProtocol.StepInv | src/dsm_pagefault.c:188-329 | every step of any node keeps the invariant on copies, requests, replies in flight and the master's history, which only grows |
| PagingProtocol.RunInv | src/dsm_pagefault.c:188-329 | so it holds in every state reached from the initial one |
| PagingRaces.ZeroRead | src/dsm_memory.c:386-395 | a run, through a timeout and a late reply, after which a worker that has stored nothing can read 0 where the master had stored 5 before the worker asked |
| PagingRaces.WindowRace | src/dsm_pagefault.c:317-326 | a run, through a timeout and a late reply, after which a worker reads 9 where the owner only had 0 and 5 |
| PagingRaces.StoreInWindowStays | src/dsm_memory.c:394-406 | a store between copying and protection is possible from any such state and is then read as a shared page's content |
| PageRecord.PageEntry.HandleFault | src/dsm_pagefault.c:188-225 | a fault on a valid page of another node changes nothing and fetches nothing; on an invalid or pending one it makes it pending and fetches; on an owned one it makes it modified and writable |
| PagingReads.ValidFault | src/dsm_pagefault.c:190-206 | in any run a fault on a shared page of another node, such as a store to it, leaves the whole system as it is |
| PagingReads.RequestedInvalid | src/dsm_pagefault.c:209-225 | in any run a request goes out only for a page that was not valid when its fault was taken |
| PagingReads.PendingRun | src/dsm_pagefault.c:277-328 | in any run a page is pending only while the handler is busy with it: not after a timeout, a failed send or an installation |
| PagingReads.FetchEnds | src/dsm_pagefault.c:317-332 | a fetch that has ended leaves the page as installed |
| PagingReads.OwnerMarks | src/dsm_memory.c:789-797 | an owner may mark its page shared, a fault makes it modified again, and it stays writable with what it holds |
| PagingReads.ChannelsInOrder | src/dsm_tcp.c:109-129 | in any run requests are handled and replies taken in the order they were sent, once each, and a reply holds what the master had in memory when it was sent |
| PageRecord.PageEntry.Install | src/dsm_memory.c:383-408 | the bytes received over the front of the page, read-only, shared, with the version received |
| PageRecord.PageEntry.constructor | src/dsm_memory.c:205-212 | a new page is writable if owned and without access if not |
| Framing.RoundTrip | src/dsm_tcp.c:633-654 | decoding the concatenation of any sent messages gives those messages in order, once each |
| Framing.PrefixRoundTrip | src/dsm_tcp.c:290-358 | decoding any first part of it gives the first of those messages, none changed |
| Framing.DecodeSound | src/dsm_tcp.c:323-335 | whatever the stream, a message delivered has the magic number and a payload of the length it says, at most 65536 |
| Framing.Receiver.Serve | src/dsm_tcp.c:360-398 | for any stream and any timing of its arrival a level-triggered socket delivers exactly the messages of the stream, and so does an edge-triggered one if no header is rejected: all the messages sent if all of it arrives, the first of them if the connection ends early |
| Framing.Receiver.HandleClientData | src/dsm_tcp.c:290-358 | one call delivers a first part of the stream's messages, leaves the rest in the socket, skips a rejected header, gives up on a payload cut short, and otherwise stops only with less than a header at hand |
| Framing.Receiver.ReadPayload | src/dsm_tcp.c:337-350 | the buffer holds exactly the next bytes of the stream, under any chunking; failure if and only if the stream ends before |
| Framing.OutSocket.SendRaw | src/dsm_tcp.c:589-607 | all the bytes go out in order, however few the kernel takes at a time; on an error a first part of them |
| Framing.OutSocket.SendMessage | src/dsm_tcp.c:633-654 | what was a stream of messages becomes the stream with this one at the end; without a socket nothing is sent, and on an error a first part |
| Wire.HeaderRoundTrip | include/dsm_types.h:208-216 | the six header fields survive the packed layout |
| Wire.HeaderLayout | include/dsm_types.h:208-216 | each is at its offset of the packed structure |
| Wire.Little | include/dsm_types.h:210-215 | a field's bytes are in the memory order of the machines, least significant first |
| Wire.U32RoundTrip | include/dsm_types.h:210-215 | so does every 32-bit field |
| NodeTable.TableRoundTrip | src/dsm_network.c:227-284 | a serialized table of up to 64 nodes reads back as the same entries in order, whatever follows it, and fits one message |
| NodeTable.InfoRoundTrip | include/dsm_types.h:225-233 | one packed entry reads back with the same id, address text, port, chunks, role and state |
| NodeTable.InfoLayout | include/dsm_types.h:225-233 | each is at its offset of the packed structure, the address padded with zeros |
| NodeTable.TableLayout | include/dsm_types.h:235-239 | the count comes first, then the entries in order |
| NodeTable.TableTransfer | src/dsm_network.c:227-337 | a table sent as bytes and received into an empty one is there with id, address, port, chunks, role and state, in order |
| NodeTable.MergeIntoEmpty | src/dsm_network.c:289-333 | a table received into an empty one is reproduced in order |
| NodeTable.MergeOverrides | src/dsm_network.c:291-333 | merging is a map override by id that keeps the old nodes' order, appends new ids, keeps ids unique, and covers every id received unless the table is full |
| NodeTable.MergeIdempotent | src/dsm_network.c:291-333 | receiving the same table twice is receiving it once, even when there was no room |
| NodeTable.MergeFields | src/dsm_network.c:304-325 | after a merge a node at an old place has the address, port, chunks, role and state last received for its id, with its own id, socket and heartbeat; one not spoken of is as it was; a new one has what was last received for its id, no socket and the present time |
| NodeTable.MergeOrder | src/dsm_network.c:312-328 | new ids are appended in the order in which they first come |
| NodeTable.MergeOldNode | src/dsm_network.c:304-311 | a node that was there keeps its place |
| NodeTable.Table.Deserialize | src/dsm_network.c:267-337 | a message too short for its count changes nothing and fails; any other leaves the merge of its entries |
| NodeTable.Table.Serialize | src/dsm_network.c:227-265 | the encoding of the whole table, or failure exactly when the room does not suffice |
| NodeTable.Table.Add | src/dsm_network.c:67-129 | a known address gets the socket, the connected state and the heartbeat, and nothing else of it or of other nodes changes; a new one is appended with the next id and all its fields; a full table refuses and stays |
| NodeTable.Table.Remove | src/dsm_network.c:131-168 | the first node with the id goes and those behind it move up; no such node, no change and failure |
| NodeTable.Table.ShiftDown | src/dsm_network.c:160-163 | the shift loop closes the gap and changes nothing before it |
| NodeTable.Table.Get | src/dsm_network.c:170-189 | the first node with the id |
| NodeTable.Table.Find | src/dsm_network.c:191-211 | the first node with the address |
| NodeReplication.PrefixReplica | src/dsm_network.c:267-360 | in every state of every run of joins the master's ids are 1 to count by position, a worker's table is a prefix of the master's, and a node once added stays under its id |
| NodeReplication.Convergence | src/dsm_udp.c:120-140 | once a worker has had the last broadcast its table equals the master's, whatever older messages come after |
| NodeReplication.JoinKeys | src/dsm_network.c:78-120 | a join appends the next number, or returns the id a known address already has |
| NodeReplication.JoinBroadcasts | src/dsm_udp.c:126-140 | a join leaves the table as adding does and is broadcast exactly if the sender is in it afterwards |
| NodeReplication.ChangedMeans | src/dsm_tcp.c:99-107 | in a run of joins and departures each changes the table as adding and removing do |
| NodeReplication.MergePrefixes | src/dsm_tcp.c:82-87 | merging two prefixes of one numbered table leaves the longer of them |
| NodeReplication.StepInv | src/dsm_network.c:339-360 | every join, broadcast and delivery keeps the prefix relation and the numbering |
| NodeReplication.UniqueThroughout | src/dsm_network.c:92-164 | through any run of joins and departures ids stay unique if and only if no new node joins while a node in the table has the id count + 1 |
| NodeReplication.AddAfterRemovals | src/dsm_network.c:100-164 | when some nodes of a table numbered from 1 have left, the next new id is fresh if and only if none was in the table or the node numbered one more than those remaining is among them |
| NodeReplication.LeaveUnique | src/dsm_network.c:131-168 | a removal keeps ids unique and takes away exactly the one id |
| NodeReplication.MasterAddsItself | src/dsm_init.c:308-313 | the master's own entry has a fresh id if and only if it is the first |
| Ownership.AgreesOnDisjoint | src/dsm_memory.c:68-86 | on ranges that do not overlap the hashed lookup answers as a newest-first search of all ranges if and only if that search finds nothing or a range that starts in the address's bucket |
| Ownership.SinglePagesExact | src/dsm_memory.c:41-86 | on aligned single pages the two always agree |
| Ownership.InOwnBucket | src/dsm_memory.c:41-43 | the pages of a range that are in its bucket are every 4096th from its start |
| Ownership.ChainFind | src/dsm_memory.c:73-82 | walking one chain finds the newest range of that bucket that contains the address |
| Ownership.ChainUpdate | src/dsm_memory.c:93-103 | changing the entry found in a chain changes that range's owner among all ranges |
| Ownership.OwnershipTable.Register | src/dsm_memory.c:45-66 | the range becomes the newest of all |
| Ownership.OwnershipTable.Get | src/dsm_memory.c:68-86 | the owner in the newest range that contains the address and starts in its bucket, or none |
| Ownership.OwnershipTable.SetOwner | src/dsm_memory.c:88-107 | looking the address up afterwards gives the new owner, and no other range and no base or size changes; if the address is not found, nothing changes and it fails |
| Ownership.OwnershipTable.Reset | src/dsm_memory.c:109-112 | every chain is emptied |
| Ownership.OwnershipTable.constructor | src/dsm_memory.c:38-39 | no ranges |
| Allocation.OwnerOfAllocated | src/dsm_memory.c:681-696 | in every state of every run without such a step the lookup of an address gives the owner of its range if its page is a multiple of 4096 pages from the range's start, and nothing otherwise |
| Allocation.RangesDisjoint | src/dsm_memory.c:688-696 | while the ranges are exact no address is in two of them, registered or still to be, in whatever order they were registered |
| Allocation.RangesExact | src/dsm_memory.c:598-637 | in every state of every run of the application and the server thread, access by access, the ranges given out contain every address from 16 MB to the next free one exactly once and no other, if and only if no nonempty range was registered before the index was emptied, and neither thread has added to a counter it had read before the other added to it |
| Allocation.RunStanding | src/dsm_tcp.c:138-146 | what is exact, lost, doubled or out of date in every phase of initialization and of a request, given which spoiling steps have come |
| Allocation.RunAligned | src/dsm_memory.c:681-692 | every range and the counter stay page-aligned |
| Allocation.RangesOwned | src/dsm_memory.c:688-696 | in every state of every run a range registered is the master's, taken by it at that place and size, or belongs to the worker whose request read the counter there and asked for that much; a range the application thread holds is the master's |
| Allocation.LostRegistration | src/dsm_memory.c:608-612 | a run in which a page granted to a worker is in no range once initialization is over |
| Allocation.OverlappingGrants | src/dsm_memory.c:616-619 | a run in which one page ends up registered for the master and for a worker |
| Allocation.StraddlingRequest | src/dsm_tcp.c:139-143 | the same by a request that begins before and ends after the master's accesses |
| Allocation.CounterSetBack | src/dsm_tcp.c:139-143 | a run in which a request for nothing sets the counter back to the start of the master's chunks |
| Allocation.Donated | src/dsm_memory.c:611-612 | the donated region is the whole number of chunks if and only if there are fewer than 2^20, the product being a 32-bit one |
| Allocation.Allocator.Alloc | src/dsm_memory.c:674-696 | zero is refused; otherwise the master gets the size rounded up to pages from the counter on, and the counter moves on by as much |
| Allocation.Allocator.Request | src/dsm_tcp.c:131-143 | the counter and the range still to be registered are those of the protocol's three request steps taken one after the other; the range is at least as large as asked, less than a page larger, and owned by the asker |
| Common.AlignUp | src/dsm_memory.c:681-682 | the multiple of the page size at or next above a size |
| Regions.Bijection | src/dsm_memory.c:551-592 | on disjoint regions each translation undoes the other on every live address |
| Regions.LiveBijection | src/dsm_memory.c:502-592 | so it is after any run of mapping and freeing |
| Regions.Unlink | src/dsm_memory.c:531-542 | unlinking one region takes its own addresses out of both translations and changes no other |
| Regions.FreeUnlinks | src/dsm_memory.c:730-746 | freeing an address unlinks its region if and only if its global address is not zero, and otherwise changes nothing |
| Regions.NotHere | src/dsm_memory.c:551-592 | an address in no region translates to nothing either way, and freeing it changes nothing |
| Regions.RegionList.Free | src/dsm_memory.c:730-746 | the list after the two searches and the unlinking |
| Regions.RegionList.FindGlobal | src/dsm_memory.c:551-564 | the first region that contains the global address |
| Regions.RegionList.FindLocal | src/dsm_pagefault.c:38-53 | the first region that contains the local address |
| PageTable.LookupsAgree | src/dsm_memory.c:240-286 | while regions are only created, the global and the local form of every address in them give the same entry, and it is that page's |
| PageTable.LookupsAfter | src/dsm_memory.c:524-549 | after any run of creating and destroying regions, looking up an address of a live region by its local (global) form gives its own page's entry if and only if no region destroyed in the run had that local (global) address |
| PageTable.LocalLookup | src/dsm_memory.c:264-286 | the same for the local form in any state that such a run keeps |
| PageTable.GlobalLookup | src/dsm_memory.c:240-262 | and for the global form |
| PageTable.RunInv | src/dsm_memory.c:502-542 | through every run the table holds the pages of all regions ever created, in order, and regions created while another is live are apart from it |
| PageTable.StaleLocalHit | src/dsm_memory.c:277-281 | a run of creating, destroying and creating after which the lookup of a live page's local address gives the entry of the destroyed one |
| PageTable.StaleGlobalHit | src/dsm_memory.c:331-353 | such a run after which the lookup by global address gives a local address that is no longer mapped |
| PageTable.CreateRegion | src/dsm_memory.c:461-522 | the region, of whole pages, goes last in the list and all its pages last in the table, so the table goes on holding exactly the pages of the listed regions; a failed mapping changes neither |
| PageTable.Table.Grow | src/dsm_memory.c:217-229 | twice the capacity, every entry kept |
| PageTable.Table.Register | src/dsm_memory.c:214-233 | the entry goes last and the count stays within the capacity |
| PageTable.Table.Lookup | src/dsm_memory.c:240-262 | the first entry of the address's global page |
| PageTable.Table.LookupLocal | src/dsm_memory.c:264-286 | the first entry of the address's local page |
| Discovery.DatagramRoundTrip | src/dsm_udp.c:91-145 | both printed datagrams scan back to the same address, port and chunk count, and neither scans as the other |
| Discovery.PrintScan | src/dsm_udp.c:26-27 | what is printed under any tag scans back under it |
| Discovery.TagsExclusive | src/dsm_udp.c:91-145 | no text whatever scans under both tags |
| Discovery.ScanExact | src/dsm_udp.c:91-145 | a text scans under a tag if and only if it is the tag, 1 to 15 characters that are no slash, a slash, a number, a slash and a number, whatever follows |
| Discovery.NumberSigned | src/dsm_udp.c:91-145 | blanks, a sign or none, and digits scan as the signed value of the digits, up to the last of them |
| Discovery.NumberOfDecimal | src/dsm_udp.c:233-235 | a printed number scans back and leaves what follows it |
| Discovery.HandleDatagram | src/dsm_udp.c:86-156 | a master given a discovery that is not its own replies, to the address in it, with a text that scans back to the master's own address, port and chunks, and with a connection adds the sender, tells it its id and broadcasts the table; a node that is not the master, or is given its own discovery, does none of this; a reply tells where the master is |

## Left out

The environment, as the model assumes it:

- Sockets, epoll, select, interface discovery and connection set-up are reduced to the channels they give: reliable, first in first out, one sender at a time on each socket.
- The join is complete before a worker's application calls the library: it has its id, its connection to the master, and its own locks and barrier initialized. The master may be anywhere in its initialization; freeing one lock's record, or the barrier's, is one step of it.
- pthread mutexes appear as steps that are atomic; condition variables as guards.
- Membership is fixed in the lock and barrier protocols. `BarrierRecord.ArrivalsFit` needs no such assumption.
- One application thread per node, without nested locks or releases of locks not held: include/dsm.h:156 leaves the latter undefined, and a worker's nested call sends a second request and returns at once (src/dsm_sync.c:285-298).
- LockProtocol follows one lock id; `LockRecord.LockTable` shows that the handlers touch no other lock.
- Spurious wake-ups of the master's lock wait are steps of LockProtocol; the workers' barrier wait has no predicate, and the model assumes it wakes only on a release.
- PagingProtocol follows one byte of each page, at any one offset: copying a page is not atomic against stores, so a snapshot is of each byte, not of the page. The worker's application may touch any page at any moment, also while it would be blocked in a fault, which only adds runs; `dsm_malloc_at` marking its own pages shared is a step that may come at any time.
- The signal handler's spin, the eventfd and failing mmap or mprotect are not part of this model, except that `PageTable.CreateRegion` covers a failed mmap.

The program's other parts:

- Framing.Receiver.ReadPayload: when the peer closes inside a payload it returns the error; the program does so only if errno does not still hold an earlier "try again", and loops on otherwise (src/dsm_tcp.c:341-345).
- Discovery.HandleDatagram: numbers are unbounded where the scanner's 32-bit int overflows without a defined result.
- Allocation.Allocator.Alloc: addresses stay below 2^64, and so does rounding a size up. Emptying the index and each access to the counter are single steps of Allocation, and memory for an index entry is always found. A node that donates nothing cannot map its region, so its initialization fails (src/dsm_memory.c:627-632); Allocation starts with something to donate.
- PageTable.CreateRegion: registering a page always succeeds; the program ignores a failure (src/dsm_memory.c:515), which leaves a region without some of its entries.
- PageRecord.PageEntry.Install: the data are at most a page, as `dsm_page_send` makes them; the program copies as many bytes as the message says.
- Regions and page entries are identified by their place in a sequence, and the hash chains and the region list are sequences in place of linked nodes; aliasing of a record freed elsewhere is not captured.
- A worker's own `dsm_mem_alloc`, which counts from a counter of its own, and `dsm_malloc_at` and `dsm_map_remote` as registrations in the index: no disjointness holds there. In Regions and PageTable live regions are apart, as fresh mappings are.
- A worker maps pages of its own and of the master's, as `dsm_region_create` is called; pages of other workers are not mapped by any call. No node maps one global page twice, and pages stay mapped in PagingProtocol.
- `dsm_page_invalidate`, `dsm_page_mark_modified` and `dsm_page_request`: nothing calls them. Copies may therefore be stale, and no sequential consistency is claimed.
- Choosing the master by timeout (src/dsm_udp.c:287-317): two nodes starting together can both become master.
- Heartbeats, SHUTDOWN, what a departed node means for locks, finalization, logging, status and the menu: no protocol logic to prove.
