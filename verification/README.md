# Verified model of the triskelion daemon

amphetamine replaces Wine's server process with *triskelion*: a daemon that owns
all kernel-side state of a Windows session, plus a prototype of the same duties
inside the kernel. This project models the parts of it whose correctness only
shows over whole runs or over all interleavings, and proves what they are for:

- the lock-free message ring that clients and daemon share, at the granularity
  of single loads, stores and word copies (`RingProtocol`, `ThreadQueues`);
- the daemon's event loop: request framing, the I/O thread's tables, the
  authority's bookkeeping, and the two threads with their bounded channels and
  their two client tables as one state machine, with what it guarantees about
  order, blocking and agreement (`Framing`, `ClientTables`, `IoTables`,
  `Authority`, `CspLoop`, `Blocking`, `Agreement`);
- handle tables over slabs with free lists, and shared-memory slots over the
  fixed slab (`HandleSpec`, `HeapSlabs`, `HandleTables`, `MmapSlabs`,
  `ShmManagers`);
- the tracker that learns which sent messages need no waiting, and the cache
  file that carries what was learned from run to run (`SentMessages`,
  `IntelLearning`, `IntelCache`);
- the kernel semaphore, mutex, multi-object wait and request relay
  (`SyncObjects`, `Waiting`, `Relay`);
- the struct generator's padding against `repr(C)` (`StructLayout`);
- the display segment's writer against its separately written reader
  (`DisplayShm`).

Objects that the source changes in place are classes whose methods are proved
against functions on values; protocols are step machines (`Enabled`, `Step`,
`After`), and their theorems quantify over every sequence of steps. Descriptors
are unique identities. `Basics` and `Bytes` hold shared helpers.

`dafny verify dfyconfig.toml` checks everything.

## Where the code falls short of a stated or natural promise

Each of these is stated as an if-and-only-if, with the failing input as a lemma
where the condition alone does not show it.

- Two full channels: `MutualBlockingThreshold`. Clients that wait for their
  replies are safe. 52 clients that do not wait are enough to block both threads
  for good: each has five requests ready in every batch, and two batches bring
  the 514 messages it takes, about ten from each client. `BlockedForGood`.
- A client request whose opcode is -1 or -2 is taken for a registration or a
  disconnect of its sender and is not answered; "call" below means any other
  opcode. With -2 the two threads' client tables come to differ, unless
  a -1 follows in the same read; that client's hangup mends it:
  `ThreadsAgreeIff`, `ForgottenButConnected`, `HangupHeals`.
- A process that dies while the registration of its new thread is on the way
  gets that thread listed under a closed socket, which is closed again later:
  `TablesStaySoundIff`, `ClosedTwice`, `ClosedSocketIsListed`.
- `insert_at` with the descriptor it displaces: `InsertAtOutcome`; installing a
  descriptor that an uncounted entry holds: `AllocateKeepsInv`,
  `InsertAtCountsIff`, `SwappedInIsMiscounted`. Over whole runs:
  `RunsStaySoundIff`.
- `MmapSlab::remove` on the tail of its free list: `FreeingTailMakesCycle`;
  `ShmManager` never does that, which is part of its invariant.
- Handles wrap at 2^30 indices: `NewHandleIsFresh`, `NextHandleIsZero`.
- Semaphore releases that carry the count past 2^32: `SemaphoreCountsExactly`,
  `OverflowTestIsExact`; counts above `INT_MAX` cannot be acquired:
  `AcquireGivesUpIff`.
- Mutex operations by thread id zero, and recursion past 2^32 - 1:
  `MutexExcludes`.
- WaitAll with repeated handles: `AcquirePhaseExact`, `FailureLosesUnits`.
- The relay's reply search reuses its result variable as the saved next
  link: `LookupWorksForHeadOnly`. The relay machine therefore answers the
  head only.
- Relay entries can be freed while the daemon side still uses them, in four
  windows: `RunIsSafeIff` and the lemmas named after the windows. The comment at
  `c23/triskelion_relay.c:239-243` says an entry the daemon has dequeued is left
  to complete; the code withdraws it whenever it is not completed. A signal
  in the reply window also leaves the entry in no single stage: `OneStageIff`.
- EDID bytes 64 to 127 lie under the mode list: `EdidComesBackIff`.

## Model

| member | source | states |
|---|---|---|
| `RingProtocol.EveryRunIsFifo` | rust/src/triskelion/queue.rs:102-136 | Under every interleaving of the single loads, stores and word copies of one producer and one consumer: what was popped is a prefix of what was pushed, word for word; the distance of the wrapped positions is the number of stored messages, 0 to 256; both sides are never inside the same slot |
| `RingProtocol.EveryAnswerWasTrue` | rust/src/triskelion/queue.rs:102-142 | Every "full" and every "empty" answer, and either answer of `is_empty`, however stale when given, was true at the instant the other side's position was loaded |
| `RingProtocol.HistoryIsOfTheCalls` | rust/src/triskelion/queue.rs:102-142 | In every run the pushed messages are, in order, those with which the finished pushes were called; every call of push is finished, was answered "full" or is under way, and every call of pop or `is_empty` likewise |
| `RingProtocol.CallsAreWaitFree` | rust/src/triskelion/queue.rs:102-142 | A call takes at most ten steps of its own, whatever the other side does meanwhile |
| `RingProtocol.ProducerGoesOn` | rust/src/triskelion/queue.rs:102-118 | Inside a push there is always a next step, which waits for nobody |
| `RingProtocol.ConsumerGoesOn` | rust/src/triskelion/queue.rs:120-142 | Inside a pop or `is_empty` likewise |
| `RingProtocol.StepKeepsInv` | rust/src/triskelion/queue.rs:102-136 | Each single step of either side keeps the protocol invariant: stored messages intact, the copy in progress invisible, positions exact modulo 2^64 |
| `RingProtocol.RunKeepsInv` | rust/include/triskelion_shm.h:120-148 | The same step machine is the C side's push and pop; the invariant holds after any run from any buffer contents |
| `ThreadQueues.StoreAppends` | rust/src/triskelion/queue.rs:110-114 | Storing at the write position appends to the stored messages, also across both wrap-arounds (slot index and 64-bit position) |
| `ThreadQueues.AdvanceDrops` | rust/src/triskelion/queue.rs:128-134 | Advancing the read position removes exactly the oldest message |
| `ThreadQueues.MessageRing.Push` | rust/src/triskelion/queue.rs:102-118 | Appends to the queue, or refuses if and only if it holds 256 messages and then changes nothing |
| `ThreadQueues.MessageRing.Pop` | rust/src/triskelion/queue.rs:120-136 | Returns and removes the oldest message; nothing if and only if the queue is empty |
| `ThreadQueues.MessageRing.IsEmpty` | rust/src/triskelion/queue.rs:138-142 | Answers emptiness of the queue, both directions |
| `ThreadQueues.ThreadQueue.Post` | rust/src/triskelion/queue.rs:199-206 | Like push, and keeps the wake bit on exactly while a message is stored, other bits untouched |
| `ThreadQueues.ThreadQueue.Get` | rust/src/triskelion/queue.rs:209-215 | Like pop, and turns the wake bit off exactly when the last message leaves |
| `Framing.ChunkingDoesNotMatter` | rust/src/triskelion/csp_loop.rs:656-716 | For every way of cutting the byte stream into reads, the emitted requests and the leftover bytes are those of the whole stream read at once |
| `Framing.AppendBytes` | rust/src/triskelion/csp_loop.rs:679-716 | Bytes that arrive later never disturb requests already complete |
| `Framing.NoByteIsLost` | rust/src/triskelion/csp_loop.rs:691-698 | Emitted requests followed by the leftover are exactly the bytes received |
| `Framing.FramesAreWhole` | rust/src/triskelion/csp_loop.rs:690-698 | Every emitted request is exactly as long as its own header announces |
| `Framing.ParseIsUnique` | rust/src/triskelion/csp_loop.rs:681-716 | A stream has only one reading as whole requests followed by an incomplete one, and the loop finds it |
| `Framing.RequestsComeThrough` | rust/src/triskelion/protocol.rs:20-29 | Requests as clients encode them (opcode, size of the variable part, room for the reply, 52 fixed bytes, the variable part), followed by a part of one more and cut into reads in any way, are emitted one by one as they were, each with its opcode as a signed number, and the part is kept |
| `Framing.StreamOfRequests` | rust/src/triskelion/csp_loop.rs:679-716 | The same for the whole stream at once |
| `Framing.EncodedHeader` | rust/src/triskelion/csp_loop.rs:686-696 | A request is 64 bytes and its variable part long, and its header is read back as the client meant it, whatever room it leaves for the reply |
| `Framing.PartIsNotReady` | rust/src/triskelion/csp_loop.rs:681-692 | No proper part of a request is taken for one |
| `Bytes.U32AtIsValue` | rust/src/triskelion/csp_loop.rs:685-690 | The numbers in headers and files are little-endian: four bytes are read as the number they stand for, least significant first |
| `Bytes.U64AtIsValue` | rust/src/triskelion/display.rs:100-126 | And so are eight |
| `IoTables.IoThread.HandleAccept` | rust/src/triskelion/csp_loop.rs:580-594 | Refines the accept of the tables: a new pipe under its new socket, the maps still inverse, and one registration message |
| `IoTables.IoThread.DrainMsgFd` | rust/src/triskelion/csp_loop.rs:599-645 | Received descriptors join their socket's queue in order; nothing pending is lost |
| `IoTables.IoThread.TakeInflight` | rust/src/triskelion/csp_loop.rs:700-707 | A request takes everything pending on its socket, including what arrived just before it; arrived equals forwarded plus pending, in order |
| `IoTables.IoThread.ForwardFrames` | rust/src/triskelion/csp_loop.rs:679-716 | The read loop sends one message per complete request in stream order, each with the descriptors it should carry, and stops at the incomplete rest |
| `IoTables.IoThread.HandleClientData` | rust/src/triskelion/csp_loop.rs:674-716 | One read changes only the client's own buffer, to exactly the unread rest of buffer plus chunk, and sends the complete requests, which is one data event of the two-thread machine |
| `IoTables.ReadIsData` | rust/src/triskelion/csp_loop.rs:690-716 | The senders and opcodes of the messages one read sends are exactly those of a data event of the two-thread machine, with the opcodes of the completed requests in order |
| `IoTables.RequestsBecomeMessages` | rust/src/triskelion/csp_loop.rs:679-716 | A stream of encoded requests becomes one message per request, from the client, with its opcode and all its bytes, the pending descriptors on the first and later arrivals on the next, and the part of a next request stays buffered |
| `IoTables.IoThread.Disconnect` | rust/src/triskelion/csp_loop.rs:659-672 | Refines the disconnect of the tables, drops what was pending exactly if the socket goes, and sends one disconnect message |
| `ClientTables.DroppingKeepsTables` | rust/src/triskelion/csp_loop.rs:719-744 | Removing a client keeps the two maps inverse, removes exactly it, and closes its message socket if and only if no other connected pipe shares it |
| `ClientTables.SoundIffSocketOpen` | rust/src/triskelion/csp_loop.rs:761-795 | One accept, registration or disconnect keeps everything tracked open and closes nothing twice, if and only if it is not a registration under a socket already closed |
| `ClientTables.TablesStaySoundIff` | rust/src/triskelion/csp_loop.rs:719-795 | Over every run of them: nothing tracked is ever closed, and nothing is closed twice, if and only if no registration names a socket closed before it is executed |
| `ClientTables.ClosedTwice` | rust/src/triskelion/csp_loop.rs:733-742 | The failing run: a process dies while the registration of its new thread is on the way; the thread is listed under the closed socket, whose number is then closed again |
| `IoTables.IoThread.RegisterClient` | rust/src/triskelion/csp_loop.rs:762-795 | Refines the registration of the tables under whatever socket it names; everything tracked stays open if and only if that socket has not been closed; a repeated registration changes nothing |
| `Authority.DepositConserves` | rust/src/triskelion/csp_loop.rs:272-285 | Descriptors that came with a request are added exactly once if the caller is in the table, and nowhere if it is not |
| `Authority.DepositPlace` | rust/src/triskelion/csp_loop.rs:272-285 | They join the end of the pool of the caller's process, or the caller's own queue if it has no process yet; every other pool and client stays as it was |
| `Authority.WaitingFdGoesOnce` | rust/src/triskelion/csp_loop.rs:311-326 | The descriptor waiting for a caller leaves the table and goes one way only: over the caller's own socket with its own tag, or closed if the caller has none |
| `Authority.WatchesAreStarted` | rust/src/triskelion/csp_loop.rs:328-338 | Every watch that the handlers asked for is started, once and in order: pipes, queues, then the queues to re-arm |
| `Authority.OwnedOnce` | rust/src/triskelion/ipc.rs:203-223 | The descriptors that go with a client are its reply, wait and queue descriptors and those it has received, once per place that names them |
| `Authority.Registry.Register` | rust/src/triskelion/csp_loop.rs:242-252 | An unknown pipe becomes a known client; for a client already in the table nothing changes |
| `Authority.EndsProcessIff` | rust/src/triskelion/event_loop/client.rs:64-75 | A disconnect ends its process if and only if no other connected client of the process has a listed thread of its own |
| `Authority.Registry.Disconnect` | rust/src/triskelion/event_loop/client.rs:9-131 | The client goes with the descriptors it owns, and is no longer known; the thread list keeps exactly the connected others; the pool goes, closed, exactly if the process ends |
| `Authority.Registry.Announce` | rust/src/triskelion/csp_loop.rs:296-306 | The announcements are one registration for each live client the I/O thread does not know, with that client's own socket, and none is announced twice |
| `Authority.Registry.Dispatch` | rust/src/triskelion/csp_loop.rs:287-356 | One reply for the caller with the handler's data; it announces exactly the handler's new live clients, then sends the waiting descriptor, which is closed if the caller has no socket, then starts the watches; this is what the two-thread machine takes a dispatch to announce |
| `Authority.AnnouncedIsDispatched` | rust/src/triskelion/csp_loop.rs:296-306 | What the announcing loop puts into a reply is exactly what the two-thread machine lets a dispatch announce: every client it had not been told of, once, with its own socket |
| `Authority.Registry.ProcessRequest` | rust/src/triskelion/csp_loop.rs:231-362 | A call gets exactly one reply, for its own sender; a registration leaves its sender in the table and a disconnect removes it, without a reply; the known clients are always exactly the live ones; the two-thread machine, if it had the same clients before, has the same after, unless the message is about a phantom |
| `Authority.NoNewcomerIsMissed` | rust/src/triskelion/csp_loop.rs:288-308 | Because handlers only add clients, comparing table sizes misses no newcomer: if the table has not grown, the live clients are the same |
| `CspLoop.EveryCallIsAnsweredOnceInOrder` | rust/src/triskelion/csp_loop.rs:231-362 | In every run of the two threads, executed replies answer the calls one for one in the order the calls were produced, none twice, and so in each client's own order |
| `CspLoop.EveryDispatchedCallIsAccountedFor` | rust/src/triskelion/csp_loop.rs:339-359 | In every run, each dispatched call is executed, being executed, queued, or about to be queued, in that order, until the I/O thread stops |
| `CspLoop.EffectsPrecedeBytes` | rust/src/triskelion/csp_loop.rs:746-879 | In every run, what clients and the system see is one reply after the other, each with all its effects in order before any of its bytes |
| `CspLoop.RepliesAreSeenAsMade` | rust/src/triskelion/csp_loop.rs:746-879 | In every run, what is seen of the reply to the i-th call is exactly what the authority made of that call: all its effects in order, then its bytes in order, as many as were written |
| `CspLoop.HistoryIsOfTheSteps` | rust/src/triskelion/csp_loop.rs:231-362 | In every run the messages produced are those the events brought, in order, and the replies carry, call by call, the effects and data the authority gave |
| `CspLoop.RunKeepsOrder` | rust/src/triskelion/csp_loop.rs:177-194 | The channel invariants behind the three results above hold in every reachable state, including after either thread has stopped |
| `Blocking.AuthorityNeverBlocks` | rust/src/triskelion/csp_loop.rs:117-118 | If every client waits for its reply before calling again and at most 256 wait at a time, the authority never blocks on the reply channel, whatever registrations and disconnects are mixed in |
| `Blocking.NoMutualBlocking` | rust/src/triskelion/csp_loop.rs:117-118 | If no descriptor yields more than four messages per batch, the two threads are never blocked on full channels at the same time, for any number of clients |
| `Blocking.MutualBlockingThreshold` | rust/src/triskelion/csp_loop.rs:412-487 | The bound of four is exact: a state with both threads blocked is reachable if and only if a descriptor may yield more; the run connects 52 clients, whose pipes are each handled once per batch, over two batches |
| `Blocking.BlockedForGood` | rust/src/triskelion/csp_loop.rs:412-487 | Once both threads are blocked, no step of either is possible |
| `Blocking.OnlyFullChannelsBlock` | rust/src/triskelion/csp_loop.rs:117-118 | A thread is blocked if and only if it has something to send to a thread still there over a channel that holds 256 |
| `Blocking.IoGoesOn` | rust/src/triskelion/csp_loop.rs:405-487 | Unless it is blocked or has stopped, the I/O thread has a next step |
| `Blocking.ReplyGetsDone` | rust/src/triskelion/csp_loop.rs:746-879 | A reply in hand is done after at most one step for each of its effects and bytes and two more, and nothing else delays it |
| `Blocking.AuthorityGoesOn` | rust/src/triskelion/csp_loop.rs:177-194 | So has the authority, whenever there is a request or an unsent reply |
| `Agreement.ThreadsAgreeIff` | rust/src/triskelion/csp_loop.rs:231-313 | In every run of both threads, until one stops, the clients the authority knows and those the I/O thread has are the same up to the registrations and disconnects still on their way, if and only if no client has sent an opcode that passes for its own disconnect, unless a registration opcode follows in the same read |
| `Agreement.HangupHeals` | rust/src/triskelion/csp_loop.rs:656-672 | If the two views differ about one client only, the hangup of that client makes them agree again |
| `Agreement.AtRestTheyAreEqual` | rust/src/triskelion/csp_loop.rs:239-306 | While both threads run and no such opcode was sent, the two client tables are equal whenever nothing is on its way |
| `Agreement.EveryClientIsAnnouncedOnce` | rust/src/triskelion/csp_loop.rs:761-765 | In every run, while both threads run, the authority has exactly the clients it has announced or learnt of, each is announced once, and a registration when executed is the first of its pipe |
| `Agreement.AgreeStep` | rust/src/triskelion/csp_loop.rs:231-362 | One step of either thread keeps the agreement if and only if it does not bring in such an opcode |
| `Agreement.ForgottenButConnected` | rust/src/triskelion/csp_loop.rs:256-260 | The failing run: a client that sends opcode -2 is forgotten by the authority and stays connected to the I/O thread, with nothing on its way |
| `Agreement.ClosedSocketIsListed` | rust/src/triskelion/csp_loop.rs:737-787 | A full run of both threads that ends with a new thread listed under a socket already closed |
| `HandleSpec.RunsStaySoundIff` | rust/src/triskelion/objects.rs:162-235 | Over every run of allocate, close, insert_at and descriptor swaps with open descriptors: counts stay exact and no live handle ever refers to a closed descriptor, if and only if no operation installs a descriptor that another, uncounted entry holds, none overwrites a handle with its own last descriptor, and none swaps out one that another entry still holds |
| `HandleSpec.KeepsInvIff` | rust/src/triskelion/objects.rs:162-235 | The same for one operation from any sound table |
| `HandleSpec.EveryRunKeepsDescriptorsOpen` | rust/src/triskelion/objects.rs:162-235 | In every run without those operations no live handle refers to a closed descriptor and every counted open descriptor is counted once per live entry |
| `HandleSpec.HandlesReadBack` | rust/src/triskelion/objects.rs:162-235 | Over every run, sound or not, an index reads back exactly what the last operation on it left there: the entry stored, the entry with its descriptor replaced, or nothing after a close |
| `HandleSpec.UntouchedReadsNothing` | rust/src/triskelion/objects.rs:200-202 | An index that no operation was about reads nothing |
| `HandleSpec.CountsAreReferences` | rust/src/triskelion/objects.rs:169-198 | Without swaps, the count of every descriptor is exactly the number of live entries holding it |
| `HandleSpec.AllocateKeepsInv` | rust/src/triskelion/objects.rs:162-175 | Installing an open descriptor keeps counts exact and nothing dangling if and only if it is counted already or in no entry |
| `HandleSpec.CloseKeepsInv` | rust/src/triskelion/objects.rs:177-198 | Closing removes exactly that entry, and closes a descriptor if and only if the entry was the last to hold it, counted or not |
| `HandleSpec.InsertAtOutcome` | rust/src/triskelion/objects.rs:212-235 | Overwriting a handle stores exactly the new entry, keeps counts exact, closes a counted descriptor exactly when its last holder is displaced, and leaves a dangling entry if and only if the new entry reuses that very descriptor |
| `HandleSpec.InsertAtCountsIff` | rust/src/triskelion/objects.rs:212-235 | Overwriting with an open descriptor keeps counts exact if and only if it is counted already or in no other entry |
| `HandleSpec.InsertAtCanDangle` | rust/src/triskelion/objects.rs:215-233 | The failing input: overwriting a handle with its own last descriptor leaves the handle with a closed one |
| `HandleSpec.SwappedInIsMiscounted` | rust/src/triskelion/event_loop/pipes.rs:175-178 | The failing run: a second entry for a descriptor that was swapped in is counted as the only one, and closing it leaves the first with a closed descriptor |
| `HandleSpec.NextHandleIsZero` | rust/src/triskelion/objects.rs:212-235 | The failing run: one overwrite at the last handle, 0xFFFFFFFC, brings the next handle to zero |
| `HandleSpec.SwapFdOutcome` | rust/src/triskelion/event_loop/pipes.rs:175-178 | Replacing an entry's descriptor directly leaves something dangling if and only if another entry still held the old one |
| `HandleSpec.NewHandleIsFresh` | rust/src/triskelion/objects.rs:162-175 | In every run the next handle is a multiple of four; it leads back to its own index if and only if fewer than 2^30 indices exist, and then it is nonzero and its index was never used before |
| `HeapSlabs.HeapSlab.SkipIndexZero` | rust/src/triskelion/slab.rs:31-36 | Reserves index zero once, without putting it on the free list |
| `HeapSlabs.HeapSlab.InsertBump` | rust/src/triskelion/slab.rs:41-47 | Stores at a brand new index, in generation zero, and touches no other slot and not the free list |
| `HeapSlabs.HeapSlab.RemoveUnchecked` | rust/src/triskelion/slab.rs:94-119 | Removes exactly that value, heads the free list with its slot and steps its generation; a missing or vacant index is left alone |
| `HeapSlabs.HeapSlab.Grow` | rust/src/triskelion/slab.rs:51-55 | Makes every index up to the given one a slot, with no live value, no free-list member and no old slot changed |
| `HeapSlabs.HeapSlab.FindPredecessor` | rust/src/triskelion/slab.rs:65-82 | The walk over the free list ends, and finds the member pointing at the index if and only if the index is on the list behind the head |
| `HeapSlabs.HeapSlab.Unlink` | rust/src/triskelion/slab.rs:59-83 | Takes the index, and only it, off the free list, which stays a duplicate-free chain of vacant slots |
| `HeapSlabs.HeapSlab.InsertAt` | rust/src/triskelion/slab.rs:49-92 | Stores exactly that value at exactly that index, growing, evicting and unlinking as needed, with the right generation; length, bump and free list stay consistent |
| `HeapSlabs.GenerationsCount` | rust/src/triskelion/slab.rs:102-119 | The next value stored at an index has the generation after that of the value there, modulo 2^32, or that of the vacant slot, or zero for an index beyond the end |
| `HeapSlabs.HeapSlab.Get` | rust/src/triskelion/slab.rs:122-127 | Finds exactly the live values |
| `HandleTables.HandleTable.constructor` | rust/src/triskelion/objects.rs:154-160 | The new table means the empty one, with index zero reserved |
| `HandleTables.HandleTable.Allocate` | rust/src/triskelion/objects.rs:162-167 | The slab and count map together do what the specification says of an entry without a descriptor, and the new handle reads it back |
| `HandleTables.HandleTable.AllocateFull` | rust/src/triskelion/objects.rs:169-175 | The same for an entry with a descriptor: the handle is that of the new index, and reads back the entry as given |
| `HandleTables.HandleTable.AnyHolds` | rust/src/triskelion/objects.rs:190 | The scan answers whether any live entry holds the descriptor, both directions |
| `HandleTables.HandleTable.Release` | rust/src/triskelion/objects.rs:181-195 | Gives up one reference, and closes the descriptor exactly when that was the last |
| `HandleTables.HandleTable.Close` | rust/src/triskelion/objects.rs:177-198 | Refines the specified close, and returns the entry if and only if there was one |
| `HandleTables.HandleTable.InsertAt` | rust/src/triskelion/objects.rs:212-235 | Refines the specified overwrite, including the order of releasing and counting |
| `MmapSlabs.MmapSlab.Insert` | rust/src/triskelion/slab.rs:175-192 | Hands out the most recently freed slot, else a new one; fails if and only if none is free and the capacity is used up; liveness changes for that slot only |
| `MmapSlabs.MmapSlab.Remove` | rust/src/triskelion/slab.rs:194-203 | Succeeds if and only if the slot is live or is the tail of the free list; for a live slot the free list stays the exact complement of the live ones |
| `MmapSlabs.EndMarker` | rust/src/triskelion/slab.rs:197 | The marker the code tests is carried by live slots and by the free list's tail, and by no other |
| `MmapSlabs.FreeingTailMakesCycle` | rust/src/triskelion/slab.rs:194-203 | Freeing the tail a second time leaves links that no finite duplicate-free list explains |
| `MmapSlabs.TakeHead` | rust/src/triskelion/slab.rs:177-182 | Taking the head leaves a well-formed free list and marks the taken slot live |
| `ShmManagers.ShmManager.AllocSlot` | rust/src/triskelion/shm.rs:125-145 | Fails if and only if the thread has no slot and 8192 threads have one; else the thread keeps or gets a slot no other thread has, freshly initialised, and no other thread's queue changes |
| `ShmManagers.ShmManager.FreeSlot` | rust/src/triskelion/shm.rs:148-154 | Zeroes and frees exactly that thread's slot; the slab never sees a double free; other queues keep their bytes |
| `ShmManagers.ShmManager.QueuesAreDisjoint` | rust/src/triskelion/shm.rs:157-171 | Live threads own pairwise disjoint byte ranges inside the region, clear of the header |
| `ShmManagers.SlotsAreApart` | rust/src/triskelion/shm.rs:167-171 | Slot ranges are in bounds and distinct slots do not overlap |
| `ShmManagers.InitialQueueNamesThread` | rust/src/triskelion/queue.rs:191-196 | A new queue holds its thread id and is zero everywhere else, so its ring is empty |
| `SentMessages.ConfidenceIsNineInTen` | rust/src/triskelion/sent_messages.rs:49-58 | The quotient test is the exact rule "at least eight replies, at least nine in ten zero" |
| `SentMessages.RoundingKeepsTheRule` | rust/src/triskelion/sent_messages.rs:49-58 | The same in floating point: with any order-keeping rounding that is off by at most half a unit, of quotient and threshold alike, the test is still the exact rule for all 32-bit counts |
| `SentMessages.PromotedIffQualifies` | rust/src/triskelion/sent_messages.rs:110-120 | Over every history of replies the promoted flag is exactly that rule |
| `SentMessages.RepromotionCost` | rust/src/triskelion/sent_messages.rs:63-68 | After a nonzero reply to a promoted code at n observations, promotion after t further nonzero replies takes at least 9(n+1+t) zero replies |
| `SentMessages.RepromotionIsExact` | rust/src/triskelion/sent_messages.rs:54-68 | With no further nonzero reply, k zero replies promote again if and only if k is at least 9(n+1) |
| `SentMessages.VotesAreReplies` | rust/src/triskelion/sent_messages.rs:63-68 | Over every history of replies the votes are the zero replies since the last demotion and all nonzero ones, and the code is promoted if and only if there were eight replies and nine in ten of all are zero replies since the last demotion |
| `SentMessages.ProfilesFollowReplies` | rust/src/triskelion/sent_messages.rs:110-139 | Over every run the profile of every code has observed exactly the replies to messages of that code, in order: zero or not by the result, and one zero for each envelope whose receiver disconnected |
| `SentMessages.EveryRunReleasesOnce` | rust/src/triskelion/sent_messages.rs:90-139 | Over every run of sends, replies, disconnects and reloads: each envelope taken in is released once or pending once, no empty stack is kept, and each flag is exactly the rule |
| `SentMessages.DisconnectLeavesNothing` | rust/src/triskelion/event_loop/client.rs:77-85 | After a receiver disconnects, every envelope ever addressed to it has been released and none is pending |
| `SentMessages.RepliesAreLifo` | rust/src/triskelion/sent_messages.rs:96-105 | What peek shows is what the next drain releases, and a send followed by its drain leaves the tracker as it was |
| `SentMessages.SentMessageTable.ShouldFastPath` | rust/src/triskelion/sent_messages.rs:85-87 | For a sound tracker, a code takes the fast path if and only if it satisfies the rule |
| `SentMessages.SentMessageTable.AddTracked` | rust/src/triskelion/sent_messages.rs:90-92 | Pushes the envelope on its receiver's stack and nothing else |
| `SentMessages.SentMessageTable.DrainOneWithCode` | rust/src/triskelion/sent_messages.rs:96-105 | Releases the latest envelope, reports its sender and code, and drops a stack that became empty |
| `SentMessages.SentMessageTable.Observe` | rust/src/triskelion/sent_messages.rs:110-120 | One vote for exactly that code |
| `SentMessages.SentMessageTable.DrainAllForReceiver` | rust/src/triskelion/sent_messages.rs:124-139 | Wakes every waiting sender in order, removes the stack, and counts one zero reply per envelope |
| `IntelLearning.RunCounters.RecordCall` | rust/src/triskelion/intel.rs:121-133 | After any history the counters say exactly: calls, stubs, and the smaller of 11 and the calls since the last stub, for every opcode |
| `IntelLearning.RunCounters.RecordStub` | rust/src/triskelion/intel.rs:137-142 | The same for a stub, which restarts that opcode's count |
| `IntelLearning.ClassifyByHistory` | rust/src/triskelion/intel.rs:211-225 | The stability written at shutdown depends on the run's history alone: stable if it was, or if ten requests outlived the last stub; unstable if at most three did; else unchanged |
| `IntelLearning.StabilityAcrossRuns` | rust/src/triskelion/intel.rs:211-225 | Over any number of runs an opcode ends stable if and only if it began so or some run proved it, and otherwise unstable if some run disgraced it, else as it began |
| `IntelLearning.ProvenStaysStubbed` | rust/src/triskelion/intel.rs:147-161 | Once proved, a stub without variable reply is accepted in every later run unless a hint marks it critical |
| `IntelLearning.StubDecision` | rust/src/triskelion/intel.rs:144-161 | Whether a request is stubbed, from hints and histories alone: never with a variable reply, for an unknown opcode or under hint 1; always under hints 3 and 4; else unless some run disgraced the opcode, or it was unstable before, and nothing ever proved it |
| `IntelCache.PackRoundTrip` | rust/src/triskelion/intel.rs:246 | A profile survives the packing of its flag into bit 31 if and only if it has fewer than 2^31 observations |
| `IntelCache.Flush` | rust/src/triskelion/intel.rs:165-250 | The written file holds the next header, every opcode's entry and the first 256 profiles, and keeps the installer's header fields, hints and shader index bytes |
| `IntelCache.WriteLearned` | rust/src/triskelion/intel.rs:210-237 | Every opcode's entry is written and nothing outside the table changes |
| `IntelCache.WriteProfiles` | rust/src/triskelion/intel.rs:240-248 | The first 256 profiles are written in place and nothing else changes |
| `IntelCache.LoadOpcodes` | rust/src/triskelion/intel.rs:333-347 | Reads each hint and each prior entry from its own place |
| `IntelCache.LoadMsgProfiles` | rust/src/triskelion/intel.rs:364-381 | Reads at most 256 profiles in order, skipping exactly those with zero code and votes |
| `IntelCache.LoadAcceptsIff` | rust/src/triskelion/intel.rs:298-312 | A start takes a file if and only if it has at least 10496 bytes and begins with AMPC and version two or three |
| `IntelCache.UnusedIff` | rust/src/triskelion/intel.rs:373-378 | A profile entry is skipped if and only if its first twelve bytes, code and votes, are all zero |
| `IntelCache.CacheRoundTrip` | rust/src/triskelion/intel.rs:292-347 | Loading what a flush wrote gives the run count plus one in 32 bits, saturating sums, the computed stabilities, unchanged hints and engine, and the first 256 profiles exactly as they were |
| `IntelCache.NextStartInNumbers` | rust/src/triskelion/intel.rs:188-237 | The same in plain numbers: run count plus one modulo 2^32; bit 2 of the flags set, bit 4 if it was or this is at least the fifth run, every other bit as before; call and stub counts added up to 2^32 - 1 at most; and the percentage of the 306 opcodes ever called |
| `IntelCache.RunsAreCounted` | rust/src/triskelion/intel.rs:188-206 | Over any chain of k cache files the run count grows by k modulo 2^32 |
| `IntelCache.ProfilesSurviveRestart` | rust/src/triskelion/sent_messages.rs:148-157 | What the tracker learned comes back whole after a restart if there are at most 256 codes, and otherwise only true entries come back; either way the flags are again exactly the rule |
| `IntelCache.StartedIsConsistent` | rust/src/triskelion/intel.rs:323-332 | A manager started from any readable file agrees with that file on hints and engine |
| `IntelCache.CacheNeverForgetsStable` | rust/src/triskelion/intel.rs:211-237 | Over any chain of cache files, each written by a run started from the one before, an opcode's byte ends stable if and only if it began so or some run proved it |
| `SyncObjects.SemaphoreCountsExactly` | c23/triskelion_sync.c:77-93 | For any number of threads interleaving at each read and compare-and-exchange, any maximum and any amounts: the unsigned count is at most the maximum, and equals initial plus released minus acquired if and only if no release has wrapped |
| `SyncObjects.ModestSemaphoreIsExact` | c23/triskelion_sync.c:77-93 | If no amount exceeds 2^32 - 1 - max, as when both fit an int, no release wraps and the count is exact; if max fits an int it is never negative |
| `SyncObjects.AcquireGivesUpIff` | c23/triskelion_sync.c:220-224 | In every run an acquire gives up if and only if no unit is there or more than INT_MAX are |
| `SyncObjects.ReleaseGivesUpIff` | c23/triskelion_sync.c:81-88 | In every run a release that reads the count gives up, reporting it, if and only if the sum in 32 bits exceeds the maximum, which for amounts up to 2^32 - 1 - max is the sum itself; else it goes on with what it read |
| `SyncObjects.ExchangeOutcome` | c23/triskelion_sync.c:81-92 | In every run an exchange succeeds if and only if the count is still the one read, then ends its call with the sum or one less and the previous count; one that fails was overtaken, changes nothing and starts the same call over |
| `SyncObjects.ReleaseAlone` | c23/triskelion_sync.c:77-93 | A release nobody interrupts adds its amount and reports the count before, or refuses an amount that does not fit under the maximum |
| `SyncObjects.AcquireAlone` | c23/triskelion_sync.c:215-226 | An acquire nobody interrupts takes one unit, or none if there is none |
| `SyncObjects.SemCreate` | c23/triskelion_sync.c:58-75 | A semaphore is made if and only if its maximum is positive and not below the initial count |
| `SyncObjects.SemStepKeepsInv` | c23/triskelion_sync.c:215-226 | Each single read or exchange keeps that, including exchanges on stale values |
| `SyncObjects.FailureMeansProgress` | c23/triskelion_sync.c:81-88 | A failed exchange means another thread has succeeded since the value was read |
| `SyncObjects.OverflowTestIsExact` | c23/triskelion_sync.c:83-87 | The 32-bit overflow test decides as unbounded arithmetic would if and only if the sum does not wrap back to at most the maximum |
| `SyncObjects.HugeReleaseSucceeds` | c23/triskelion_sync.c:77-93 | The failing input: releasing 2^32 - 1 on a count of one succeeds and leaves zero |
| `SyncObjects.MutexExcludes` | c23/triskelion_sync.c:103-144 | Throughout a run the mutex is free exactly when its count is zero and only its owner has net holds, equal to the recursion count, if and only if every operation was proper: the first improper one breaks it, whatever the length of the run |
| `SyncObjects.ExclusiveIffProper` | c23/triskelion_sync.c:227-243 | One operation keeps the mutex exclusive if and only if it is not thread zero acting on a free mutex and not a recursion past 2^32 - 1 |
| `SyncObjects.ReleaseReportsHolds` | c23/triskelion_sync.c:119-144 | In every proper run a thread may release if and only if it holds the mutex, and the reported previous count is its number of holds |
| `SyncObjects.AcquireSucceedsIff` | c23/triskelion_sync.c:227-243 | In every proper run a thread acquires the mutex if and only if no other thread holds it, and then holds it once more |
| `SyncObjects.ShallowRunsAreProper` | c23/triskelion_sync.c:227-243 | Threads with nonzero ids that never hold the mutex 2^32 - 1 times over only run properly |
| `Waiting.CheckAgreesWithAcquire` | c23/triskelion_sync.c:350-372 | The check phase of WaitAll says ready if and only if the acquire would succeed, and a failed acquire changes nothing |
| `Waiting.ReadyAfter` | c23/triskelion_sync.c:212-257 | A ready object can be acquired in a row exactly as often as its kind allows, with the exact state after each number |
| `Waiting.SupplyIsExact` | c23/triskelion_sync.c:212-257 | A limited supply is exactly how often an object can be acquired in a row, whether it is ready or not |
| `Waiting.TakenByCount` | c23/triskelion_sync.c:374-381 | Acquiring a list consumes each object once per listing and leaves the rest untouched |
| `Waiting.AcquirePhaseExact` | c23/triskelion_sync.c:374-386 | After a successful check the acquire phase succeeds for the whole list if and only if no object is listed more often than it can give |
| `Waiting.DistinctIsEnough` | c23/triskelion_sync.c:344-390 | A list without repetition never asks for too much |
| `Waiting.DistinctTakesOnce` | c23/triskelion_sync.c:374-381 | Without repetition each listed object is consumed exactly once and no other changes |
| `Waiting.FailureLosesUnits` | c23/triskelion_sync.c:383-388 | A pass that fails after a successful check has changed the objects: nothing is given back |
| `Waiting.SyncTable.WaitAny` | c23/triskelion_sync.c:335-343 | Acquires exactly the lowest-index ready object and changes nothing else; fails if and only if none is ready |
| `Waiting.SyncTable.AcquireAll` | c23/triskelion_sync.c:374-381 | Acquires in order up to the first object that is not ready |
| `Waiting.SyncTable.WaitAll` | c23/triskelion_sync.c:344-390 | Succeeds if and only if all are ready and none is listed too often; on failure nothing has changed if and only if the check had failed |
| `Waiting.SyncTable.Poll` | c23/triskelion_sync.c:274-396 | A whole zero-timeout call: invalid exactly for an empty or oversized list, an unknown handle or an object that cannot be waited for; else the outcome of one pass, and what a timeout has changed |
| `Relay.LookupWorksForHeadOnly` | c23/triskelion_relay.c:386-396 | The walk that looks for the entry of a reply finds the right one if and only if it is the head of the in-flight list; with a saved link of its own it always would |
| `Relay.RunIsSafeIff` | c23/triskelion_relay.c:237-258 | In every run: no entry is freed while the daemon side still uses it, if and only if no thread returned or was interrupted while its entry was being read, answered or woken |
| `Relay.StepIsSafeIff` | c23/triskelion_relay.c:321-360 | One step disturbs the daemon side if and only if it frees an entry that is being copied to the daemon, answered or woken |
| `Relay.MarksAreExact` | c23/triskelion_relay.c:330-360 | In every run the entries that the daemon side is copying or about to wake are exactly those with which it has begun and not finished |
| `Relay.ReadWindow` | c23/triskelion_relay.c:330-360 | The failing run: a thread is interrupted while daemon_read copies its entry outside the lock |
| `Relay.ReadAbortWindow` | c23/triskelion_relay.c:59-81 | The failing run: the queue is aborted while daemon_read copies, and the thread returns |
| `Relay.ReplyWindow` | c23/triskelion_relay.c:389-430 | The failing run: a thread is interrupted while its entry is being answered |
| `Relay.WakeWindow` | c23/triskelion_relay.c:66-71 | The failing run: a thread sees its entry complete and returns before the wake-up that follows touches the entry |
| `Relay.OneStageIff` | c23/triskelion_relay.c:201-258 | In every run: every entry is in exactly one stage of its life throughout, if and only if the run is orderly, that is, no entry was interrupted while it was being answered |
| `Relay.StagesStepIff` | c23/triskelion_relay.c:237-258 | One step leaves every entry in one stage if and only if it does not withdraw an entry that is being answered |
| `Relay.SignalFreeIsOrderly` | c23/triskelion_relay.c:236-253 | Runs without interrupted waits are orderly, whatever else interleaves |
| `Relay.EveryEntryLivesOnce` | c23/triskelion_relay.c:201-258 | In every orderly run each id handed out is in exactly one stage of its life and completes at most once |
| `Relay.ReadsFollowEnqueueOrder` | c23/triskelion_relay.c:321-330 | In every orderly run the daemon is handed entries in enqueue order, and the entry it may answer is the oldest it holds |
| `Relay.NextIdIsNew` | c23/triskelion_relay.c:201 | In every orderly run the next id has never been in any stage |
| `Relay.AbortCompletesQueued` | c23/triskelion_relay.c:59-81 | In every orderly run, by the end of an abort exactly the entries it found pending and in flight have been completed by it, in order and each with -EIO, whatever happened meanwhile |
| `Relay.AbortGoesOn` | c23/triskelion_relay.c:59-81 | An abort under way has exactly one next step of its own, and without an abort there is none |
| `Relay.AbortCountsDown` | c23/triskelion_relay.c:59-81 | An abort ends, releasing the lock, after two steps for each entry queued and one more, whatever other threads do meanwhile |
| `Relay.StatusIsFinal` | c23/triskelion_relay.c:424-435 | In every orderly run no later step changes the status of a completed entry |
| `Relay.ThreadsReturnTheirOutcome` | c23/triskelion_relay.c:261-266 | In every orderly run a thread whose request completed with an error returns that very error |
| `Relay.OutcomeIsGiven` | c23/triskelion_relay.c:399-432 | In every orderly run the outcome of an entry is the status with which the daemon's write completed it, or -EIO if an abort did |
| `Relay.ReturnIsGiven` | c23/triskelion_relay.c:236-300 | In every orderly run a thread returns -EINTR if interrupted, -ENOMEM if its request was never sent, else the status of its entry, or if that is zero what the copying back gives |
| `StructLayout.PaddingAgreesWithReprC` | rust/build.rs:529-549 | For every field list, the compiler puts each field of the emitted struct where the generator computed it, at a multiple of its alignment, adds no padding of its own, and the size is the generator's end offset, an aligned header alone if there are no fields |
| `StructLayout.LayoutsAgree` | rust/build.rs:577-597 | The same from any start offset, by following the field list |
| `StructLayout.FieldsAreApart` | rust/build.rs:532-549 | Every field starts at a multiple of its alignment, after the previous one has ended, inside the struct |
| `StructLayout.ComputeBodySize` | rust/build.rs:910-922 | Header plus body size is the end offset of the emitted struct |
| `StructLayout.GenerateStruct` | rust/build.rs:529-567 | The emitted members are those the layout theorem is about; the asserted size is the one the C header lists, else its own, and the assertion holds if and only if a listed size is the computed one |
| `StructLayout.TypeMap` | rust/build.rs:34-97 | Every type of the protocol has the size of the Rust type it is emitted as, an alignment of 1, 2, 4 or 8 no weaker than that type's and equal to it for integers, and a size that is a multiple of its alignment |
| `DisplayShm.DisplayRoundTrip` | rust/src/triskelion/display.rs:88-179 | Reading a written segment gives nothing without a GPU, and otherwise the GPU, the first eight connected connectors in order, their first 64 modes, the driver choice and the session |
| `DisplayShm.GpuReadsBack` | rust/src/parallax/display_info.rs:166-199 | Every number of the first graphics card comes back in its own field, and each string up to its first NUL, its end or 63 bytes |
| `DisplayShm.ConnectorReadsBack` | rust/src/parallax/display_info.rs:146-255 | The i-th connected connector comes back as the i-th, with its own kind, size and name, and its first 64 modes in order |
| `DisplayShm.ChoiceComesBack` | rust/src/parallax/display_info.rs:116-142 | The session read is Wayland if its variable is set, else X11 if that is, else unknown; the driver read is Wayland if it is asked for, or if nothing is asked for in a Wayland session whose first card is not NVIDIA, else X11 |
| `DisplayShm.ConnectedOnly` | rust/src/parallax/display_info.rs:146-151 | The connectors shown are the connected ones, in their order |
| `DisplayShm.ShownIsFirstEight` | rust/src/parallax/display_info.rs:109-113 | And of these the first eight |
| `DisplayShm.EntriesAreApart` | rust/src/parallax/display_info.rs:151-159 | Connector entries lie inside the 16384 bytes and never overlap |
| `DisplayShm.WriteHardware` | rust/src/parallax/display_info.rs:104-164 | The whole segment after one write: header, GPU and each shown connector in its own entry, and an even sequence counter |
| `DisplayShm.WriteGpu` | rust/src/parallax/display_info.rs:166-199 | The GPU entry holds its numbers and its strings cut to 63 bytes; nothing outside it changes |
| `DisplayShm.WriteConnector` | rust/src/parallax/display_info.rs:201-255 | An entry holds its numbers, name, modes, and every EDID byte that shares no place with a mode; nothing outside it changes |
| `DisplayShm.WriteModes` | rust/src/parallax/display_info.rs:243-253 | The first 64 modes are stored in order and nothing else is touched |
| `DisplayShm.ReadCstr` | rust/src/triskelion/display.rs:181-190 | Reads up to the first NUL or the limit |
| `DisplayShm.ParseConnector` | rust/src/triskelion/display.rs:127-174 | Reads every part of an entry from where the writer puts it |
| `DisplayShm.ParseShm` | rust/src/triskelion/display.rs:88-179 | Accepts exactly segments with the magic and a GPU, whatever the version, and reads at most eight connectors |
| `DisplayShm.NulFreeComesBack` | rust/src/triskelion/display.rs:181-190 | NUL-free strings come back cut to their field |
| `DisplayShm.CurrentModeComesBackIff` | rust/src/triskelion/display.rs:153-160 | The current mode comes back if and only if its index is below 64, or there are no modes and it equals the reader's default |
| `DisplayShm.EdidComesBackIff` | rust/src/parallax/display_info.rs:233-253 | The first 64 EDID bytes always come back; all of them do if and only if each later byte equals the mode byte written over it |
| `DisplayShm.EdidIsOverwritten` | rust/src/parallax/display_info.rs:233-253 | The failing input: a 128-byte EDID next to a single mode comes back changed |

## Left out

- Launcher, installer, packager, profiling, configuration, logging and data tables: filesystem and process plumbing that would only add easy members.
- Raw system calls (epoll, ioctl, mmap, SCM_RIGHTS transport, futex, /dev/ntsync): what they deliver is a parameter, what they do is a ghost effect such as "descriptor closed".
- Handler bodies behind `dispatch` and the rest of the event loop (windows, pipes, timers, registry): an arbitrary function that returns one reply, the new tables and the requested watches.
- Reuse of descriptor numbers by the operating system: descriptors are identities that are never opened again.
- The reply descriptor cached per client, pipe and queue watchers, and housekeeping ticks of the loop; descriptors still pending when a process's last pipe closes are dropped, as in the code, without a claim that they are closed.
- Memory orders weaker than sequential consistency in the ring, several producers behind the post lock, and wake bits while post and get overlap.
- Auto-reset events under concurrent waiters and the blocking wait loop around a pass: a lost race is not undone by the code, so only a pass without interference is modelled.
- Relay payloads, reply sizes and file transfer; the failure path of a read that finds too small a buffer leaves the entry in flight, which the machine allows.
- The kernel object table, kernel message queue, atom table, side tables, tokens and protocol remapping: simpler relatives of what is modelled.
- Version 1 cache files, the summary log and the cache path.
- UTF-8 repair of strings the display reader returns, and readers that look while the display segment is being written: the sequence counter is written, but the reader never looks at it.
- Parsing of protocol definitions by the generator: field lists are given with size and alignment.
- SentMessages.EveryRunReleasesOnce: vote and observation counters are unbounded, so a wrap after 2^32 replies to one code is not modelled; loaded profiles are snapshots of sound ones, which IntelCache.ProfilesSurviveRestart establishes.
- HeapSlabs.HeapSlab.InsertBump: requires an index below 2^32 - 1, where the 32-bit counter ends.
- HandleTables.HandleTable.Allocate: requires an index below 2^32 - 1, where the 32-bit counter ends.
- HandleTables.HandleTable.AllocateFull: requires an index below 2^32 - 1, where the 32-bit counter ends.
- HandleSpec.EveryRunKeepsDescriptorsOpen: runs avoid the operations that break it; HandleSpec.RunsStaySoundIff says which these are, in both directions.
- Authority.Registry.Disconnect: of the state kept per process only the pool and the thread list are modelled; alerts, abandoned mutexes, waiters and timers are not.
- IoTables.IoThread.RegisterClient: the is-primary flag only decides about epoll and non-blocking mode and is not modelled.
- DisplayShm.WriteHardware: models the first write into a zeroed segment, not a rewrite over an older one.
- StructLayout.PaddingAgreesWithReprC: alignments are 1, 2, 4 or 8, the only ones the type map produces.
- Relay.EveryEntryLivesOnce: ids are unbounded, so a wrap after 2^64 requests is not modelled; runs are orderly, which Relay.OneStageIff shows to be exactly what it takes.
- Agreement.ThreadsAgreeIff: says nothing after a thread has stopped; handlers only add clients, on new pipes.

