# Verified models of the Galois runtime

This project models the hard core of Galois, a C++ system for parallel and distributed graph
analytics, in Dafny 4.11 and proves what that core is for. Every file is one module:

| file | what it models |
|---|---|
| `Dissemination.dfy`, `Mcs.dfy`, `DisseminationCompletion.dfy`, `McsCompletion.dfy` | the two tree-like thread barriers, as machines whose steps are single loads and stores, and that every episode ends |
| `RecvBuffer.dfy`, `Channel.dfy` | the buffered network between two hosts: aggregation of messages into frames, MPI, reassembly from fragments |
| `HostFence.dfy`, `FenceStack.dfy`, `FenceProgress.dfy` | the distributed fence over abstract FIFO pipes, the same fence on the byte-level channels, and that it comes to an end |
| `Sssp.dfy` | the two tutorial shortest-path operators in 32-bit arithmetic, for every order of the worklist |
| `Bfs.dfy`, `BfsTermination.dfy`, `BfsPriority.dfy`, `BfsLevels.dfy` | distributed breadth-first search on any partition into proxies, with the operators interleaved access by access, that it ends, and what infinity means |
| `PerBackend.dfy`, `PerBackendLedger.dfy` | the allocator of per-thread storage: a shared bump pointer and power-of-two free lists, and what its callers hold |
| `UnionFind.dfy`, `UnionCalls.dfy`, `UnionLengths.dfy` | the GPU component space: compare-and-swap unify and walking find, how their calls end, and the lengths they keep |
| `ThreadPool.dfy`, `ThreadPoolRuns.dfy` | the wake and join tree of the thread pool, over any sequence of runs, in blocking and busy-waiting mode |
| `Inspector.dfy`, `InspectorRounds.dfy`, `Exclusive.dfy`, `ExclusiveCompletion.dfy` | the nested-parallelism inspector and the three-phase exclusive marking of the GPU library |
| `FileGraph.dfy` | graph images of version 1 and 2: writing, reading in place, reading a slice, copying |
| `ZOrder.dfy` | the Z-order comparator |
| `Arith.dfy`, `Bytes.dfy`, `Wrappers.dfy` | powers of two, sums, modular arithmetic, little-endian words, options |

## How the models are built

Concurrent code is a state: the source's own fields, one program counter per thread that names the
next shared access, and history variables that nothing in the machine reads. A run is an arbitrary
list of thread numbers or events; a step that is not possible is skipped. The theorems quantify over
every such list, every size and every initial parameter. What callers gave and got is read off the
list of events, not off the history of the machine. Code that works by changing things step by
step is also given in that form, as classes and methods with loops, proved against functions of the
inputs or of the old state.

What lies outside the source is assumed, explicitly, in the shape of a step: MPI keeps the order of
messages between two hosts; `sync` with a min reduction takes the minimum over the proxies whose bit
is set and gives it to all proxies of a node; `for_each` runs operators of shortest paths one at a
time; a condition variable wakes a thread whose predicate holds; memory is sequentially consistent;
`mmap` fails only for an empty length; `nextLoc` starts at 0.

## What turned out differently from the documentation or from what one would expect

* Shortest paths: labels are exact for all graphs, orders and operators if and only if the number of
  nodes times the largest weight fits 32 bits. Bounding the longest simple path is not enough
  (`Sssp.ExactIffFits`, `Sssp.SimplePathBoundNotEnough`).
* Per-thread storage: the allocator is safe in every interleaving if and only if all threads
  together cannot push the 32-bit bump pointer within the largest block of its end, which for 2 MB
  pages is 1791 threads (`PerBackendLedger.SafeIffRoomy`, `PerBackend.HugePageThreads`).
* Component space: a comment says that find needs no synchronization against unify because it only
  touches elements that are not bosses. With path compression it also stores to bosses. The sets are
  right after every prefix of a run if and only if no step stores an element into itself after that
  element was linked (`UnionFind.SoundIffClean`, `UnionFind.LateStoreLosesUnify`). Two policies a
  caller can follow each rule that out: no compressing find on a boss, or none on a boss while a
  unify is under way (`UnionFind.NeverOnBossesIsClean`, `UnionFind.PhasedIsClean`).
* Component lengths: unify reads one length and adds it to another without holding either. Once no
  addition is under way, the length of a boss falls short of the size of its set by exactly what was
  added to an element whose own length had been read before (`UnionLengths.LengthExact`); two
  threads on three elements can leave length 2 (`UnionLengths.LengthFallsShort`).
* Network: `inflightSends` can be 0 while a frame is under way, exactly when a worker stands between
  the removal of the last message and the increment for the frame (`Channel.ZeroSendsMeansIdle`,
  `Channel.SendGapReachable`).
* Graph files: the length limit of `fromFile` counts one byte an edge, so edge data is found if and
  only if there are edges and a record is larger than one byte (`FileGraph.LimitFindsData`,
  `FileGraph.OneByteDataIsDropped`).
* Graph files of version 2: `rawBlockSize` leaves out the padding that `fromArrays` and `fromMem`
  skip. So the copy of edge data runs past the memory asked for, and `partFromFile` looks for edge
  data in the padding, if and only if the version is 2 and the number of edges is odd
  (`FileGraph.SizeSplits`, `FileGraph.WriteImage`, `FileGraph.PartsFindData`).

## Model

| member | source | states |
|---|---|---|
| `Dissemination.FastLog2Up` | libgalois/src/Barrier_Dissemination.cpp:28-31 | the number of rounds is the least r with 2^r at least the number of threads |
| `Dissemination.Reinit` | libgalois/src/Barrier_Dissemination.cpp:55-72 | the loops fill flags, sense and parity with the initial state and link thread i in round r to (i + 2^r) mod P |
| `Dissemination.KnownArrivals` | libgalois/src/Barrier_Dissemination.cpp:79-92 | a thread past round r is preceded into the episode by the 2^(r+1) threads that end at itself on the ring |
| `Dissemination.StoresSeen` | libgalois/src/Barrier_Dissemination.cpp:83-88 | a spinning thread's signaller has stored in every earlier episode of this parity, in no later one, and the count tells whether in this one |
| `Dissemination.SpinReadsCurrentSignal` | libgalois/src/Barrier_Dissemination.cpp:84-87 | a spinning thread reads its own sense exactly when its signaller has signalled in this very episode |
| `Dissemination.BarrierSafety` | libgalois/src/Barrier_Dissemination.cpp:79-92 | in every run, who has left episode e has been preceded into it by every thread |
| `Dissemination.FlagReuseExact` | libgalois/src/Barrier_Dissemination.cpp:83-91 | parity and sense reversal make the two flags safe to reuse without reset: in every run a flag equals the spinner's sense if and only if it was stored in the current episode |
| `Dissemination.NoDeadlock` | libgalois/src/Barrier_Dissemination.cpp:79-92 | when all threads are inside wait, some thread can move |
| `DisseminationCompletion.BarrierCompletes` | libgalois/src/Barrier_Dissemination.cpp:79-92 | from every reachable state in which all threads have entered an episode, in whatever order threads inside wait step, at most 2 log P + 1 steps a thread are not failed spins, and when none is left every thread has returned from it and is outside, and its next call enters the next episode, unless it had entered that before |
| `Mcs.SlotsOwnedOnce` | libgalois/src/Barrier_MCS.cpp:59-67 | each thread but the root owns exactly one arrival slot of the 4-ary tree and one wake-up parent of the binary tree |
| `Mcs.Reinit` | libgalois/src/Barrier_MCS.cpp:53-69 | the loops build the initial state and both trees' links, absent ones included |
| `Mcs.RootAfterArrivals` | libgalois/src/Barrier_MCS.cpp:76-91 | the root is past its wait for arrivals at most as often as any thread has arrived |
| `Mcs.WokenAfterRoot` | libgalois/src/Barrier_MCS.cpp:84-97 | no thread is woken more often than the root has seen all arrivals |
| `Mcs.BarrierSafety` | libgalois/src/Barrier_MCS.cpp:76-98 | in every run, who has left episode e has been preceded into it by every thread |
| `Mcs.ResetPrecedesArrival` | libgalois/src/Barrier_MCS.cpp:82-87 | whenever a thread is about to clear its slot the slot is set, so a parent's reset never overwrites an arrival |
| `Mcs.AwaitReadsCurrentWake` | libgalois/src/Barrier_MCS.cpp:88-97 | a waiting thread reads its own sense exactly when its wake-up parent has written in this episode |
| `Mcs.NoDeadlock` | libgalois/src/Barrier_MCS.cpp:76-98 | in no state of any run are all threads blocked |
| `McsCompletion.BarrierCompletes` | libgalois/src/Barrier_MCS.cpp:76-98 | the same for this barrier, with at most thirteen steps a thread |
| `RecvBuffer.AdvanceKeepsStream` | libdist/src/NetworkBuffered.cpp:138-150 | dropping used-up fragments leaves the remaining bytes as they are and the offset inside the front fragment |
| `RecvBuffer.RecvBuffer.SizeAtLeast` | libdist/src/NetworkBuffered.cpp:83-95 | true exactly when the leading run of the tag has n bytes, although the sum starts at a wrapped negative number |
| `RecvBuffer.RecvBuffer.CopyOut` | libdist/src/NetworkBuffered.cpp:97-114 | the first n bytes of the stream, across fragments |
| `RecvBuffer.RecvBuffer.PopVec` | libdist/src/NetworkBuffered.cpp:120-136 | moves the front vector out exactly when it ends with the message, and consumes as erase would |
| `RecvBuffer.RecvBuffer.Erase` | libdist/src/NetworkBuffered.cpp:138-150 | drops n bytes of the stream and counts every fragment used up |
| `RecvBuffer.RecvBuffer.GetLenFromFront` | libdist/src/NetworkBuffered.cpp:152-163 | the little-endian length at the front if four bytes of the tag are there, else ~0 |
| `RecvBuffer.RecvBuffer.PopMsg` | libdist/src/NetworkBuffered.cpp:166-191 | refines a parser of the byte stream on the moving and on the copying path, however the stream is cut; a failed pop changes nothing |
| `RecvBuffer.RecvBuffer.Add` | libdist/src/NetworkBuffered.cpp:211-232 | appends a frame's bytes to the stream |
| `RecvBuffer.RecvBuffer.HasData` | libdist/src/NetworkBuffered.cpp:234-234 | true whenever a message of the tag can be popped |
| `Channel.CountIsLongest` | libdist/src/NetworkBuffered.cpp:311-328 | the first pass of assemble takes the longest prefix of one tag whose frame fits the int limit |
| `Channel.CountPass` | libdist/src/NetworkBuffered.cpp:311-328 | the loop computes tag, bytes and length words of that prefix |
| `Channel.ParseHead` | libdist/src/NetworkBuffered.cpp:166-191 | on any arrived part of the stream, the parser answers only to the tag of the first pending message, with exactly its bytes, and as soon as they have arrived |
| `Channel.PoppedInOrder` | libdist/src/NetworkBuffered.cpp:166-442 | in every interleaving of senders, flushers, worker, network and receiver, the messages popMsg has returned are the first of those given to sendTagged, in order, once each, whole; it answers only to the tag of the next one, and does once its bytes have arrived |
| `Channel.QuietMeansArrived` | libdist/src/NetworkBuffered.cpp:305-442 | once nothing is queued or under way, everything given and not yet returned lies in the receive buffer |
| `Channel.CountTakesLongest` | libdist/src/NetworkBuffered.cpp:311-328 | in every run, assemble counts a non-empty prefix of the queue, all of the first message's tag, whose frame fits the int limit, and the next message has another tag or would not fit |
| `Channel.FrameIsCountedPrefix` | libdist/src/NetworkBuffered.cpp:305-359 | although senders add and flushers mark between its two passes, no step of assemble changes what was counted, and the frame handed to MPI encodes exactly that under its tag |
| `Channel.ZeroBytes` | libdist/src/NetworkBuffered.cpp:268-359 | numBytes is zero exactly when nothing is queued and no assemble is under way |
| `Channel.FlushGuarantee` | libdist/src/NetworkBuffered.cpp:268-303 | in every run, as long as a message covered by the last markUrgent is queued, ready answers yes by the urgent rule alone; the unlocked test of numBytes skips the mark only when nothing is queued; the mark covers every message queued at it; urgent is never more than one above the messages covered |
| `Channel.NeverStuck` | libdist/src/NetworkBuffered.cpp:305-442 | while a message has not been popped, a step of the worker or of the receive side is enabled, or the head of the channel can be popped |
| `Channel.ReadyMeansQueued` | libdist/src/NetworkBuffered.cpp:275-309 | ready never lets the worker assemble an empty queue |
| `Channel.ZeroSendsMeansIdle` | libdist/src/NetworkBuffered.cpp:305-359 | inflightSends is never negative, and is 0 if and only if every pair has nothing to send or an uncounted frame in its worker's hands |
| `Channel.SendGapReachable` | libdist/src/NetworkBuffered.cpp:347-352 | for every message there is a run that ends with the counter at 0 and the message in the worker's hands |
| `Channel.ZeroRecvsMeansConsumed` | libdist/src/NetworkIOMPI.cpp:143-183 | inflightRecvs is 0 if and only if every frame probed has been consumed to its last byte |
| `Channel.InvHolds` | libdist/src/NetworkBuffered.cpp:247-442 | stream conservation, worker, urgency and counter invariants hold after every list of events |
| `HostFence.PhaseAdvances` | libdist/src/Barrier.cpp:81-87 | the phase follows the number of fences across the wrap, and neighbouring fences have different phases |
| `HostFence.TakenOncePerFence` | libdist/src/Barrier.cpp:69-80 | the head of a pipe carries the awaited phase only if its host was not yet heard in this fence, so counting messages counts hosts |
| `HostFence.LeaveHeardAll` | libdist/src/Barrier.cpp:69-80 | a host leaves only after hearing from all others |
| `HostFence.FencePromise` | libdist/src/Barrier.cpp:50-88 | when a host has passed a fence, every other host has entered it and every message it sent before has had its handler run to the end, in order |
| `HostFence.HandledBeforeFence` | libdist/src/NetworkBuffered.cpp:486-517 | the receive lock of a source keeps its fence message back until the handler of the message before it is done |
| `HostFence.AwaitedIsUnderWay` | libdist/src/Barrier.cpp:69-80 | what a receiving host lacks from a host that has sent its fence messages is under way, and comes behind nothing the receiver does not ask for |
| `HostFence.OneFenceApart` | libdist/src/Barrier.cpp:52-88 | hosts are never more than one fence apart |
| `FenceStack.ChannelIsPipe` | libdist/src/NetworkBuffered.cpp:166-191 | what the byte-level channel hands out for a tag is the head of the abstract pipe, tag and bytes, and removes it |
| `FenceStack.SendOnIsPush` | libdist/src/NetworkBuffered.cpp:474-484 | sending on the channel is appending to the pipe |
| `FenceStack.HostEventEnabled` | libdist/src/Barrier.cpp:52-88 | refinement: every step of a host on the channels is a step on the pipes |
| `FenceStack.HostKeepsHandlers` | libdist/src/Network.cpp:115-129 | refinement: the handlers are given, from the bytes the receive buffers return, what the handlers over the pipes are given |
| `FenceStack.GivenIsSent` | libdist/src/Network.cpp:92-97 | in every run, the messages for handlers that a pair's channel was given are those the source gave to sendMsg, read off the events, in order |
| `FenceStack.HandledWasGiven` | libdist/src/Network.cpp:115-129 | what has been handled on a host from another, with what is in hand, are the first of the messages given to sendMsg, in order, once each |
| `FenceStack.FenceAcrossStack` | libdist/src/Barrier.cpp:50-88 | the fence promise on the real stack: when a host has passed a fence, every other host has entered it by some call of wait, and every message given to sendMsg for this host before that call has come out of its receive buffer byte for byte and has had its handler run to the end, in order, whatever aggregation and fragmentation did |
| `FenceStack.EntersOnce` | libdist/src/Barrier.cpp:52-88 | a host enters each fence by exactly one call of wait |
| `FenceStack.HostsStayTogether` | libdist/src/Barrier.cpp:52-88 | hosts are never more than one fence apart in any run of the stack |
| `FenceProgress.FenceNeverStuck` | libdist/src/Barrier.cpp:52-88 | in every state of every run, while a host is inside wait and all hosts have entered that fence, a step of the fence is enabled that is no new message, no new fence and no flush |
| `FenceProgress.StepLightens` | libdist/src/Barrier.cpp:52-88 | every such step lowers a measure over hosts, queues, frames and handlers, and no event of the network raises it |
| `FenceProgress.FenceCompletes` | libdist/src/Barrier.cpp:52-88 | from every reachable state in which all hosts have entered a fence, in whatever order hosts, workers and MPI act, boundedly many steps can be taken, and when none is left every host has passed the fence |
| `Sssp.ProcessDescends` | lonestar/tutorial_examples/SSSPPushSimple.cpp:71-85 | every operator application lowers the sum of labels or keeps it and shrinks the worklist, even where sums wrap |
| `Sssp.NoWrap` | lonestar/tutorial_examples/SSSPsimple.cpp:49-53 | if the number of nodes times the largest weight fits, no sum of a label and a weight wraps in any state that keeps the invariant, and an unlabelled node gets a finite label |
| `Sssp.RunIsExact` | lonestar/tutorial_examples/SSSPsimple.cpp:42-96 | for every order of the worklist and both operators, a finished run has the shortest distance on every node, infinity where there is no path |
| `Sssp.RelaxEdgeKeepsLoop` | lonestar/tutorial_examples/SSSPsimple.cpp:42-54 | relaxing one edge, when no sum can wrap, keeps every label the weight of a simple path and every labelled node relaxed or pending, and adds the edge to the relaxed ones of the active node |
| `Sssp.Solver.Operator` | lonestar/tutorial_examples/SSSPPushSimple.cpp:71-85 | the loop over the edges of the active node, with the stale test where there is one |
| `Sssp.Solve` | lonestar/tutorial_examples/SSSPPushSimple.cpp:103-154 | the data-driven loop ends for every choice of items on every graph, with exact labels when no sum can wrap |
| `Sssp.ExactIffFits` | lonestar/tutorial_examples/SSSPsimple.cpp:42-96 | labels are exact for all graphs of n nodes with weights up to W, all orders and both operators, if and only if n * W fits 32 bits |
| `Sssp.SimplePathBoundNotEnough` | lonestar/tutorial_examples/SSSPsimple.cpp:49-53 | with 3 nodes and weights below 2^31 every simple path fits, and yet some run is wrong |
| `Bfs.SyncAgrees` | attempts/bfs_push_with_max.cpp:540-541 | the min reduction gives all proxies of a node one value, no larger than any of them had, and the length of a real walk |
| `Bfs.LoweredIsDirty` | attempts/bfs_push_with_max.cpp:626-675 | when the operators of a round are through, every proxy lowered since the last sync has its bit set |
| `Bfs.BetweenRounds` | attempts/bfs_push_with_max.cpp:481-590 | between rounds every local edge is relaxed against dist_old, proxies of a node agree and no bit is left |
| `Bfs.FinishedBelowWalks` | attempts/bfs_push_with_max.cpp:588-590 | a run that ended for lack of active vertices has labels no longer than any walk of the whole graph |
| `Bfs.FinishedIsExact` | attempts/bfs_push_with_max.cpp:300-675 | for every partition, priority sequence and interleaving, such a run has the breadth-first level on every proxy |
| `BfsPriority.PriorityLimits` | attempts/bfs_push_with_max.cpp:638-660 | at every time of a round each label is the one the round started with or at most the priority of the round |
| `BfsTermination.MovesBounded` | attempts/bfs_push_with_max.cpp:626-675 | the accesses left in a round are never more than a number of the partition |
| `BfsTermination.MoveDescends` | attempts/bfs_push_with_max.cpp:626-675 | every access of an operator leaves one less |
| `BfsTermination.FruitfulRoundsBounded` | attempts/bfs_push_with_max.cpp:481-590 | a run has at most as many rounds with a priority of infinity or above and an active vertex as the first values of dist_old add up to |
| `BfsTermination.PriorityRecurs` | attempts/bfs_push_with_max.cpp:461-484 | whatever delta is, the 32-bit sums of the priority come back to infinity or above |
| `BfsTermination.EveryRunFinishes` | attempts/bfs_push_with_max.cpp:461-590 | with the program's own priorities no run, however scheduled, is longer than a number of the partition and delta, and one that cannot go on has finished |
| `BfsTermination.EveryRunIsExact` | attempts/bfs_push_with_max.cpp:300-675 | total correctness: such a run has the breadth-first level on every proxy |
| `BfsLevels.ShortWalk` | attempts/bfs_push_with_max.cpp:626-675 | a node that is reached is reached by a walk with fewer edges than there are nodes |
| `BfsLevels.InfinityIsUnreached` | attempts/bfs_push_with_max.cpp:72-72 | for at most 2^30 - 1 nodes, a run that cannot go on has the label 2^30 - 1 on exactly the proxies whose nodes no walk reaches |
| `PerBackend.NextLog2` | libgalois/src/PerThreadStorage.cpp:60-69 | the least exponent from 7 up whose power covers the size, the abort exactly above 2^29 |
| `PerBackend.ChangeTiles` | libgalois/src/PerThreadStorage.cpp:113-119 | the change blocks tile the rest of a split block to the byte |
| `PerBackend.SplitTiles` | libgalois/src/PerThreadStorage.cpp:107-119 | the piece handed out and its change tile the whole block |
| `PerBackendLedger.BlocksPartition` | libgalois/src/PerThreadStorage.cpp:71-145 | in every interleaving, overshooting fetch_adds included: every block returned lies in the page and apart from all blocks its callers hold; held and free blocks are disjoint, aligned and in the page; and when all threads are idle they tile everything handed out so far, so no byte is lost |
| `PerBackendLedger.SearchFindsFree` | libgalois/src/PerThreadStorage.cpp:88-105 | a caller can give back exactly what it holds; a search can take exactly the free blocks of the smallest class that fits, and fails exactly when none fits |
| `PerBackendLedger.PushedIsFree` | libgalois/src/PerThreadStorage.cpp:142-144 | a block given back elsewhere than at the end is on the free lists until a search takes it |
| `PerBackendLedger.CallsGoOn` | libgalois/src/PerThreadStorage.cpp:71-145 | a thread inside a call can always take its next step, and each brings the call nearer to its end |
| `PerBackendLedger.OvershootReturns` | libgalois/src/PerThreadStorage.cpp:75-81 | with too many threads there is a run that returns a block outside the page |
| `PerBackendLedger.SafeIffRoomy` | libgalois/src/PerThreadStorage.cpp:71-145 | for pages of a power of two, every block returned in every interleaving is in the page and apart from all blocks held if and only if threads times page plus 2^29 stays below 2^32 |
| `PerBackend.HugePageThreads` | libgalois/src/PerThreadStorage.cpp:41-41 | for 2 MB pages that is up to 1791 threads |
| `PerBackend.FirstList` | libgalois/src/PerThreadStorage.cpp:98-105 | the search stops at the first list that is not empty |
| `PerBackend.GiveChange` | libgalois/src/PerThreadStorage.cpp:113-119 | the change loop pushes exactly the change, each block once on the list of its class |
| `PerBackend.SplitFree` | libgalois/src/PerThreadStorage.cpp:107-123 | taking a larger block and giving change keeps the partition of the page |
| `PerBackend.Backend.AllocOffset` | libgalois/src/PerThreadStorage.cpp:71-124 | sequentially, live blocks, free blocks and the tail partition the page; a request gets a block that was not live, or fails exactly when neither the tail nor a free block has room |
| `PerBackend.Backend.DeallocOffset` | libgalois/src/PerThreadStorage.cpp:126-145 | a block at the end goes back to the tail, any other to its list, and the partition is kept |
| `UnionFind.RootLink` | libgpu/include/component.h:165-165 | linking a boss below a larger element moves exactly its own set |
| `UnionFind.RootCompress` | libgpu/include/component.h:130-131 | pointing an element that is no boss at an element above it changes no root |
| `UnionFind.SameRootIffConnected` | libgpu/include/component.h:119-133 | under the invariant two elements have one root exactly when a walk of joined pairs connects them |
| `UnionFind.SoundIffClean` | libgpu/include/component.h:119-186 | for every run: the sets are those of the successful unifies after each prefix if and only if no step stores an element into itself after it was linked |
| `UnionFind.NeverOnBossesIsClean` | libgpu/include/component.h:119-133 | a run in which no compressing find is called on a boss has no such step |
| `UnionFind.PhasedIsClean` | libgpu/include/component.h:119-186 | neither has a run in which compressing finds on bosses and unifies never overlap |
| `UnionCalls.SetsAreComponents` | libgpu/include/component.h:116-186 | in every run without such a step the sets are the components of the unify calls that swapped, read off the events, these form a forest, and ncomponents is the number of bosses plus the unifies between swap and decrement |
| `UnionCalls.UnifyRefusesOnlyIf` | libgpu/include/component.h:139-175 | in every interleaving a unify returns false only if its arguments are one element or one of them is no boss at that very access, and otherwise puts the smaller boss below the larger element |
| `UnionCalls.UnifyIsRun` | libgpu/include/component.h:134-186 | from every reachable state the uninterrupted steps of a unify change parents, lengths and count as the method does |
| `UnionCalls.FindIsRun` | libgpu/include/component.h:119-133 | the same for find |
| `UnionCalls.CallsGoOn` | libgpu/include/component.h:119-186 | a thread inside a call can always take its next step, and each brings the call nearer to its end |
| `UnionCalls.FindEndsAtRoot` | libgpu/include/component.h:119-133 | in every run without such a step find stops only at the root its element has at that moment, and stores that if it compresses |
| `UnionFind.FindProgress` | libgpu/include/component.h:126-132 | in every run without such a step each step of a find brings it nearer to its end, whatever other threads do |
| `UnionFind.LateStoreLosesUnify` | libgpu/include/component.h:130-131 | the compressing store of a find that began on a boss undoes a unify in between |
| `UnionLengths.LengthExact` | libgpu/include/component.h:172-175 | in every run without such a step, the length of a boss in whose set no addition is under way plus what was added too late is the size of the set, so it is right if and only if nothing was added too late |
| `UnionLengths.LateAddIsLost` | libgpu/include/component.h:172-175 | every addition to an element whose length has been read loses what it adds |
| `UnionLengths.LengthFallsShort` | libgpu/include/component.h:134-186 | a run of two unifies on three elements ends idle with one set of three and length 2 |
| `UnionFind.ComponentSpace.constructor` | libgpu/include/component.h:98-115 | every element is alone, with length 1, and all are counted |
| `UnionFind.ComponentSpace.Find` | libgpu/include/component.h:119-133 | sequentially, the boss; compression changes no set, no length and no count |
| `UnionFind.ComponentSpace.Unify` | libgpu/include/component.h:134-186 | sequentially, joins two distinct bosses under the larger id, adds their lengths and drops the count, refuses anything else; complen of a boss is the size of its set |
| `ThreadPool.ParentHalves` | libgalois/src/ThreadPool.cpp:188-200 | each thread heads exactly one half of its parent's range |
| `ThreadPool.HalvesParent` | libgalois/src/ThreadPool.cpp:188-200 | the two heads of a thread's range have it as their parent |
| `ThreadPoolRuns.OncePerRun` | libgalois/src/ThreadPool.cpp:179-229 | over any sequence of calls in any interleaving, when the master is back every thread has left its wait and done the work exactly once for each call with min(max(1, num), n) above its number |
| `ThreadPoolRuns.MasterOncePerRun` | libgalois/src/ThreadPool.cpp:203-229 | and so has the master |
| `ThreadPoolRuns.NeverTwice` | libgalois/src/ThreadPool.cpp:132-158 | at no time has a thread worked or been woken more often than it was called |
| `ThreadPoolRuns.JoinWaitsForAll` | libgalois/src/ThreadPool.cpp:160-177 | the master is past its decascade only when every thread of the call has done the work |
| `ThreadPoolRuns.RunAccepted` | libgalois/src/ThreadPool.cpp:203-214 | a call of run is accepted exactly when the master is back, in busy-waiting mode for the size of the switch only |
| `ThreadPoolRuns.RunCompletes` | libgalois/src/ThreadPool.cpp:132-229 | from every reachable state at most eleven steps a thread can be taken, in whatever order, and when none is left the master is back |
| `ThreadPoolRuns.SwitchTakesEffect` | libgalois/src/ThreadPool.cpp:70-88 | after burnPower the master keeps the number asked for, cut to those there are, and exactly the threads below it wait busily; after beKind none |
| `ThreadPool.NoDeadlock` | libgalois/src/ThreadPool.cpp:160-229 | while a run is on, some thread can step, in blocking and in busy-waiting mode |
| `ThreadPool.StepsGoForward` | libgalois/src/ThreadPool.cpp:132-177 | every step moves its thread on in the run, so a run has at most eleven steps a thread |
| `Inspector.FlatIsThreadIteration` | libgpu/include/internal.h:112-118 | with exclusive prefix sums, each iteration of each thread is one flattened iteration |
| `Inspector.NPInspector1.Inspect2` | libgpu/include/internal.h:139-155 | writes the thread's next iterations and their source to consecutive slots as far as loop and round go, and no other slot; a thread through with all iterations before the round is through with those of the round |
| `Inspector.InspectIsRun` | libgpu/include/internal.h:139-155 | the method and the machine agree: in every reachable state the uninterrupted writes and close of a thread change slots and thread as the method does |
| `Inspector.NPInspector1.ExecuteRoundDone` | libgpu/include/internal.h:163-166 | a thread that is through with the iterations up to the round's end is through with exactly those before the next round's first slot, which is what the next inspection starts from |
| `Inspector.WritesAreSafe` | libgpu/include/internal.h:124-137 | in every interleaving a write goes to a slot in bounds that was not written in this round |
| `Inspector.RoundIsNextSlice` | libgpu/include/internal.h:124-161 | when a round executes, each slot was written once and holds the next flattened iteration |
| `Inspector.EachIterationOnce` | libgpu/include/internal.h:157-166 | each iteration of each thread is executed at most once, and exactly once when work turns false |
| `Inspector.NotStuck` | libgpu/include/internal.h:124-166 | until the block is over some thread can go on |
| `InspectorRounds.ExecutesAllIterations` | libgpu/include/internal.h:112-166 | when the block is over, the items executed are exactly the iterations of all loops, each once |
| `InspectorRounds.BlockCompletes` | libgpu/include/internal.h:124-166 | no run is longer than a number of the loops and the slots, and one that cannot go on has executed all iterations |
| `Exclusive.ExclusiveLocks.MarkP1` | libgpu/include/exclusive.h:52-56 | the items hold the id, the others are as before |
| `Exclusive.ExclusiveLocks.MarkP2` | libgpu/include/exclusive.h:64-68 | the items hold the smaller of what they held and the id |
| `Exclusive.ExclusiveLocks.Owns` | libgpu/include/exclusive.h:76-82 | true exactly when every item holds the id |
| `Exclusive.MarkP1IsRun` | libgpu/include/exclusive.h:52-56 | from every reachable state, uninterrupted steps of a thread through the first phase do what the method does |
| `Exclusive.MarkP2IsRun` | libgpu/include/exclusive.h:64-68 | the same for the second phase, with a load and, if needed, a minimum for each item |
| `Exclusive.OwnsIsRun` | libgpu/include/exclusive.h:76-82 | the same for the question of the third phase |
| `Exclusive.WordsAreLeast` | libgpu/include/exclusive.h:52-68 | in every interleaving with barriers between the phases, every claimed word ends as its least claimant |
| `Exclusive.OwnsIffLeast` | libgpu/include/exclusive.h:76-82 | a thread is told it owns its items exactly when it is the least claimant of each |
| `Exclusive.OwnersDisjoint` | libgpu/include/exclusive.h:76-82 | owners have disjoint items |
| `Exclusive.SmallestOwns` | libgpu/include/exclusive.h:76-82 | the smallest id always owns its items, so each round makes progress |
| `ExclusiveCompletion.MarkingCompletes` | libgpu/include/exclusive.h:52-82 | no run is longer than a number of the requests, and one that cannot go on has answered every thread |
| `FileGraph.ImageParts` | libgalois/src/FileGraph.cpp:154-271 | what fromArrays writes is laid out as fromMem expects, padding included |
| `FileGraph.SizeSplits` | libgalois/src/FileGraph.cpp:154-176 | rawBlockSize is where the edge data starts plus its size if and only if the version is 1 or the number of edges is even, and otherwise one word short |
| `FileGraph.WriteImage` | libgalois/src/FileGraph.cpp:189-262 | word by word or copied, for both versions, the memory holds the image; the copy of edge data leaves the memory exactly for records of an odd number of edges in version 2 |
| `FileGraph.FileGraph.FromArrays` | libgalois/src/FileGraph.cpp:184-271 | round trip: the object made from arrays, in host or in file order, shows the same index and destinations from the given offsets, and the edge data where the image is counted in full |
| `FileGraph.FileGraph.CopyOf` | libgalois/src/FileGraph.cpp:58-62 | a copy of a part shows the same nodes and edges of the whole graph under the same numbers, and the same edge data |
| `FileGraph.FileGraph.FromMem` | libgalois/src/FileGraph.cpp:104-141 | header fields, the three pointers for either version, the version check and the length limit |
| `FileGraph.FileGraph.FromImage` | libgalois/src/FileGraph.cpp:104-141 | without a length limit, memory that starts as an image shows the graph from the given offsets, and its edge data if the memory holds the whole image |
| `FileGraph.FileGraph.FromFile` | libgalois/src/FileGraph.cpp:273-294 | a file shows the whole graph, its edge data exactly when records are larger than one byte |
| `FileGraph.LimitFindsData` | libgalois/src/FileGraph.cpp:125-131 | the length of an image exceeds the limit's count exactly when there are edges with records of more than one byte |
| `FileGraph.OneByteDataIsDropped` | libgalois/src/FileGraph.cpp:125-131 | a graph of one edge with one byte of data whose image holds the byte and whose file loses it |
| `FileGraph.LoadFromOffset` | libgalois/src/FileGraph.cpp:305-318 | the page-aligned mapping plus the alignment is the requested slice of the file |
| `FileGraph.MapDataOf` | libgalois/src/FileGraph.cpp:387-393 | the offset computed for a part's edge data is where its records are, when the image is counted in full |
| `FileGraph.PartsFindData` | libgalois/src/FileGraph.cpp:387-393 | for given sizes, that offset finds the edge data of every file if and only if the version is 1 or the number of edges is even |
| `FileGraph.FileGraph.PartFromFile` | libgalois/src/FileGraph.cpp:347-396 | a part shows exactly its nodes' index entries, its edges' destinations and, when the image is counted in full, its edges' data; it fails exactly where an empty part starts on a page boundary |
| `FileGraph.IteratorsExact` | libgalois/src/FileGraph.cpp:613-639 | the edge iterators of a node of a part stand for its edges in the whole graph if and only if the edge range covers them |
| `FileGraph.SameAdjacency` | libgalois/src/FileGraph.cpp:613-654 | read from the whole graph or from any part that covers it, a node has the same number of edges with the same destinations |
| `FileGraph.SameEdgeData` | libgalois/include/galois/graphs/FileGraph.h:390-396 | and the same edge data |
| `FileGraph.MatchingCovers` | libgalois/src/FileGraph.cpp:347-396 | a node range with its matching edge range covers every node of it |
| `ZOrder.LessMsb` | lonestar/tutorial_examples/TorusImproved.cpp:66-66 | x < y and x < (x xor y) holds exactly when x has fewer bits than y |
| `ZOrder.TopDecides` | lonestar/tutorial_examples/TorusImproved.cpp:61-72 | the first dimension that differs in the highest bit orders two points as their interleaved codes are ordered |
| `ZOrder.ZLess` | lonestar/tutorial_examples/TorusImproved.cpp:61-72 | the comparator's loop computes the order, and that is the order of the interleaved codes, in any dimension and for any number of bits |
| `ZOrder.CodesDistinct` | lonestar/tutorial_examples/TorusImproved.cpp:53-73 | codes are equal only for equal points |
| `ZOrder.StrictTotalOrder` | lonestar/tutorial_examples/TorusImproved.cpp:53-73 | the comparator is irreflexive, asymmetric, transitive and total on the points of one dimension |

## Left out

- `Barrier_Simple.cpp` and `Barrier_Topo.cpp`: the first resets its count while others may still test it, the second rests on a topology outside these files.
- Fairness: the completion theorems say that some step can be taken until the end, and that boundedly many can, not that a scheduler takes them.
- Channel.PoppedInOrder: empty messages and single messages above the int limit are excluded, as the senders must not produce them; the configuration without aggregation is not modelled.
- Channel.FlushGuarantee: the timeout and overflow rules of ready are steps that may happen at any time, without clock or threshold.
- FenceProgress.FenceNeverStuck: a worker may assemble whenever bytes are queued, so the clock of the timeout rule is taken to run; handlers are taken to end.
- HostFence.FencePromise: only fences use tags other than 0; the other users of the phase counter, and the self-message of broadcast, are not modelled.
- Sssp.RunIsExact: operators of for_each run atomically, as its conflict detection promises; the schedulers appear only as arbitrary orders.
- SSSPPullSimple.cpp: adds weights to infinity, so no exactness follows.
- Bfs.FinishedIsExact: the asynchronous mode with its termination detector and the exit on the maximum number of iterations are not modelled, nor are the access counters; the count of active vertices does not wrap.
- PerBackendLedger.BlocksPartition: the invalid flag after destruction is not modelled; running out of memory ends an allocation instead of the process.
- PerBackendLedger.SearchFindsFree: a free list is a set of blocks, so which block of a list a search takes is left open.
- PerBackend.NextLog2: sizes above 2^31 shift by 32 in the source, which is undefined; here they are refused like other large sizes.
- UnionLengths.LengthExact: the read of one length and the addition to the other are two steps; lengths do not wrap.
- ThreadPoolRuns.OncePerRun: shutdown, dedicated threads and exceptions of the work function are not modelled; the two plain stores of a child's range are one step; the assertion that busy-waiting runs keep their size is a condition on starting a run.
- Inspector.RoundIsNextSlice: the warp and block levels of scheduling and the scan that computes the offsets are library code.
- Exclusive.WordsAreLeast: the strided iterator forms split a thread's items over several threads and add nothing to the argument.
- FileGraph.WriteImage: pointer arithmetic is unbounded; a copy past the memory asked for ends in an error value here, while the source writes on.
- FileGraph.FileGraph.PartFromFile: page-in by several threads only touches memory.
- GPU worklists, PageRank, FormMap, mining and the worklist schedulers: either racy, floating point without a stated bound, or long without a single hard property.
