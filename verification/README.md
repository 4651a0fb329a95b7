# MCCL in Dafny

MCCL is a collective-communication backend for PyTorch on Apple machines: allreduce by ring, tree or
butterfly over a mesh of sockets, the other collectives on the same mesh, a bounded progress engine,
a job scheduler, Metal reduction kernels, and a staging-memory pool. This project models the parts
where those pieces can go wrong together, and proves what callers rely on.

## How the model is built

**The mesh.** `Network` is a theory of round-based protocols. A rank's round says which region of its
memory goes to which peer, which region comes from which peer, and what it computes when the round's
threads are joined. The machine moves one element at a time over bounded first-in first-out channels,
with every rank free to run rounds ahead of or behind the others. The simple form, `Lockstep`, does
each round on all ranks at once. `EveryRunIsLockstep` says that every run that cannot be continued has
finished, took the same number of moves, left every channel empty and ended with the memories of the
simple form. It holds for channels of capacity one. What a protocol owes in return is `WellFormed`: the
n-th receive on a link asks for exactly the length of the n-th send, every region is in bounds, and what
a receiving thread writes is touched by no other thread of its round. That is proved, never assumed, of
each protocol: `Allreduce.Runs` for the three allreduce algorithms for every tensor size and every world
of two or more ranks, and `WellFormedScatter`, `WellFormedGather` and `WellFormedAlltoall` for the
others. `Sequence` puts protocols one after the other, as an allreduce call on several tensors does.
Lemmas that mention runs repeat `WellFormed` as a precondition because the definition of a run needs it
to be well defined.

**The algorithms.** `Ring`, `Tree` and `Butterfly` instantiate that theory. Their round-by-round lemmas
are about a `History` of the simple form, and give the exact expression each element is reduced along.
`Loops` has the step and mask loops of the source as methods, and proves that they issue the sends,
receives and reductions of those protocols. `Folds` shows that for an associative and commutative
op the three expressions are one value, and `Allreduce` concludes that the choice of algorithm cannot be
observed. Without any law on the op, all ranks still agree. Its theorems are about whole calls: several
tensors, each with its 64-bit count, the 32-bit count the algorithms get, and each rank's environment.
A rank's memory holds the whole tensor and then the scratch its caller allocated.

**The engine and the barrier** are state machines whose steps are the source's critical sections,
condition-variable waits and notifications, in any interleaving, with spurious wakeups and time-outs.

**The scheduler** is a class whose methods update its lists and a load array in place
(`SchedulerClass`), each proved equal to a function in `Jobs` or `Scheduling`. The results over every
run of operations are about those functions. `Turns` says what a tick does without naming them: which
job's turn comes when, and what it finds; `Records` says what each operation does to a job's record and
to its tenant. **The memory pool** and the **framed socket** have the same
shape: `Pool.MemoryPool`, `Pool.PooledBuffer` and `Frames.Socket` are classes, proved against functions
that carry the theorems. **The kernels** work in place on arrays.

Element values are of any type with any binary op, except where a lemma says `real`. The only
algebraic assumptions are the associativity and commutativity that appear as preconditions.

## Where the code does not keep a promise

Each of these is kept as the code has it, with the exact condition under which the promise holds.

- Allreduce cuts the element count to 32 bits. Every element ends as the reduction, and all ranks agree, if
  and only if every tensor has fewer than 2^32 elements (`Allreduce.SelectionUnobservable`,
  `Allreduce.AgreesIff`). Past the cut every rank keeps its own input (`Allreduce.PastCut`).
  `Allreduce.OneTooMany` is a failing count.
- Allgather, reduce-scatter and all-to-all start one thread per peer and each thread sends before it
  receives. They finish, on every schedule, if and only if of the two messages any two ranks exchange one
  fits the socket's buffer; otherwise no run finishes (`Stall.FinishesIffRoom`).
- The kernels' 32-bit `base + 8` stays inside the tensor if and only if the count is at most 2^32 - 8,
  while the size check admits every count below 2^32 (`Kernels.InBoundsIff`).
- A scheduler tick in which a preemption clean-up runs keeps every job if and only if every active job has a
  node and every queued job asks for one (`Scheduling.TickConservesIff`). A job that asks for no nodes is lost this way
  (`Scheduling.ZeroNodeJobIsLost`).
- Only jobs that asked for no node are ever lost (`Scheduling.EveryRun`), and none is if every job asks for
  one (`Scheduling.NothingLost`).
- Nodes are charged exactly the memory of the jobs placed on them if and only if no 64-bit sum wraps at a
  node the walk reaches (`Jobs.ChargeExactIff`); otherwise a full node can be taken
  (`Jobs.FullNodeIsTaken`).
- All-to-all works on the callers' segments if and only if no split size is negative and all of them
  together stay below 2^64 bytes (`AllToAll.ExactIff`). The offsets alone can look right
  (`AllToAll.NegativeSizeHides`).
- A reduction runs on the tensor's own element type, or is refused, if and only if it is not MIN, MAX or
  PRODUCT of a type other than float, half and bfloat16, which get the bfloat16 kernel
  (`Allreduce.RightElementsIff`). That the op is the one asked for always holds (`Allreduce.FoldMeans`).
- Point-to-point messages round-trip if and only if tags and sizes match and no tensor reaches 2^32
  bytes, since the length is cut to 32 bits (`Frames.RoundTripIff`).
- `align_up` covers the request if and only if the sum stays in 64 bits (`Pool.AlignIff`).
- A rank's own state guarantees that another is at most one barrier round behind if and only if it is in one
  of its first two rounds, its last barrier came back without an error, or it has seen the other's key
  (`Barrier.OneApartIff`). That nobody leaves a round early holds in every run.

One disagreement inside the repository: `tests/internal/test_ring_chunks.cpp:46-58` says that after the
ring's reduce-scatter rank r owns chunk r, while the code leaves chunk r + 1 complete on rank r. The
model follows the code. Also, the second attempt after a preemption
(`csrc/runtime/Scheduler.cpp:173-180`) can never start the urgent job: it sees the loads that just
failed (`Scheduling.PreemptForPlaces`).

## Model

| member | source | states |
|---|---|---|
| `Network.Progress` | csrc/backend/PeerMesh.cpp:293-301 | Deadlock freedom: in every reachable state that is not finished some rank can move, with channels of one element, unless threads send before they receive and two ranks exchange messages that both exceed the channel |
| `Network.StepInv` | csrc/backend/PeerMesh.cpp:293-301 | Every move of every rank keeps: each channel is the unread part of the link's stream, what landed is the peer's element of that round, the rest of memory is untouched |
| `Network.SentElement` | csrc/backend/AllreduceAlgos.cpp:62-75 | A sending thread reads what its rank had at the start of the round, though a receiving thread writes concurrently |
| `Network.PullMem` | csrc/backend/PeerMesh.cpp:97-105 | A received element is the peer's, lands where the round says, and overwrites nothing that landed before |
| `Network.StepWork` | csrc/backend/PeerMesh.cpp:87-105 | Every move is exactly one unit of a bounded amount of work |
| `Network.RunBound` | csrc/backend/AllreduceAlgos.cpp:62-86 | No run is longer than the protocol's total work, and a finished one has exactly that length |
| `Network.EveryRunIsLockstep` | csrc/backend/AllreduceAlgos.cpp:52-206 | Every interleaving that cannot go on has finished, drained all channels and left the memories of the round-by-round form |
| `Chunks.Chunkize` | csrc/backend/AllreduceAlgos.cpp:22-34 | The loop yields one chunk per rank, byte ranges follow one another without gap or overlap and end at the tensor's last byte |
| `Chunks.ChunkBounds` | csrc/backend/AllreduceAlgos.cpp:22-42 | Every chunk is inside the tensor and fits one scratch slot |
| `Chunks.ChunksApart` | csrc/backend/AllreduceAlgos.cpp:22-34 | Different chunks share no element |
| `Chunks.Home` | csrc/backend/AllreduceAlgos.cpp:22-34 | Every element lies in some rank's chunk |
| `Chunks.HomeUnique` | csrc/backend/AllreduceAlgos.cpp:22-34 | ... and in no other |
| `Chunks.PerIsCeiling` | csrc/backend/AllreduceAlgos.cpp:22-34 | The recursive chunk length used in the proofs is the rounded-up quotient of the source |
| `Chunks.FoldAt` | csrc/backend/AllreduceAlgos.cpp:172-180 | Reducing scratch slots into a chunk in turn leaves the left fold of what the slots hold, element by element |
| `Ring.Indices` | csrc/backend/AllreduceAlgos.cpp:56-66 | The index formulas of two neighbours agree on which chunk travels in a round, and a rank never sends the chunk it is receiving |
| `Ring.WellFormedRing` | csrc/backend/AllreduceAlgos.cpp:52-86 | On every link each receive asks for the length of the matching send, all regions are in bounds, concurrent sends and receives are disjoint |
| `Ring.ReduceRound` | csrc/backend/AllreduceAlgos.cpp:62-75 | One reduce-scatter step combines exactly the chunk received with the predecessor's and leaves the others alone |
| `Ring.AfterReduceScatter` | csrc/backend/AllreduceAlgos.cpp:62-75 | After j steps the chunk i <= j places behind a rank holds the nested fold over the i + 1 ranks it passed, every other chunk is untouched |
| `Ring.GatherRound` | csrc/backend/AllreduceAlgos.cpp:77-86 | One allgather step copies exactly the chunk received from the predecessor |
| `Ring.AfterGather` | csrc/backend/AllreduceAlgos.cpp:77-86 | After each allgather step every chunk is the owner's if it has arrived and as reduce-scatter left it otherwise |
| `Ring.Result` | csrc/backend/AllreduceAlgos.cpp:52-92 | Every rank ends with the same nested fold of every element, scaled if the op averages |
| `Ring.LeavesRest` | csrc/backend/AllreduceAlgos.cpp:62-92 | No round receives into, reduces or scales an element of the tensor past the count it is given |
| `Ring.InBounds` | csrc/backend/AllreduceAlgos.cpp:62-86 | Every send reads the counted part of the tensor, and every receive fills that or stays inside scratch |
| `Tree.Levels` | csrc/backend/AllreduceAlgos.cpp:100-117 | The number of masks is the rounded-up binary logarithm of the world |
| `Tree.Edges` | csrc/backend/AllreduceAlgos.cpp:100-126 | Both ends of a tree edge agree that it exists, for any world size |
| `Tree.WellFormedTree` | csrc/backend/AllreduceAlgos.cpp:94-126 | Matching lengths, bounds and disjointness on every link, any world size |
| `Tree.AfterUp` | csrc/backend/AllreduceAlgos.cpp:100-114 | Before mask 2^j every rank that is a multiple of it holds the fold of its subtree |
| `Tree.AfterDown` | csrc/backend/AllreduceAlgos.cpp:119-126 | Each broadcast round extends "holds the result" from the multiples of twice the mask to those of the mask |
| `Tree.Result` | csrc/backend/AllreduceAlgos.cpp:94-132 | Every rank ends with the fold of rank 0's subtree, which is the whole world |
| `Tree.LeavesRest` | csrc/backend/AllreduceAlgos.cpp:100-132 | No round receives into, reduces or scales an element of the tensor past the count it is given |
| `Tree.InBounds` | csrc/backend/AllreduceAlgos.cpp:100-126 | Every send reads the counted part of the tensor, and every receive fills that or stays inside scratch |
| `Tree.LinkUsedOnce` | csrc/backend/AllreduceAlgos.cpp:100-126 | A directed link carries at most one message in a call |
| `Butterfly.Clashes` | csrc/backend/AllreduceAlgos.cpp:151-200 | With all peers served at once, no two receives overlap and none overlaps a send |
| `Butterfly.WellFormedButterfly` | csrc/backend/AllreduceAlgos.cpp:134-200 | Matching lengths, and bounds in the tensor and in world - 1 scratch slots |
| `Butterfly.AfterReduceScatter` | csrc/backend/AllreduceAlgos.cpp:151-180 | A rank's own chunk becomes its own share folded with the peers' shares in ascending rank order |
| `Butterfly.AfterGather` | csrc/backend/AllreduceAlgos.cpp:185-200 | Every element is then the one its owner computed |
| `Butterfly.Result` | csrc/backend/AllreduceAlgos.cpp:134-206 | Every rank ends with the owner's fold of every element |
| `Butterfly.LeavesRest` | csrc/backend/AllreduceAlgos.cpp:151-206 | No round receives into, reduces or scales an element of the tensor past the count it is given |
| `Butterfly.InBounds` | csrc/backend/AllreduceAlgos.cpp:151-200 | Every send reads the counted part of the tensor, and every receive fills that or one of the slots inside scratch |
| `Butterfly.ScratchSuffices` | csrc/backend/AllreduceAlgos.cpp:144-146 | The source's check that scratch is large enough never fires, though scratch is sized from the 64-bit count |
| `Folds.RingIsAll` | csrc/backend/AllreduceAlgos.cpp:62-86 | The ring's nested fold is the rank-order fold, for an associative and commutative op |
| `Folds.SubtreeIsRange` | csrc/backend/AllreduceAlgos.cpp:100-114 | A subtree's fold is the in-order fold of ranks r up to min(r + 2^k, world), associativity alone |
| `Folds.TreeIsAll` | csrc/backend/AllreduceAlgos.cpp:100-126 | The tree computes the rank-order fold, associativity alone |
| `Folds.ButterflyIsAll` | csrc/backend/AllreduceAlgos.cpp:172-180 | Owner first and peers ascending is the rank-order fold, for an associative and commutative op |
| `Loops.RingLoop` | csrc/backend/AllreduceAlgos.cpp:52-86 | The two step loops issue exactly the sends, receives and reductions of the ring protocol, and every reduction writes the counted part of the tensor and reads inside scratch |
| `Loops.RingCombines` | csrc/backend/AllreduceAlgos.cpp:68-74 | Carrying out a step's reductions is the protocol's computation for that round |
| `Loops.TopMask` | csrc/backend/AllreduceAlgos.cpp:116-117 | The doubling loop finds the mask the broadcast starts from |
| `Loops.LevelCount` | csrc/backend/AllreduceAlgos.cpp:100-114 | The reduce loop stops after exactly the logarithmic number of masks |
| `Loops.TreeLoop` | csrc/backend/AllreduceAlgos.cpp:94-126 | The mask loops, early exit included, issue exactly the steps of the tree protocol, and every reduction writes the counted part of the tensor and reads inside scratch |
| `Loops.TreeCombines` | csrc/backend/AllreduceAlgos.cpp:100-114 | Carrying out a step's reductions is the protocol's computation for that round |
| `Loops.ButterflyLoop` | csrc/backend/AllreduceAlgos.cpp:134-200 | The peer loops issue exactly the two rounds of the butterfly and reduce the slots in order, each of them inside scratch |
| `Loops.ButterflyCombines` | csrc/backend/AllreduceAlgos.cpp:172-180 | The slot reductions, one after the other, are the fold over slots |
| `Allreduce.Select` | csrc/backend/ProcessGroupMCCL.cpp:135-145 | Whatever the environment says, ring and butterfly are chosen only with at least one element per rank |
| `Allreduce.SelectIff` | csrc/backend/ProcessGroupMCCL.cpp:135-145 | For every environment, size and world, exactly when ring, butterfly and tree are chosen, with the default limit of 262144 bytes |
| `Allreduce.Runs` | csrc/backend/ProcessGroupMCCL.cpp:147-163 | For each algorithm a rank's memory is the whole tensor and the scratch its caller sizes from the 64-bit count; receives match sends and concurrent threads do not clash |
| `Allreduce.Safe` | csrc/backend/ProcessGroupMCCL.cpp:143-163 | Two buffers and no transfer across them: every send reads the tensor below the 32-bit count, every receive fills that or scratch as its caller sized it |
| `Allreduce.RunsAgree` | csrc/backend/AllreduceAlgos.cpp:52-206 | Given the count the algorithm is passed: for any op, lawful or not, every run of every algorithm finishes with one and the same expression at each element on every rank |
| `Allreduce.OneValue` | csrc/backend/AllreduceAlgos.cpp:52-206 | For an associative and commutative op the three expressions are one value |
| `Allreduce.CallFinishes` | csrc/backend/ProcessGroupMCCL.cpp:173-177 | A call on several tensors, run back to back with nothing in between, always finishes and leaves every link empty |
| `Allreduce.CallResult` | csrc/backend/ProcessGroupMCCL.cpp:143-177 | Below the 32-bit cut each element of each tensor is the selected algorithm's expression over all ranks' inputs, whatever scratch held |
| `Allreduce.RestKept` | csrc/backend/AllreduceAlgos.cpp:52-206 | Round by round, no algorithm changes an element of the tensor past the count it is given |
| `Allreduce.PastCut` | csrc/backend/ProcessGroupMCCL.cpp:150-177 | In every run of a call, every rank keeps its own input from the 32-bit cut on |
| `Allreduce.AgreesIff` | csrc/backend/ProcessGroupMCCL.cpp:135-177 | For any op, all ranks end with the same tensors, whatever was selected, if and only if every tensor has fewer than 2^32 elements |
| `Allreduce.SelectionUnobservable` | csrc/backend/ProcessGroupMCCL.cpp:135-177 | For an associative and commutative op, every run leaves the elementwise reduction in every element of every rank, whatever was selected, if and only if every tensor has fewer than 2^32 elements |
| `Allreduce.OneTooMany` | csrc/backend/ProcessGroupMCCL.cpp:135-177 | With 2^32 + 1 elements on four ranks ring is selected and refuses its count, and tree leaves all elements but the first as they were |
| `Allreduce.RightElementsIff` | csrc/metal/MetalKernels.mm:606-624 | The pipeline chosen, if any, is for the element type of the tensor, if and only if the call is not MIN, MAX or PRODUCT of a type other than float, half and bfloat16 |
| `Allreduce.RefusedIff` | csrc/metal/MetalKernels.mm:606-624 | A reduction is refused if and only if the op has no kernels, or it is a sum or average of a type that has none |
| `Allreduce.FoldMeans` | csrc/metal/MetalKernels.mm:606-640 | The kernel selected for an op, folded over the ranks and scaled as the op asks, is the sum, the mean, an element that none is below, one that none is above, or the product |
| `Allreduce.CallMeans` | csrc/backend/ProcessGroupMCCL.cpp:135-177 | In every run of a call, whatever was selected, each element on each rank ends as the sum, mean, least, greatest or product of what the ranks had there |
| `Allreduce.OpsAreAlgebraic` | csrc/metal/MetalKernels.mm:606-624 | Every kernel that can be chosen is associative and commutative over the reals |
| `Allreduce.AverageIsMean` | csrc/backend/AllreduceAlgos.cpp:88-91 | Summing and scaling by one over the world is the arithmetic mean |
| `Sequence.WellFormedThen` | csrc/backend/ProcessGroupMCCL.cpp:173-177 | Two protocols one after the other on the same links, with nothing in between, match, stay in bounds and do not clash |
| `Sequence.LockstepThen` | csrc/backend/ProcessGroupMCCL.cpp:173-177 | Round by round, the second finds its memory as it was and leaves the first one's alone |
| `Sequence.RunsInTurn` | csrc/backend/ProcessGroupMCCL.cpp:173-177 | Every run of any number of protocols in sequence finishes, and each leaves in its memory what it leaves alone, however far ranks run ahead |
| `Collectives.FinishedRun` | csrc/backend/ProcessGroupMCCL.cpp:250-387 | A finished run ends as the round-by-round form, whatever the channel capacity |
| `Collectives.WellFormedScatter` | csrc/backend/ProcessGroupMCCL.cpp:350-387 | Reduce-scatter: matching lengths, bounds and disjoint receive buffers |
| `Collectives.ScatterResult` | csrc/backend/ProcessGroupMCCL.cpp:350-387 | Rank r ends with each element of its share folded over all ranks, its own first and the peers ascending |
| `Collectives.WellFormedGather` | csrc/backend/ProcessGroupMCCL.cpp:250-270 | Allgather: matching lengths, bounds and disjoint shares |
| `Collectives.GatherResult` | csrc/backend/ProcessGroupMCCL.cpp:250-270 | Every rank ends with every rank's input in rank order |
| `Collectives.ScatterGatherIsButterfly` | csrc/backend/ProcessGroupMCCL.cpp:350-387 | Reduce-scatter then allgather equals the butterfly element for element, with no law on the op |
| `Collectives.RunsScatterGather` | csrc/backend/AllreduceAlgos.cpp:151-200 | The same for any two finished runs, whatever their interleavings |
| `Stall.NoRunFinishes` | csrc/backend/ProcessGroupMCCL.cpp:250-270 | If two ranks exchange messages that both exceed the buffer, and threads send before they receive, no run finishes |
| `Stall.FinishesIffRoom` | csrc/backend/ProcessGroupMCCL.cpp:250-546 | For every protocol: all runs finish if and only if no such pair exists, and otherwise none does |
| `Stall.AllgatherRoom` | csrc/backend/ProcessGroupMCCL.cpp:250-270 | For allgather the condition is that a socket buffers one whole share |
| `Stall.ScatterRoom` | csrc/backend/ProcessGroupMCCL.cpp:350-387 | For reduce-scatter it is the same |
| `Stall.AlltoallRoom` | csrc/backend/ProcessGroupMCCL.cpp:531-544 | For all-to-all it is that of any two ranks' segments for each other one fits the buffer |
| `AllToAll.SegmentsTile` | csrc/backend/ProcessGroupMCCL.cpp:499-546 | Prefix-sum segments cover every element exactly once |
| `AllToAll.Offsets` | csrc/backend/ProcessGroupMCCL.cpp:499-521 | Offsets are computed if and only if the splits have the world's length, or are absent and the world divides the tensor, and then they are the running sums of the signed sizes in bytes, modulo 2^64 |
| `AllToAll.LengthIs` | csrc/backend/ProcessGroupMCCL.cpp:528-544 | Wherever offsets have wrapped to, each segment length is the caller's size in bytes modulo 2^64 |
| `AllToAll.ExactIff` | csrc/backend/ProcessGroupMCCL.cpp:499-544 | All offsets and lengths are the callers' if and only if no size is negative and the total in bytes is below 2^64 |
| `AllToAll.NegativeSizeHides` | csrc/backend/ProcessGroupMCCL.cpp:508-537 | Sizes 2 and -1 of four bytes give offsets 0, 8, 4, all of them right, and a length of 2^64 - 4 |
| `AllToAll.OffsetsAreSegments` | csrc/backend/ProcessGroupMCCL.cpp:499-544 | For sizes that fit the buffer the byte ranges are the segments that the exchange is proved about |
| `AllToAll.WellFormedAlltoall` | csrc/backend/ProcessGroupMCCL.cpp:499-546 | For splits that fit and agree pairwise: matching lengths, bounds, disjointness, aliased tensors included |
| `AllToAll.Transpose` | csrc/backend/ProcessGroupMCCL.cpp:499-546 | Segment p of rank r's output is segment r of rank p's input, also when input and output are one tensor |
| `AllToAll.TwiceIsIdentity` | csrc/backend/ProcessGroupMCCL.cpp:499-546 | With even splits, doing it twice restores every rank's input |
| `AllToAll.RunsTranspose` | csrc/backend/ProcessGroupMCCL.cpp:499-546 | Every finished run, whatever the interleaving, is the transpose |
| `Frames.WordRoundTrip` | csrc/backend/ProcessGroupMCCL.cpp:620-656 | Decoding a little-endian 32-bit word gives the number back |
| `Frames.HeaderLayout` | csrc/backend/ProcessGroupMCCL.cpp:620-631 | The eight bytes on the wire are the tag in two's complement and then the length, each lowest byte first |
| `Frames.Socket.WriteAll` | csrc/backend/PeerMesh.cpp:87-95 | However the system splits writes, success appends the whole buffer and failure a beginning of it |
| `Frames.Socket.ReadAll` | csrc/backend/PeerMesh.cpp:97-105 | However the system splits reads, success takes exactly the bytes asked for and nothing is skipped |
| `Frames.Socket.SendTensors` | csrc/backend/ProcessGroupMCCL.cpp:620-631 | A send appends the frames of its tensors, in order; if the socket fails, a beginning of that |
| `Frames.Socket.RecvTensors` | csrc/backend/ProcessGroupMCCL.cpp:639-656 | A receive that the socket does not fail yields what the frame-by-frame reading of the stream yields, mismatches included, and leaves the same rest; in any case it has taken at most the bytes it asked for, from the front |
| `Frames.RoundTripIff` | csrc/backend/ProcessGroupMCCL.cpp:620-656 | The payloads come back, in order and with nothing else consumed, if and only if tags and sizes match and no tensor reaches 2^32 bytes |
| `Frames.MismatchStopsEarly` | csrc/backend/ProcessGroupMCCL.cpp:639-656 | The first mismatch is reported as a tag or a size mismatch with none of its payload consumed |
| `Frames.TagMismatchIff` | csrc/backend/ProcessGroupMCCL.cpp:644-646 | A frame is a tag mismatch if and only if the tag asked for is not negative and not the frame's, whatever the size |
| `Frames.SizeMismatchIff` | csrc/backend/ProcessGroupMCCL.cpp:647-650 | Given the tag, it is a size mismatch if and only if its length modulo 2^32 is not the tensor's |
| `Engine.RunOp` | csrc/runtime/ProgressEngine.cpp:119-153 | execute is called once and first; on_complete, once, exactly if there is one and execute succeeded; on_error, once and last, exactly if there is one and execute or on_complete threw |
| `Engine.StepInv` | csrc/runtime/ProgressEngine.cpp:33-110 | Every step of every thread keeps mutual exclusion, order, and the owed-notification counts for the worker and the submitters |
| `Engine.DecideStep` | csrc/runtime/ProgressEngine.cpp:46-58 | Enqueueing, blocking on a full queue and being refused keep the wakeup invariant |
| `Engine.WNotifyStep` | csrc/runtime/ProgressEngine.cpp:110-110 | One notification per freed slot is enough, whichever sleeper it wakes |
| `Engine.StopperStep` | csrc/runtime/ProgressEngine.cpp:64-82 | Stopping leaves nobody asleep without a notification to come |
| `Engine.QuietMeansDone` | csrc/runtime/ProgressEngine.cpp:33-110 | No lost wakeup: when no thread can move, every submit has returned, the queue is empty, and the worker is asleep for want of work or has exited |
| `Engine.StepWeight` | csrc/runtime/ProgressEngine.cpp:33-157 | Every step other than a spurious wakeup makes a natural number smaller |
| `Engine.EveryRun` | csrc/runtime/ProgressEngine.cpp:33-157 | In every run the accepted ops are executed, in flight and queued in that order, the queue respects its bound, the run is of bounded length, and when stop returns all accepted ops have run once |
| `Engine.EveryRunServes` | csrc/runtime/ProgressEngine.cpp:33-110 | A run that cannot go on by itself has nothing left with any submitter, has executed every accepted op, and a stop that was called has returned; what became of each op submitted is `Engine.EveryRunAccounts` |
| `Engine.NothingVanishes` | csrc/runtime/ProgressEngine.cpp:33-62 | Over any run, each op is with its submitter, accepted or refused, as often as it was before |
| `Engine.RefusedIff` | csrc/runtime/ProgressEngine.cpp:36-54 | A step refuses an op if and only if the engine is not running when submit is called, or stop was requested when it gets the lock; it accepts one if and only if otherwise there is room; on a full queue the submitter goes to sleep |
| `Engine.NothingRefused` | csrc/runtime/ProgressEngine.cpp:36-54 | A run in which stop is not called refuses nothing |
| `Engine.EveryRunAccounts` | csrc/runtime/ProgressEngine.cpp:33-157 | A run that cannot go on has executed or refused every op exactly as often as it was submitted, and without stop has executed them all |
| `Engine.LogCounts` | csrc/runtime/ProgressEngine.cpp:119-153 | Over all executed ops, each has been executed once, completed once if it succeeded, and reported once if something threw |
| `Engine.NothingAfterStop` | csrc/runtime/ProgressEngine.cpp:46-58 | Nothing is accepted once stop is requested |
| `Jobs.PlaceIsSound` | csrc/runtime/Scheduler.cpp:301-317 | The nodes taken are distinct, online and had room, each is charged once and no other node is, and there are enough if enough were available |
| `Jobs.TakenIff` | csrc/runtime/Scheduler.cpp:301-317 | A node is taken if and only if it offers and fewer than the requested number before it do |
| `Jobs.ChargeExactIff` | csrc/runtime/Scheduler.cpp:301-317 | Charging is exact if and only if load plus memory stays in 64 bits at every node that offers before enough have |
| `Jobs.FullNodeIsTaken` | csrc/runtime/Scheduler.cpp:285-317 | Otherwise a node with no room is taken and left with load zero |
| `Jobs.LessAvailable` | csrc/runtime/Scheduler.cpp:285-299 | Growing loads never make more nodes available |
| `Jobs.ScheduleIsGood` | csrc/runtime/Scheduler.cpp:136-148 | Started jobs get exactly the distinct online nodes they asked for, loads grow by exactly their memory and stay within capacity, and every job kept is still unallocatable under the final loads |
| `Scheduling.SubmitPlaces` | csrc/runtime/Scheduler.cpp:29-42 | Submitting adds the new id in one place and disturbs no other |
| `Scheduling.CancelPlaces` | csrc/runtime/Scheduler.cpp:44-69 | Cancelling moves an id and loses or duplicates none |
| `Scheduling.CompletePlaces` | csrc/runtime/Scheduler.cpp:71-95 | Completing moves an id and loses or duplicates none; what happens to the record is `Records.CompleteShape` |
| `Scheduling.PreemptForPlaces` | csrc/runtime/Scheduler.cpp:158-190 | Preempting for a job that did not fit starts nothing and changes no load, and loses exactly the jobs that hold no node |
| `Scheduling.PreemptShape` | csrc/runtime/Scheduler.cpp:151-193 | Every job pushed out was active and LOW and waits in front of the queue as it was, every other active job that holds a node stays active, and nothing becomes active |
| `Scheduling.TickConservesIff` | csrc/runtime/Scheduler.cpp:99-201 | A tick keeps every job if and only if preemption is off, or every active job has a node and every queued job asks for one, or no urgent job is left that does not fit |
| `Scheduling.TickIsGood` | csrc/runtime/Scheduler.cpp:99-201 | After the whole tick, preemption included, loads are those of the starting pass, every job queued throughout is still unallocatable, and only LOW jobs have left |
| `Scheduling.EvictInv` | csrc/runtime/Scheduler.cpp:247-281 | Eviction loses no job and leaves no active job on the node |
| `Scheduling.EvictShape` | csrc/runtime/Scheduler.cpp:247-281 | Jobs on other nodes stay, in order; a job that keeps a node waits in front of the queue on its other nodes, all distinct and none the evicted one; a job that had only that node fails |
| `Scheduling.StepInv` | csrc/runtime/Scheduler.cpp:29-281 | Every operation keeps: each issued id in exactly one place, active jobs running on distinct nodes, only jobs that asked for no node dropped |
| `Scheduling.EveryRun` | csrc/runtime/Scheduler.cpp:29-281 | Over every run from a fresh scheduler, each issued id is in exactly one of queue, active, history, cancelled and dropped by a clean-up, no other id is anywhere, and every job dropped asked for no node |
| `Scheduling.NothingLost` | csrc/runtime/Scheduler.cpp:29-281 | If every job asks for a node, none is dropped and every active job runs on at least one |
| `Scheduling.CanSort` | csrc/runtime/Scheduler.cpp:105-110 | Every queue has an order by priority and submission time; what that order does to the tick is `Turns.TickTurns` |
| `Scheduling.ZeroNodeJobIsLost` | csrc/runtime/Scheduler.cpp:183-190 | A job that asks for no nodes disappears at the next clean-up |
| `Turns.BeforeIff` | csrc/runtime/Scheduler.cpp:105-110 | One job sorts before another if and only if its priority is higher, in the order LOW, NORMAL, HIGH, CRITICAL, or equal and it was submitted earlier |
| `Turns.AvailableIsRoom` | csrc/runtime/Scheduler.cpp:285-299 | What the scheduler counts is the online nodes that have room |
| `Turns.AllocateIsCharge` | csrc/runtime/Scheduler.cpp:301-317 | A job that can start gets that many distinct online nodes with room, and their loads grow by its memory and one job |
| `Turns.TickTurns` | csrc/runtime/Scheduler.cpp:99-201 | Every tick gives each queued job one turn, whoever outranks another first; at its turn a job starts if and only if enough nodes have room, on nodes that have it, and the turns' leavings are the state after the tick |
| `Turns.NoneJumpsQueue` | csrc/runtime/Scheduler.cpp:104-148 | A job that did not start could not have started at the turn of any job it outranks |
| `Records.SubmitShape` | csrc/runtime/Scheduler.cpp:29-42 | A submitted job keeps its caller's fields, is PENDING with the next id and the time, and goes to the end of the queue |
| `Records.CancelQueued` | csrc/runtime/Scheduler.cpp:44-69 | Cancelling a queued job removes it and only it, with nothing recorded in history |
| `Records.CancelActive` | csrc/runtime/Scheduler.cpp:44-69 | Cancelling an active job records it as FAILED, completed now, with its other fields as they were |
| `Records.CancelUnknown` | csrc/runtime/Scheduler.cpp:44-69 | Cancelling an unknown id changes nothing |
| `Records.ChargeTenant` | csrc/runtime/Scheduler.cpp:81-86 | Charging an owner adds to that owner's seconds and to the total, to no other owner's, and makes at most that one tenant |
| `Records.ElapsedIs` | csrc/runtime/Scheduler.cpp:82-86 | What is charged is the whole seconds between start and completion |
| `Records.CompleteShape` | csrc/runtime/Scheduler.cpp:71-95 | Completing records the job as COMPLETED or FAILED, now, leaves the other active jobs in order, and charges its owner the seconds on each of its nodes if it had started |
| `Records.CompleteUnknown` | csrc/runtime/Scheduler.cpp:71-95 | Completing an id that is not active changes nothing |
| `Records.BoostIff` | csrc/runtime/Scheduler.cpp:113-133 | A job is raised, from LOW to NORMAL, if and only if its owner has run and has had less than an equal share of all seconds |
| `Records.TenantsDiffer` | csrc/runtime/Scheduler.cpp:71-133 | Over every run there is one entry for each tenant |
| `Records.VictimFirst` | csrc/runtime/Scheduler.cpp:157-166 | The job preempted is the first active one that is LOW and on enough nodes, and there is none exactly if no job is |
| `Records.PreemptsFirst` | csrc/runtime/Scheduler.cpp:158-190 | That job, marked for rescheduling and otherwise as it was, is at the front of the queue and gone from the active jobs |
| `Records.PreemptsNobody` | csrc/runtime/Scheduler.cpp:158-190 | With no such job nothing is pushed out |
| `Records.OnlyUrgentPreempt` | csrc/runtime/Scheduler.cpp:151-193 | Jobs that are neither HIGH nor CRITICAL, or that fit, preempt nobody |
| `Records.FirstUrgentServed` | csrc/runtime/Scheduler.cpp:151-193 | The pass serves the first HIGH or CRITICAL job that does not fit, and then the rest of the queue as that leaves it |
| `SchedulerClass.Scheduler.constructor` | csrc/runtime/Scheduler.cpp:29-42 | A new scheduler is empty and issues id 1 first |
| `SchedulerClass.Scheduler.SubmitJob` | csrc/runtime/Scheduler.cpp:29-42 | The new state is the one the run theorems are about, and the id returned is the one issued |
| `SchedulerClass.Scheduler.CancelJob` | csrc/runtime/Scheduler.cpp:44-69 | Both searches, with the answer true exactly when the job was queued or active |
| `SchedulerClass.Scheduler.CompleteJob` | csrc/runtime/Scheduler.cpp:71-95 | The new state is the one `Records.CompleteShape` and the run theorems are about, with the answer true exactly when the job was active |
| `SchedulerClass.Scheduler.CanPlace` | csrc/runtime/Scheduler.cpp:285-299 | The counting loop answers whether enough online nodes have room |
| `SchedulerClass.Scheduler.TakeNodes` | csrc/runtime/Scheduler.cpp:301-317 | The loop that charges nodes in place takes the nodes `Jobs.PlaceIsSound` is about |
| `SchedulerClass.Scheduler.BoostQueue` | csrc/runtime/Scheduler.cpp:113-133 | Exactly the LOW jobs of tenants below their share move up, in place |
| `SchedulerClass.Scheduler.StartJobs` | csrc/runtime/Scheduler.cpp:136-148 | The loop that erases from the queue it walks starts and keeps exactly the jobs of one pass |
| `SchedulerClass.Scheduler.PreemptJobs` | csrc/runtime/Scheduler.cpp:151-193 | The preemption loop on the object is the pass the theorems are about |
| `SchedulerClass.Scheduler.ScheduleTick` | csrc/runtime/Scheduler.cpp:99-201 | A whole tick on the object and the load array, for whatever order the sort gives to ties, is the tick the theorems are about; and it has turns by priority and submission time in which each job starts exactly if there is room, with the queue, the active jobs, the loads and the count returned being what those turns leave |
| `SchedulerClass.Scheduler.EvictNode` | csrc/runtime/Scheduler.cpp:247-281 | Eviction on the object is the eviction the theorems are about |
| `Kernels.WindowsPartition` | csrc/metal/MetalKernels.mm:104-113 | Over the dispatched grid each element below the count belongs to exactly one thread |
| `Kernels.InBoundsIff` | csrc/metal/shaders.metal:159-187 | No thread leaves the tensor if and only if the count is at most 2^32 - 8 |
| `Kernels.RunThread` | csrc/metal/shaders.metal:159-187 | One thread, aligned or not, in place or not, applies the op to its window and touches nothing else |
| `Kernels.RunGrid` | csrc/metal/MetalKernels.mm:628-640 | All threads, in any order, apply the op once to each of the first count elements of the old buffers, also if they are one buffer, and touch nothing else |
| `Barrier.DecimalInjective` | csrc/runtime/Rendezvous.cpp:19-21 | Different numbers print differently |
| `Barrier.DecimalReads` | csrc/runtime/Rendezvous.cpp:19-21 | Numbers print in decimal: the digits read back as the number |
| `Barrier.KeyExample` | csrc/runtime/Rendezvous.cpp:19-21 | The key of rank 12 in round 7, written out |
| `Barrier.KeyInjective` | csrc/runtime/Rendezvous.cpp:19-21 | Keys of different tags or ranks differ, even if tags contain slashes |
| `Barrier.KeysDiffer` | csrc/backend/ProcessGroupMCCL.cpp:603-612 | Keys of different rounds or ranks differ |
| `Barrier.StepInv` | csrc/runtime/Rendezvous.cpp:58-79 | Every step keeps: a key is in the store exactly if its rank entered that round, and ranks have waited only for ranks that entered |
| `Barrier.NobodyLeavesEarly` | csrc/runtime/Rendezvous.cpp:58-79 | In every run, time-outs included, a rank comes back from a round only after every rank entered it |
| `Barrier.AtMostOneApart` | csrc/runtime/Rendezvous.cpp:58-79 | Whatever timed out, a rank is at most one round ahead of another if it is in its first two rounds, its last barrier came back, or it has seen the other's key |
| `Barrier.TwoBehind` | csrc/runtime/Rendezvous.cpp:58-79 | Any state a rank can be in that is none of these occurs with the other two rounds behind |
| `Barrier.OneApartIff` | csrc/runtime/Rendezvous.cpp:58-79 | So a rank's own state guarantees the bound if and only if it is one of these |
| `Barrier.PatientStayTogether` | csrc/backend/ProcessGroupMCCL.cpp:603-612 | In a run without time-outs no two ranks are more than one round apart |
| `Barrier.TimeOutsRunAhead` | csrc/runtime/Rendezvous.cpp:66-76 | With time-outs a rank can be any number of rounds ahead of all the others |
| `Barrier.NeverStuck` | csrc/runtime/Rendezvous.cpp:58-79 | While a rank has rounds left, a rank with rounds left can move without timing out |
| `Pool.AlignIff` | csrc/runtime/MemoryPool.cpp:16-18 | Rounding up is the least covering multiple if and only if the sum stays in 64 bits, and is zero otherwise |
| `Pool.AlignUpIsMask` | csrc/runtime/MemoryPool.cpp:16-18 | For every power of two, the rounding of the model is the 64-bit sum masked bit by bit with the complement of the alignment minus one |
| `Pool.CapacityCovers` | csrc/runtime/MemoryPool.cpp:43-48 | What is allocated is aligned and covers the request: up to 256 MiB with a quarter more, rounded up by less than one alignment, and exactly the request above that |
| `Pool.RequestAllowed` | csrc/runtime/MemoryPool.cpp:20-65 | Every request a caller can make is one the run theorems admit |
| `Pool.Best` | csrc/runtime/MemoryPool.cpp:25-33 | The search answers none exactly if nothing fits, and otherwise the first of the smallest buffers that fit |
| `Pool.TakeServes` | csrc/runtime/MemoryPool.cpp:25-65 | The function the run theorems use serves a request in that way too: best fit first, then allocation, then failure |
| `Pool.MemoryPool.Acquire` | csrc/runtime/MemoryPool.cpp:20-65 | If a pooled buffer fits, the smallest that does, and the first such, leaves the pool with only its used size changed; otherwise there is a new buffer, counted with its capacity, or a failure that changes nothing |
| `Pool.MemoryPool.Release` | csrc/runtime/MemoryPool.cpp:67-73 | A real buffer goes to the end of the pool, a null one is ignored |
| `Pool.MemoryPool.Trim` | csrc/runtime/MemoryPool.cpp:85-93 | The pool is emptied and the counter drops by the sum of its capacities |
| `Pool.PooledBuffer.Destroy` | csrc/runtime/MemoryPool.cpp:100-104 | The buffer goes back to its own pool once, and the handle is left empty |
| `Pool.PooledBuffer.MoveFrom` | csrc/runtime/MemoryPool.cpp:112-121 | The old buffer goes back, the other handle is left empty, and assigning a handle to itself changes nothing |
| `Pool.HandlesAfter` | csrc/runtime/MemoryPool.cpp:100-121 | What destroying, moving and move-assigning leave in every handle, in the pool and in the counter, self-assignment included |
| `Pool.StepConserves` | csrc/runtime/MemoryPool.cpp:20-121 | Of every quantity, what pool and handles hold after an operation is what they held before, plus what was allocated, minus what was freed |
| `Pool.EveryRun` | csrc/runtime/MemoryPool.cpp:20-121 | After every run each buffer allocated and not freed is in exactly one place, nothing else is anywhere, and the counter is the sum of their capacities |
| `Pool.AllocatesPeak` | csrc/runtime/MemoryPool.cpp:20-65 | With requests of one size and no trim, the buffers ever allocated are exactly the peak number held at once |

## Left out

- Network.EveryRunIsLockstep: one stream unit is one element, so a transfer split inside an element is not represented; splitting at bytes is covered by the framed socket.
- AllToAll.RunsTranspose: takes 1-D tensors whose splits fit the buffers and agree pairwise; what the ranks do with offsets that wrapped is not modelled.
- Allreduce.SelectionUnobservable: every rank's environment must select the same algorithm for a tensor; ranks that select differently are not modelled. The element type has two different values.
- Allreduce.PastCut: the reduction kernels are taken as the elementwise op they refine; for a 32-bit count of 2^32 - 7 or more they also write up to seven elements past it (`Kernels.InBoundsIff`). The last element of a tensor of 2^32 or more, on which `AgreesIff` and `SelectionUnobservable` rest, is out of their reach.
- Collectives.ScatterResult: describes calls whose sizes match and whose shares stay below 2^32 elements; the source throws on others.
- Collectives.GatherResult: describes calls whose sizes match; the source throws on others.
- Allreduce.AverageIsMean: over the reals, without rounding.
- Engine.EveryRun: a state machine on values, because its threads interleave; the queue and flags are not class fields. Restarting a stopped engine and sequence numbers, which are taken outside the lock, are not modelled. Callbacks that submit to the engine they run on are not modelled either; one that does so while the queue is full blocks the only thread that could free a slot, until stop is requested.
- Barrier.NobodyLeavesEarly: a state machine on values for the same reason; the round number is not cut to 64 bits.
- Scheduling.TickIsGood: assumes distinct node ids and no 64-bit overflow, as the source does; the preemption pass runs over the queue as it was when the pass began, since the source iterates a deque it pushes to.
- SchedulerClass.Scheduler.ScheduleTick: the sort is any ordering by priority and submission time, since the library's sort is not stable; one clock value serves the whole tick.
- SchedulerClass.Scheduler.BoostQueue: compares a tenant's share exactly, where the source divides doubles.
- Records.CompleteShape: a tenant's seconds, which are elapsed time times nodes, and their total are not cut to 64 bits.
- Turns.TickTurns: assumes distinct node ids and no 64-bit overflow, as `Scheduling.TickIsGood` does.
- Allreduce.CallMeans: over the reals, without rounding, for tensors of fewer than 2^32 elements, as `Allreduce.AgreesIff` says it must be.
- Kernels.RunGrid: buffers that overlap without being the same, the scale kernels, half and bfloat16 arithmetic are not modelled.
- Pool.EveryRun: one pool; the allocator's answers are parameters, and it is taken not to answer with an address in use.
- One collective in flight per group is assumed: allreduce runs inline, the others on the engine.
- Point-to-point calls of several threads on one socket, PeerMesh connection set-up, interface choice and time-outs.
- Broadcast and the list forms of allgather, reduce-scatter and all-to-all: one-phase copies whose results follow from `Network` as those of allgather do.
- The coherence protocol, cluster membership, the memory catalogue and distributed memory: separate subsystems that the collectives do not use.
- `Progress::shutdown`, `WorkMCCL`, metrics, logging, the Python package, the CLI and the build.
