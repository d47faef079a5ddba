# Verified models of the Snitch cluster software

A Dafny project about the runtime, the kernels and the trace tools of a many-core accelerator cluster: shared-memory
protocols between cores, address streams that feed floating-point kernels, tiled and double-buffered layers, and the
arithmetic that spreads work over cores. Most of the code exists twice in spirit, as a simple statement of what should
be computed and as a fast or concurrent form. The project proves that the two agree, for every input, every interleaving
and every number of cores and rounds, or says exactly when they do not.

`dafny verify dfyconfig.toml` checks everything.

## How it is modelled

**Protocols** (`EventUnit`, `Barrier`, `GlobalBarrier`, `DataMover`, `DoubleBuffer`, `TileRun`, `ClusterRun`,
`ReductionRun`) are transition systems with one act per memory access, under sequential consistency. A behaviour is a
sequence of states joined by enabled acts; the theorems hold at every position of every behaviour. A poll that would
fail is an act that is not enabled, so "some act is enabled" says that not everybody spins. The hardware barrier,
wait-for-interrupt, setting and clearing an interrupt and the atomic operations are single acts; clearing is
synchronous. `EventCalls` and `DataMoverCalls` say what the calls of the first and the fourth promise to a caller: what
is due by the calls alone, and when a call returns. `TileRun` is the compute phase of a tile, `ClusterRun` the tiles of
all clusters, `ReductionRun` the tree reduction over any number of clusters. `Counting` counts cores in a state.

**Streams and kernels** (`Ssr`, `MatMul`, `GemmFp64`, `TiledGemm`, `BatchnormKernel`) are imperative: a class for a
stream's registers and generator, loops over arrays, each method tied to a function of the initial memory. The address
generator is defined as the hardware the encoding targets: every advance adds the programmed stride of the innermost
loop that is not at its bound and restarts the loops inside; an index stream walks a table. Multiply-add is an
uninterpreted function; the naive, streamed and tiled kernels fold over k in the same order, so equality needs no
arithmetic beyond x * 1 = x. Addresses are 32-bit and wrap. `GemmAgree` says when the two kernels of `GemmFp64` agree,
`GemmEntries` what the multiplies leave, in indices and products.

**Layers** (`Maxpool`, `Batchnorm`) instantiate `DoubleBuffer` with the index arithmetic of the two layers. **Stencil**
files: `Stencil` is the mathematics of the star stencil and its index tables, `StencilLaw` what it computes, `Rotation`
who draws which block of points, `StencilKernel` one core's step with its two index streams and its coefficient stream,
`StencilRun` all cores over all steps, `StencilPlain` the plain kernel. `Frep` is the trace annotator's sequencer as a
class with its deques. `Lcg`, `StaticSchedule`, `StaticLoops`, `ReductionTree`, `OnlineSoftmax`, `Fusion` and
`FloatDecode` are the remaining arithmetic cores; where they involve sums of products the arithmetic is exact.
`Arithmetic` and `Wrappers` hold what several modules share.

## What the code does that its comments do not say

- `eu_exit` tests the queue the wrong way round (sw/snRuntime/src/omp/eu.h, line 185): a dispatch that is pending when it
  is called is never run (`EventUnit.ExitDropsPending`, `EventUnit.ExitCanDrop`).
- A second `eu_dispatch_push` before a run silently replaces the first (`EventCalls.PushReplaces`,
  `EventCalls.PushCanReplace`). Everything pushed has been run at the end exactly when no push and no exit was called while
  `e.nthreads` was not zero (`EventCalls.AllRunExactly`).
- Data-mover calls hang in exactly three ways (`DataMover.StuckExactly`), each reachable, and there is a condition to check
  before each call: a copy hangs exactly when the ring is full and the data mover goes to sleep or sleeps without having
  been woken (`DataMoverCalls.CopyHangsExactly`); `dm_wait_ready` can hang exactly when a request is still outstanding
  (`DataMoverCalls.ReadyHangsExactly`); `dm_exit` can hang exactly when, as it writes its request, the data mover is neither
  about to clear a request nor soundly asleep (`DataMoverCalls.ExitHangsExactly`). `dm_start` and `dm_wait` always return.
- If the data mover is about to clear a request when `dm_exit` writes its own, that one is wiped out: the call returns and
  the data mover never leaves (`DataMoverCalls.ExitLeavesExactly`); there is a run from the start of the program to that point
  (`DataMoverCalls.NeverLeaves`).
- The columns of `gemm_fp64_opt` that do not fill a block of eight read B as transposed and A as not transposed, whatever the
  flags say, and a transposed A is streamed with its columns ldA apart, as it should be only for one row of A, and its rows
  eight apart. `GemmAgree.AgreeExactly` says for which arguments the kernel still agrees with the naive one.
- `sc_st_gemm` computes only as many rows as the cores divide, and nothing checks that they do. The fused layer is the product
  for all inputs exactly when the cores divide the rows (`Fusion.FusedExactly`, `Fusion.FusedCanFail`); the unfused one
  exactly when the rows fall into two halves that the cores divide (`Fusion.BaselineExactly`).
- The loop of the batch normalisation kernel takes as many elements as its streams have exactly when the cores divide the
  channels of a tile (`BatchnormKernel.DemandExactly`); nothing checks that either.
- The unchunked static schedule adds the left-over iterations without the increment; `StaticSchedule.PartitionsExactly` and,
  for loops that count down, `StaticLoops.DownExactly` give the exact conditions. Its last-iteration flag compares the bounds
  as if every loop counted up (`StaticSchedule.LastRightExactly`, `StaticLoops.DownFlagExactly`); the chunked one rounds
  towards zero (`StaticLoops.ChunkedFlagExactly`).
- The tree reduction forwards source buffers and overwrites what has arrived, so it is a sum only for two clusters whose
  cores divide the length (`ReductionTree.SumsExactly`). With more clusters there is also a race between the additions of
  one level and the transfer of the next: it decides from which level the buffer is that an element keeps, and how often
  cluster 0's own is added to it (`ReductionRun.AnyInterleaving`), and it can be lost (`ReductionRun.ThreeClustersRace`).
- The attention kernel divides the output by the factor it should multiply by; `OnlineSoftmax.ExactExactly` shows that the
  row is right exactly when its maximum lies in the first block.
- With an odd number of cores along an axis the stencil's rotation leaves the grid of blocks, and within three steps some
  inner point is drawn by nobody (`Rotation.RotationExactly`).

## Model

| member | source | states |
|---|---|---|
| `EventUnit.BehaviourInv` | sw/snRuntime/src/omp/eu.h:59-301 | the inductive invariant of the fork-join protocol (counters, per-worker phases, what core 0 may assume at each point) holds at every position of every interleaving, for any number of workers and dispatches |
| `EventUnit.NoForeignRun` | sw/snRuntime/src/omp/eu.h:197-240 | what a core has run is its share of the dispatches that run_empty has accepted, in order, at most short of the last one: no core at or above nthreads runs a task, none runs one twice |
| `EventCalls.AcceptedAreDue` | sw/snRuntime/src/omp/eu.h:251-301 | the accepted dispatches are those due by the sequence of calls: a push replaces what waits, a run takes it, an exit drops it |
| `EventCalls.RunsAreCalls` | sw/snRuntime/src/omp/eu.h:183-301 | whenever core 0 is outside the event unit, in every interleaving, every core has called and finished, once and in order, exactly the tasks due to it by the calls made so far |
| `EventCalls.PushThenRun` | sw/snRuntime/src/omp/eu.h:251-301 | of a push and then a run with no other call between: when it has returned, every core below the number of threads pushed has called the task pushed once more than before, and no other core anything |
| `EventCalls.NothingElseRuns` | sw/snRuntime/src/omp/eu.h:197-301 | at any position a core has called its share of what is due by the calls, or that short of the last dispatch |
| `EventCalls.AllRunExactly` | sw/snRuntime/src/omp/eu.h:183-190 | when eu_exit has returned, every core has run its share of everything ever pushed if and only if no push and no exit was called while e.nthreads was not zero |
| `EventCalls.LosesExactly` | sw/snRuntime/src/omp/eu.h:251-265 | a call loses a dispatch if and only if it is a push or an exit and finds e.nthreads not zero |
| `EventCalls.PushReplaces` | sw/snRuntime/src/omp/eu.h:251-265 | of two pushes with no run between them the first leaves no trace in what is due |
| `EventCalls.PushCanReplace` | sw/snRuntime/src/omp/eu.h:251-265 | a run with two pushes in which only the second task is ever run |
| `EventUnit.ExactlyOnce` | sw/snRuntime/src/omp/eu.h:272-301 | whenever core 0 is outside the event unit, every core has run and finished exactly its share of the accepted dispatches |
| `EventUnit.NoTornEvent` | sw/snRuntime/src/omp/eu.h:251-298 | every act that stores or otherwise changes a word of the event structure is core 0's and happens while every worker sleeps with no wake-up pending, or, for the clearing of nthreads, has joined: no worker reads a half-written event |
| `EventUnit.CountersBounded` | sw/snRuntime/src/omp/eu.h:117-130 | the atomic counters never exceed the number of workers |
| `EventUnit.RankFalls` | sw/snRuntime/src/omp/eu.h:197-301 | every act that is not a new call lowers a rank |
| `EventUnit.Progress` | sw/snRuntime/src/omp/eu.h:197-301 | while core 0 is inside a call some core can move |
| `EventUnit.CallsComplete` | sw/snRuntime/src/omp/eu.h:183-301 | every schedule of a call is bounded, and if nothing can move the call has returned |
| `EventUnit.ExitDropsPending` | sw/snRuntime/src/omp/eu.h:183-195 | after eu_exit a pending dispatch is never accepted: every core ends with its share of what was accepted before |
| `EventUnit.ExitCanDrop` | sw/snRuntime/src/omp/eu.h:183-195 | a run in which a pushed task is dropped by eu_exit |
| `Barrier.BehaviourInv` | sw/snRuntime/src/sync.h:105-119 | the invariant of the reusable barrier, over any number of threads and rounds |
| `Barrier.NobodyLeavesEarly` | sw/snRuntime/src/sync.h:105-119 | nobody has left round r unless everybody has entered it, and nobody is more than one call ahead |
| `Barrier.BumpSeen` | sw/snRuntime/src/sync.h:105-119 | a waiter's remembered word differs from the iteration word exactly when its round is over, across the 32-bit wrap |
| `Barrier.Progress` | sw/snRuntime/src/sync.h:105-119 | with all participants inside, some thread can move |
| `Barrier.CallsComplete` | sw/snRuntime/src/sync.h:105-119 | a run without new calls is bounded by four steps a thread, and when it stops every thread still inside waits for one that has made fewer calls |
| `GlobalBarrier.BehaviourInv` | sw/snRuntime/src/sync.h:61-97 | the invariant of the two hardware gates per cluster around the software barrier of the data-mover cores |
| `GlobalBarrier.NobodyLeavesEarly` | sw/snRuntime/src/sync.h:70-87 | no core of any cluster has left its r-th call before every core of every cluster has made its r-th call |
| `GlobalBarrier.ReductionIsSum` | sw/snRuntime/src/sync.h:93-97 | a first all-to-all reduction returns to every core the sum of all contributions modulo 2^32 |
| `GlobalBarrier.Progress` | sw/snRuntime/src/sync.h:65-87 | while every core is inside a call, some core or gate can move |
| `GlobalBarrier.WaitsFor` | sw/snRuntime/src/sync.h:65-87 | when nothing moves, a core inside a call waits for a core that has made fewer calls |
| `GlobalBarrier.RankFalls` | sw/snRuntime/src/sync.h:65-87 | every act inside a call lowers a rank |
| `GlobalBarrier.CallsComplete` | sw/snRuntime/src/sync.h:65-87 | a run without new calls is bounded, and if all cores have made equally many calls it stops only when all have returned |
| `DataMover.BehaviourInv` | sw/snRuntime/src/dm.h:120-380 | ring, request and wake-up invariants at every memory step, one producer |
| `DataMover.IssuedInOrder` | sw/snRuntime/src/dm.h:181-202 | the fill count stays within 0 to 4, and the i-th transfer issued is what the i-th copy called asked for: one-dimensional with its source, destination, size and configuration, or two-dimensional with its strides and repetitions too |
| `DataMover.PublishedInOrder` | sw/snRuntime/src/dm.h:261-330 | the transfers published are those the client asked for, in order, up to the call in progress |
| `DataMover.PublishedWords` | sw/snRuntime/src/dm.h:261-330 | the i-th transfer published has, field by field, the words of the i-th copy called; the only one missing is that of the call in progress |
| `DataMover.NoSlotOverwritten` | sw/snRuntime/src/dm.h:261-287 | a slot is written only when every task it has held was issued and given back |
| `DataMover.WaitMeansDone` | sw/snRuntime/src/dm.h:345-370 | when dm_wait returns, every copy called before has been issued, field by field as it was asked for, nothing else has, and the engine has finished |
| `DataMover.StuckExactly` | sw/snRuntime/src/dm.h:174-384 | the states in which nothing can move inside a call are exactly those of three kinds: a copy on a full ring with the data mover asleep, a lost ready request, an exit after the data mover has left |
| `DataMover.FullAsleepHappens` | sw/snRuntime/src/dm.h:261-287 | a run that ends in the first |
| `DataMover.ReadyLostHappens` | sw/snRuntime/src/dm.h:376-384 | a run that ends in the second |
| `DataMover.ExitHangHappens` | sw/snRuntime/src/dm.h:245-249 | a run that ends in the third |
| `DataMoverCalls.RankFalls` | sw/snRuntime/src/dm.h:174-384 | every act of a call lowers a rank, but for a poll of a busy engine, which costs at most a lap |
| `DataMoverCalls.CallsBounded` | sw/snRuntime/src/dm.h:174-384 | a run without new calls is no longer than its rank and a lap for every poll that found the engine busy, so no schedule livelocks a call |
| `DataMoverCalls.CopyHangsExactly` | sw/snRuntime/src/dm.h:261-333 | a copy run to its end hangs if and only if it was called on a full ring with the data mover going to sleep or asleep, not woken and without a request; otherwise it returns |
| `DataMoverCalls.StartReturns` | sw/snRuntime/src/dm.h:339-339 | dm_start always returns |
| `DataMoverCalls.WaitReturns` | sw/snRuntime/src/dm.h:345-370 | dm_wait always returns |
| `DataMoverCalls.ReadyHangsExactly` | sw/snRuntime/src/dm.h:376-384 | dm_wait_ready has a schedule that hangs if and only if a request is outstanding as it is called |
| `DataMoverCalls.ReadyReturns` | sw/snRuntime/src/dm.h:376-384 | called with no request outstanding, dm_wait_ready returns in every schedule |
| `DataMoverCalls.ExitLeavesExactly` | sw/snRuntime/src/dm.h:245-249 | in every schedule the data mover leaves if and only if it is not about to clear a request when dm_exit writes its own; if it is, the call returns all the same |
| `DataMoverCalls.ExitHangsExactly` | sw/snRuntime/src/dm.h:245-249 | dm_exit has a schedule that hangs if and only if the data mover then is neither about to clear a request nor soundly asleep |
| `DataMoverCalls.ExitReturnsExactly` | sw/snRuntime/src/dm.h:245-249 | dm_exit has a schedule that returns if and only if the data mover then is about to clear a request, about to sleep or asleep |
| `DataMoverCalls.ExitWipedHappens` | sw/snRuntime/src/dm.h:219-249 | a run in which dm_exit writes its request while the data mover is about to clear one |
| `DataMoverCalls.NeverLeaves` | sw/snRuntime/src/dm.h:219-249 | a run from the start of the program to a dm_exit after which every schedule ends with the call returned and the data mover asleep for good, not gone |
| `Ssr.Lane.Loop1d` | sw/snRuntime/src/ssr.h:75-82 | the registers after the call hold the delta encoding of the loop, modulo 2^32 |
| `Ssr.Lane.Loop2d` | sw/snRuntime/src/ssr.h:84-96 | the same for two loops |
| `Ssr.Lane.Loop3d` | sw/snRuntime/src/ssr.h:98-117 | the same for three loops |
| `Ssr.Lane.Loop4d` | sw/snRuntime/src/ssr.h:119-140 | the same for four loops |
| `Ssr.Lane.Read` | sw/snRuntime/src/ssr.h:147-151 | a stream over the innermost loops starts at the pointer |
| `Ssr.Element2` | sw/snRuntime/src/ssr.h:84-96 | the address of element (i0, i1) of a rank-2 stream |
| `Ssr.Lane.Pop` | sw/snRuntime/src/ssr.h:130-138 | the address served is that of the generator's walk; an element is served repeat + 1 times |
| `Ssr.StreamWalksNest` | sw/snRuntime/src/ssr.h:75-139 | for every rank, every bound from 1 and every 32-bit stride, negative and zero included: element t of the encoded stream is at base + sum of index * stride modulo 2^32, in lexicographic order |
| `Ssr.DigitsOrdinal` | sw/snRuntime/src/ssr.h:75-140 | every index vector of the nest is visited, at its lexicographic position, within the product of the bounds |
| `Ssr.Element4` | sw/snRuntime/src/ssr.h:119-140 | the address of element (i0, i1, i2, i3) of a rank-4 stream |
| `Ssr.Encoded4` | sw/snRuntime/src/ssr.h:98-117 | whatever the fourth stride register holds, it is the encoding of some stride |
| `MatMul.GemmMeaning` | sw/blas/gemm/src/gemm_fp64.h:10-54 | the sweep leaves in every entry of C the scaled old entry with the products accumulated over k, and nothing else changed |
| `MatMul.MeaningUnique` | sw/blas/gemm/src/gemm_fp64.h:10-54 | that description determines the memory |
| `MatMul.ScalesAgree` | sw/blas/gemm/src/gemm_fp64.h:13-54 | scaling by a number and switching by a flag agree on 0 and 1 if multiplying by one changes nothing |
| `MatMul.AnyOrder` | sw/blas/gemm/src/gemm.h:50-82 | whatever the order in which the entries are computed, each once and from the memory as it is then, the multiply comes out the same |
| `GemmFp64.Naive` | sw/blas/gemm/src/gemm_fp64.h:10-54 | the naive kernel on a 32-bit memory is the specified multiply, transposed or not |
| `GemmEntries.NaiveEntry` | sw/blas/gemm/src/gemm_fp64.h:13-54 | by its addresses: the double at index m * ldC + n of C ends as the old one scaled, with the products of A[k + m * ldA] or A[k * M * ldA + m * ldA] and B[k * ldB + n] or B[k + n * ldB] accumulated for k = 0, 1, ... |
| `GemmFp64.AddressA` | sw/blas/gemm/src/gemm_fp64.h:66-82 | the first stream is at column k of row m, rows apart by ldA, or, with a transposed A, at k * ldA + 8 m, whatever its unconfigured fourth dimension holds |
| `GemmFp64.AddressB` | sw/blas/gemm/src/gemm_fp64.h:82-100 | the second stream is at B[k, 8 n0 + u], B transposed or not |
| `GemmFp64.Opt` | sw/blas/gemm/src/gemm_fp64.h:56-180 | the streamed kernel, both streams drained by the eight-way unrolled loop, is the specified multiply on the cells its streams and its tail read, transposed or not; its configuration can be reused |
| `GemmEntries.StreamedEntry` | sw/blas/gemm/src/gemm_fp64.h:66-158 | by its addresses, in a block of eight columns: index m * ldC + n of C, products of A[k + m * ldA] or A[k * ldA + 8 m] and B[k * ldB + n] or B[k + n * ldB] |
| `GemmEntries.TailEntry` | sw/blas/gemm/src/gemm_fp64.h:160-174 | in the columns behind the blocks: products of A[k + m * ldA] and B[k + n * ldB], whatever the flags |
| `GemmEntries.ChangedIsEntry` | sw/blas/gemm/src/gemm_fp64.h:10-180 | a cell that either kernel changes is the double at some index m * ldC + n of C |
| `GemmEntries.ExactEntry` | sw/blas/gemm/src/gemm.h:31-36 | over exact arithmetic an entry ends as beta times the old one plus the dot product of a row of A and a column of B |
| `GemmEntries.ExactSteps` | sw/blas/gemm/src/gemm.h:31-36 | so does any accumulation of this kind, that of the tiled multiply too |
| `GemmAgree.OptRefinesNaive` | sw/blas/gemm/src/gemm_fp64.h:56-180 | with BETA 0 or 1, if the two kernels read the same cells they leave the same memory |
| `GemmAgree.HarmlessWhen` | sw/blas/gemm/src/gemm_fp64.h:160-174 | they do, for any sizes and with wrapping addresses, if A is not transposed, and N is a multiple of 8 or B is transposed |
| `GemmAgree.HarmlessExactly` | sw/blas/gemm/src/gemm_fp64.h:66-174 | for positive sizes and addresses below 2^32 they do if and only if, with A transposed, there is no block of eight, one row, or K is 1 and ldA is 8, and there is no tail, K is 1, or M and ldA are 1; and, with B not transposed, there is no tail, ldB is 1, or N and K are 1 |
| `GemmAgree.TransposedHarms` | sw/blas/gemm/src/gemm_fp64.h:68-74 | in particular they do not for a transposed A with two or more rows and eight or more columns of C, unless K is 1 and ldA is 8 |
| `GemmAgree.RefinesExactly` | sw/blas/gemm/src/gemm_fp64.h:56-180 | over free arithmetic, with BETA zero, the contracts of the two kernels give the same memory for all memories if and only if they read the same cells |
| `GemmAgree.AgreeExactly` | sw/blas/gemm/src/gemm_fp64.h:56-180 | hence, for positive sizes and addresses below 2^32, if and only if the arguments meet that condition |
| `GemmAgree.TailCanMatter` | sw/blas/gemm/src/gemm_fp64.h:160-174 | one row, one column and a memory of integers on which the naive kernel leaves 10 and the streamed one 9 |
| `TiledGemm.CopyTile` | sw/snRuntime/src/dma.h:137-143 | a two-dimensional transfer copies every element and changes nothing else |
| `TiledGemm.TileElements` | sw/snRuntime/src/dma.h:235-275 | the offsets of the tile transfers, which the copies of the model use, address element (tile, offset) of the whole matrix |
| `TiledGemm.Compute` | sw/blas/gemm/src/gemm.h:50-82 | the cores, each on its strided rows, together advance every entry of the tile by one k tile |
| `TileRun.BehaviourInv` | sw/blas/gemm/src/gemm.h:50-82 | the invariant of the cores' accesses to the shared memory at every position of every interleaving |
| `TileRun.PartsTeam` | sw/blas/gemm/src/gemm.h:50-82 | the strided rows of the cores have cells of their own, and no core stores what another reads |
| `TileRun.TeamResult` | sw/blas/gemm/src/gemm.h:50-82 | in every interleaving of the cores' loads and stores every entry of every part ends as the one computed from the initial memory, has been stored exactly once, and nothing else has |
| `TileRun.RunsEnd` | sw/blas/gemm/src/gemm.h:50-82 | every run has a fixed number of accesses, and stops only when all cores are through |
| `TileRun.TileResult` | sw/blas/gemm/src/gemm.h:231-262 | so the compute phase of a tile keeps the promise of TiledGemm.Compute in every interleaving |
| `TiledGemm.SumContinues` | sw/blas/gemm/src/gemm.h:231-262 | accumulating tile by tile continues the plain accumulation over k |
| `TiledGemm.AllClusters` | sw/blas/gemm/src/gemm.h:174-277 | clusters in any order, one after the other, finish exactly their own tiles |
| `ClusterRun.BehaviourInv` | sw/blas/gemm/src/gemm.h:174-277 | the invariant of all clusters' transfers at every position of every interleaving |
| `ClusterRun.MadeByKLoop` | sw/blas/gemm/src/gemm.h:231-262 | what a cluster makes of a tile in one act is what the k loop leaves in its memory |
| `ClusterRun.ClustersResult` | sw/blas/gemm/src/gemm.h:174-277 | in every interleaving of the clusters' transfers every tile of C ends as with the clusters one after the other, every element of a tile has been stored exactly once, and nothing else has |
| `ClusterRun.RunsEnd` | sw/blas/gemm/src/gemm.h:174-277 | every run has a fixed number of acts, and stops only when all clusters are through |
| `ClusterRun.GemmResult` | sw/blas/gemm/src/gemm.h:143-281 | so the result of TiledGemm.Multiply is that of every interleaving |
| `TiledGemm.Multiply` | sw/blas/gemm/src/gemm.h:143-281 | for every size, tiling, core count and cluster count the load, compute and store run leaves in C the product over the tiles in the rows and columns it works on, with uninterpreted multiply-add, and the old entries elsewhere |
| `GemmEntries.TilingIs` | sw/blas/gemm/src/gemm.h:144-174 | what does not divide is left over: m tiles by the clusters, rows of a tile by the cores, sizes by the tiles |
| `GemmEntries.TiledSteps` | sw/blas/gemm/src/gemm.h:143-281 | so entry i * N + j of C, in a row and a column worked on, ends as the old one scaled, with the products of a[i * K + k] and b[k * N + j] accumulated over the whole k tiles |
| `GemmEntries.TiledElsewhere` | sw/blas/gemm/src/gemm.h:143-281 | in any other row or column it stays |
| `TiledGemm.TiledIsProduct` | sw/blas/gemm/src/gemm.h:143-281 | when the tiles, cores and clusters divide the sizes that is the plain product |
| `DoubleBuffer.NoRaces` | sw/dnn/maxpool/src/maxpool.h:77-180 | between barriers no buffer half is used by the data mover and a compute core at once, and no two cores write one output |
| `DoubleBuffer.SequentialResult` | sw/dnn/batchnorm/src/batchnorm.h:65-195 | in every interleaving the finished output is the sequential kernel of every tile and nothing else has changed |
| `DoubleBuffer.Progress` | sw/dnn/maxpool/src/maxpool.h:77-180 | before the end some core can act or the barrier can open |
| `DoubleBuffer.RunsEnd` | sw/dnn/maxpool/src/maxpool.h:77-180 | every run is bounded, and one that cannot be continued has reached the end on the data mover and on every core |
| `Maxpool.LayerResult` | sw/dnn/maxpool/src/maxpool.h:58-180 | in every interleaving every channel of every output position is the pooling of its window |
| `Maxpool.LayerSteps` | sw/dnn/maxpool/src/maxpool.h:61-127 | whatever the comparison: output (oh * OW + ow) * CI + c is folded from the elements at ((oh * FH + fh) * IW + ow * FW + fw) * CI + c, row by row and column by column |
| `Maxpool.LayerMaximum` | sw/dnn/maxpool/src/maxpool.h:61-127 | over numbers, in every interleaving, that output is at least every one of these elements and is one of them |
| `Maxpool.PoolIsMaximum` | sw/dnn/maxpool/src/maxpool.h:58-75 | over numbers the pooling is the maximum of the window |
| `Batchnorm.LayerResult` | sw/dnn/batchnorm/src/batchnorm.h:65-195 | in every interleaving element ((r * clusters + id) * IW + ow) * CI + c ends as x * gamma + beta, with x from the same place and gamma and beta of channel c |
| `BatchnormKernel.StreamTurn` | sw/dnn/batchnorm/src/batchnorm.h:36-45 | element t of the streams of core j is where its turn t of the layer is: columns innermost, then every compute_num-th channel |
| `BatchnormKernel.Kernel` | sw/dnn/batchnorm/src/batchnorm.h:32-63 | the kernel with its two streams and the repeated multiply-add, set up or with registers left from the last tile, leaves x * gamma + beta in the core's channels of the tile, everything else as it was, and both streams used up |
| `BatchnormKernel.KernelIsJob` | sw/dnn/batchnorm/src/batchnorm.h:32-146 | in the places of the core's turns that is what the double-buffered layer has it compute for the tile |
| `BatchnormKernel.DemandExactly` | sw/dnn/batchnorm/src/batchnorm.h:37-50 | the loop takes as many elements as the streams hold if and only if the cores divide the channels of a tile |
| `Batchnorm.OtherRows` | sw/dnn/batchnorm/src/batchnorm.h:65-195 | the rows of other clusters are left alone |
| `Frep.Sequencer.Push` | util/trace/gen_trace.py:661-667 | an offload joins the stream, and a FREP's PC the queue of PCs |
| `Frep.Sequencer.PushConfig` | util/trace/gen_trace.py:673-677 | a configuration gets the PC of the oldest FREP without one; with none left it fails |
| `Frep.Sequencer.Emulate` | util/trace/gen_trace.py:395-454 | an issue is the next one of the unrolled stream; outside a loop it has the PC and section of the offload and no loop annotation, inside one the PC of its FREP; an empty queue means all of it has been issued; a stop means that a FREP is nested |
| `Frep.Sequencer.Run` | util/trace/gen_trace.py:395-454 | at every point of a run the issues are a prefix of the unrolled stream, and without nesting of the one that charges each loop to its own PC |
| `Frep.NoFreps` | util/trace/gen_trace.py:451-454 | without FREPs the unrolled stream is the offloads, each with its own PC and section and no loop annotation |
| `Frep.PlainIssue` | util/trace/gen_trace.py:451-454 | an offload between complete loops is the issue after theirs, with its own PC and section and no loop annotation |
| `Frep.LoopIssue` | util/trace/gen_trace.py:413-454 | of a loop between complete items, instruction i in iteration r is at r * n + i, or i * (max_rpt + 1) + r, behind them, with its own PC and section, the PC of the loop and annotation (r, i) |
| `Frep.LoopOwnPc` | util/trace/gen_trace.py:661-677 | without nesting the PC of a loop is that of the FREP that heads it |
| `Frep.OwnPlain` | util/trace/gen_trace.py:451-454 | in the stream that charges every loop to its own PC, an instruction outside loops is one issue with its PC and section, and the rest follows |
| `Frep.OwnWhole` | util/trace/gen_trace.py:413-454 | in that stream a complete loop is its entries, each with the PC of the FREP at its head, and the rest follows |
| `Frep.OwnPcs` | util/trace/gen_trace.py:661-677 | handing PCs to configurations in order is right if no FREP is nested |
| `Frep.OuterAt` | util/trace/gen_trace.py:425-437 | issue r * n + i of an outer loop is instruction i of iteration r, with its own section |
| `Frep.InnerAt` | util/trace/gen_trace.py:439-442 | issue i * (max_rpt + 1) + r of an inner loop is instruction i of iteration r, with its own section |
| `Frep.LoopLength` | util/trace/gen_trace.py:678-682 | a FREP is (max_inst + 1) * (max_rpt + 1) issues |
| `Frep.UnrollAppend` | util/trace/gen_trace.py:395-454 | the unrolling of whole loops and what follows is the concatenation |
| `Rotation.OneOwner` | sw/saris/stencils/istc.issr.hpp:448-481 | in every step every block of points is drawn by exactly one core, although offsets turn after every row and step |
| `Rotation.Rotate` | sw/saris/stencils/istc.issr.hpp:477-479 | the modular update of a first point adds or subtracts the number of cores along the axis |
| `Rotation.OddAxisMisses` | sw/saris/stencils/istc.issr.hpp:477-479 | with an odd core count along an axis every core starts at an odd point after an odd number of updates |
| `Rotation.PointsAreBlocks` | sw/saris/stencils/istc.issr.hpp:448-481 | with even axes the loops draw exactly the points of the blocks dealt out |
| `Rotation.RotationExactly` | sw/saris/stencils/istc.issr.hpp:448-481 | for any core counts: every inner point is drawn in every step, and by exactly one core, if and only if both counts are even |
| `Rotation.Numbered` | sw/saris/stencils/istc.common.hpp:51-54 | core numbers and index pairs correspond one to one |
| `Stencil.Tables` | sw/saris/stencils/istc.issr.hpp:416-433 | the 16-bit index tables hold the points of the four stencils in order |
| `Stencil.Buffer` | sw/saris/stencils/istc.issr.hpp:437-444 | the coefficient table is the centre, then ym, xm, xp and yp of every distance |
| `Stencil.FoldIsStar` | sw/saris/stencils/istc.issr.hpp:424-444 | the sum in table order from a corner is the plain star stencil at its centre |
| `Stencil.Gathers` | sw/saris/stencils/istc.issr.hpp:424-433 | everything gathered for an inner point lies in the grid |
| `StencilLaw.InnerValue` | sw/saris/stencils/istc.par.hpp:105-113 | a step leaves at an inner point cc times the old value there plus, for every distance d, xm, xp, ym and yp of d times the values d + 1 to the left, to the right, below and above |
| `StencilLaw.BorderValue` | sw/saris/stencils/istc.par.hpp:103-104 | the other points of the target grid stay |
| `StencilLaw.Response` | sw/saris/stencils/istc.par.hpp:105-113 | the step of a grid that is one at a single point has there cc, on each arm the coefficient of that arm and distance, and zero elsewhere |
| `StencilLaw.StepLinear` | sw/saris/stencils/istc.par.hpp:105-113 | the new values depend linearly on the source grid, so that response determines them |
| `StencilLaw.Grids` | sw/saris/stencils/istc.par.hpp:102-116 | after t steps the two grids are the last two of a sequence in which each comes from the two before it by one step |
| `StencilKernel.Gather` | sw/saris/stencils/istc.issr.hpp:453-466 | the unrolled loop over the three streams yields the four full sums, and uses up both index streams exactly |
| `StencilKernel.Row` | sw/saris/stencils/istc.issr.hpp:449-476 | a row draws exactly the core's blocks of it, and uses up the coefficient stream exactly |
| `StencilKernel.Step` | sw/saris/stencils/istc.issr.hpp:448-479 | a time step of a core draws exactly its blocks and leaves its offsets turned by its rows |
| `StencilRun.OneDrawer` | sw/saris/stencils/istc.common.hpp:51-66 | every point of every step is drawn by exactly one core |
| `StencilRun.TimeStep` | sw/saris/stencils/istc.issr.hpp:448-481 | one step of all cores, in any order, is one step of the plain stencil |
| `StencilRun.AnyInterleaving` | sw/saris/stencils/istc.issr.hpp:468-480 | whatever the interleaving of the stores of a step, its outcome is the same |
| `StencilRun.Run` | sw/saris/stencils/istc.issr.hpp:406-483 | after any number of ping-pong steps both grids are those of the plain stencil |
| `StencilPlain.TimeStep` | sw/saris/stencils/istc.par.hpp:97-117 | the plain kernel on all cores is the specified step |
| `Lcg.LeapfrogConstants` | sw/apps/prng/lcg.h:20-35 | the loop computes a^n and (a^(n-1) + ... + 1) * c modulo 2^32 |
| `Lcg.NthSteps` | sw/apps/prng/lcg.h:47-50 | a number is a times the one before plus c, modulo 2^32 |
| `Lcg.Leap` | sw/apps/prng/lcg.h:18-50 | one step with these constants is n plain steps modulo 2^32 |
| `Lcg.RightSeed` | sw/apps/prng/lcg.h:38-45 | the seed of sequence k is number k of the sequential sequence |
| `Lcg.Sequence` | sw/apps/prng/lcg.h:38-63 | number i of sequence k is number k + n * i of the sequential sequence |
| `Lcg.NoGapNoOverlap` | sw/apps/montecarlo/pi_estimation/main.c:20-24 | every number belongs to exactly one sequence, at exactly one place |
| `Lcg.PartialSum` | sw/apps/montecarlo/pi_estimation/pi_estimation.h:11-30 | a core counts the samples i for which pair p + P * i of the sequential sequence hits |
| `Lcg.ParallelIsSequential` | sw/apps/montecarlo/pi_estimation/main.c:30-50 | all cores together count what one core would on the sequential sequence: the pairs that hit |
| `StaticLoops.StaticInit` | sw/snRuntime/src/omp/kmp.c:243-283 | the bounds, stride and flag a thread receives, for increments of either sign; under the exact condition for the unchunked schedule, and always for the chunked one, the thread runs iteration i if and only if it is its owner |
| `StaticLoops.Unchunked` | sw/snRuntime/src/omp/kmp.c:270-283 | the unchunked values in arithmetic: n iterations, q each and r left over; the first r threads get one more, the others start r values later; the stride is n |
| `StaticLoops.Chunked` | sw/snRuntime/src/omp/kmp.c:258-264 | the chunked values in arithmetic: start, end, stride and flag |
| `StaticSchedule.OneOwner` | sw/snRuntime/src/omp/kmp.c:270-279 | the intended ranges are disjoint and cover the loop, and their sizes differ by at most one |
| `StaticSchedule.PartitionsExactly` | sw/snRuntime/src/omp/kmp.c:270-279 | the unchunked bounds of a loop that counts up run every iteration once and nothing else if and only if the increment is one, nothing is left over, or no thread gets a full share |
| `StaticLoops.DownExactly` | sw/snRuntime/src/omp/kmp.c:270-279 | those of a loop that counts down do if and only if nothing is left over or no thread gets a full share |
| `StaticSchedule.StaticCanMiss` | sw/snRuntime/src/omp/kmp.c:278-278 | a loop whose last iteration nobody runs |
| `StaticSchedule.LastRightExactly` | sw/snRuntime/src/omp/kmp.c:281-282 | counting up, the unchunked flag is on exactly the thread that should have the last iteration if and only if the bounds are sound and the upper bound is an iteration; otherwise it is on no thread |
| `StaticLoops.DownFlagExactly` | sw/snRuntime/src/omp/kmp.c:281-282 | counting down, it is if and only if the upper bound is an iteration and there are no more iterations than threads |
| `StaticSchedule.ChunkedPartition` | sw/snRuntime/src/omp/kmp.c:259-262 | the chunked bounds, clipped to the loop, give every iteration to exactly one thread, round robin by chunk |
| `StaticSchedule.FlagExactly` | sw/snRuntime/src/omp/kmp.c:263-264 | counting up, the chunked flag marks exactly the thread of the last iteration if and only if the lower bound is a multiple of the span and (with several threads) the upper bound is not a negative number off these multiples |
| `StaticLoops.ChunkedFlagExactly` | sw/snRuntime/src/omp/kmp.c:259-264 | in either direction: the same with the signs of a loop that counts down changed |
| `StaticSchedule.FlagCanBeLost` | sw/snRuntime/src/omp/kmp.c:263-264 | a loop for which no thread gets the flag |
| `ReductionTree.SendsOnce` | sw/snRuntime/src/sync.h:138-149 | a cluster sends in exactly one level, given by its factors of two |
| `ReductionTree.SendsInTree` | sw/snRuntime/src/sync.h:138-149 | that level is one of the ceil(log2 N) |
| `ReductionTree.TargetReceives` | sw/snRuntime/src/sync.h:144-156 | the target is in range, takes part in the level and does not send in it |
| `ReductionTree.TargetsDistinct` | sw/snRuntime/src/sync.h:149-156 | no two senders of a level have the same target |
| `ReductionTree.RootReceives` | sw/snRuntime/src/sync.h:138-156 | cluster 0 never sends and is sent to in every level |
| `ReductionTree.Reduce` | sw/snRuntime/src/sync.h:127-180 | with the levels in lock step, for every number of clusters, cluster 0 ends with the last level's source buffer plus its own, where the cores reach |
| `ReductionTree.SumsExactly` | sw/snRuntime/src/sync.h:127-180 | over several clusters that is the sum of all buffers, whatever they hold, if and only if there are two and the cores divide the length |
| `ReductionRun.BehaviourInv` | sw/snRuntime/src/sync.h:127-180 | any number of clusters, one act per transfer, load and store: the invariant of the reduction at every position of every interleaving |
| `ReductionRun.AnyInterleaving` | sw/snRuntime/src/sync.h:127-180 | for any number of clusters, in every interleaving, an element of cluster 0 that its cores reach ends as that of the last level's sender plus its own at least once, or as that of an earlier level's plus its own at least twice; the others end as the last sender's |
| `ReductionRun.ElementInWords` | sw/snRuntime/src/sync.h:127-180 | element p of cluster 0 ends as src[2^j][p] + k * src[0][p]; where the cores reach, k is at least 1, and at least 2 if j is not the last level; elsewhere k is 0 and j the last |
| `ReductionRun.RankFalls` | sw/snRuntime/src/sync.h:127-180 | every act lowers a rank |
| `ReductionRun.Progress` | sw/snRuntime/src/sync.h:127-180 | before the end some act is enabled |
| `ReductionRun.RunsEnd` | sw/snRuntime/src/sync.h:127-180 | every run is bounded, and one that cannot be continued has come to the end on every cluster |
| `ReductionRun.TwoClustersHold` | sw/snRuntime/src/sync.h:127-180 | with two clusters, in every interleaving, cluster 0 ends with the lock-step result |
| `ReductionRun.TwoClustersSum` | sw/snRuntime/src/sync.h:127-180 | with two clusters whose cores divide the length, in every interleaving, cluster 0 ends with the sum |
| `ReductionRun.ThreeClustersRace` | sw/snRuntime/src/sync.h:161-177 | a run of three clusters in which an element of cluster 0 is counted twice and the lock-step result is not reached |
| `OnlineSoftmax.Row` | sw/dnn/flashattention_2/src/flashattention_2.h:123-262 | after all blocks m is the row maximum, l the sum of exp(score - m), and the output the code's accumulator over l |
| `OnlineSoftmax.Block` | sw/dnn/flashattention_2/src/flashattention_2.h:187-239 | the same after every prefix of blocks |
| `OnlineSoftmax.TopIsMaximum` | sw/dnn/flashattention_2/src/flashattention_2.h:194-199 | the running maximum bounds every score and is one of them |
| `OnlineSoftmax.GotIs` | sw/dnn/flashattention_2/src/flashattention_2.h:218-239 | the accumulator counts a block exp(2 (m - maximum up to that block)) times too much |
| `OnlineSoftmax.SoftmaxShifted` | sw/dnn/flashattention_2/src/flashattention_2.h:201-206 | the softmax-weighted sum does not depend on what is subtracted from the scores |
| `OnlineSoftmax.SoftmaxSteps` | sw/dnn/flashattention_2/src/flashattention_2.h:201-206 | it is the sum of exp(score) * value over the sum of exp(score), both score by score |
| `OnlineSoftmax.ExactExactly` | sw/dnn/flashattention_2/src/flashattention_2.h:187-262 | the output is the softmax-weighted sum for all values if and only if the maximum lies in the first block |
| `Fusion.PartsAreProduct` | sw/dnn/fused_concat_linear/src/fused_concat_linear.h:56-79 | two partial products add up to the product of the concatenation |
| `Fusion.Fused` | sw/dnn/fused_concat_linear/src/fused_concat_linear.h:56-79 | for any sizes and cores, entry by entry: in the rows the cores divide the fused path on two clusters leaves the product of the concatenated inputs and the weights as far as the reduction reaches, elsewhere what was loaded |
| `Fusion.FusedIsProduct` | sw/dnn/fused_concat_linear/src/fused_concat_linear.h:56-79 | when the cores divide the rows that is the product |
| `Fusion.FusedExactly` | sw/dnn/fused_concat_linear/src/fused_concat_linear.h:56-79 | it is the product for all inputs if and only if the cores divide the rows |
| `Fusion.FusedCanFail` | sw/dnn/fused_concat_linear/src/fused_concat_linear.h:56-79 | one row and two columns on two cores: the cores divide the elements, but nobody computes the row |
| `Fusion.ProductInWords` | sw/dnn/fused_concat_linear/src/fused_concat_linear.h:56-79 | in terms of the inputs, such a product is accumulated over row i of the first input and row i of the second, with column j of the weights |
| `Fusion.Concat` | sw/dnn/concat/src/concat.h:41-56 | two column-block copies join the rows of the inputs |
| `Fusion.Baseline` | sw/dnn/fused_concat_linear/src/fused_concat_linear.h:34-54 | concatenation, then the tiled multiply on two clusters: the joined rows, and in each half of the rows the product where the cores divide, the old entries elsewhere |
| `Fusion.BaselineExactly` | sw/dnn/fused_concat_linear/src/fused_concat_linear.h:34-54 | that is the product for all inputs if and only if the rows fall into two halves that the cores divide |
| `Fusion.ProductUnique` | sw/dnn/fused_concat_linear/src/fused_concat_linear.h:34-79 | with beta zero the product determines the output, so where both paths compute it they leave the same |
| `FloatDecode.NextIsUlp` | util/trace/gen_trace.py:327-349 | the next pattern decodes one unit in the last place higher, across zero, subnormal and normal numbers |
| `FloatDecode.OrderPreserved` | util/trace/gen_trace.py:327-349 | for every exponent and mantissa width decoding is strictly increasing, hence injective, on the non-negative finite patterns |
| `FloatDecode.SignNegates` | util/trace/gen_trace.py:334-349 | setting the sign bit negates the value |
| `FloatDecode.DecodeFields` | util/trace/gen_trace.py:334-349 | the value from the sign, exponent and mantissa fields: infinities, not-a-numbers, subnormal and normal numbers with their powers of two |
| `FloatDecode.OneDecodes` | util/trace/gen_trace.py:339-349 | exponent field 2^(exp - 1) - 1 with an empty mantissa is one |

## Left out

- Encodings of instructions and registers, 64-bit pointer halves and transfer identifiers: hardware the sources do not
  define; single acts and array copies stand for them.
- The variants of eu.h and dm.h that wake cores through the global interrupt controller.
- Several clients of one data mover: the queue-full poll is outside the lock, so the ring bound holds for one producer only.
- K = 0 in `gemm_fp64_opt`: it wraps a stream bound and a repetition count.
- GemmFp64.Opt: takes the repetition register of the second stream to hold its reset value 0, since the code never writes it.
- `parallelize_k` in gemm beyond the fused layer: with more than two clusters the reduction is not a sum.
- TiledGemm.Multiply: untransposed row-major matrices and the naive kernel on each core; the choice of the streamed kernel is
  covered by GemmFp64 separately.
- ClusterRun.ClustersResult: what a cluster does to a tile in its own memory is one act, since no other cluster sees it;
  TileRun has its accesses.
- ReductionTree.Reduce: takes the levels in lock step; ReductionRun takes them as they come.
- Fusion.Fused: A is copied into the tile buffer like B, where the code uses it in place.
- Maxpool.LayerResult: the comparison and the assignment of one input are one read; the positions of one cluster that has them
  all, since the kernel's offset is the global core index.
- Batchnorm.LayerResult: gamma and beta are functions of the channel; their own transfer, which is over before the first
  barrier, is not modelled.
- BatchnormKernel.Kernel: takes the repetition registers to hold their reset value 0, since the code never writes them.
- StencilRun.Run: cores take whole turns within a step; Stencil stores in any other interleaving are covered by
  StencilRun.AnyInterleaving, since a step reads only the grid it does not write. The three-dimensional and box stencils, and
  cores along z, are not modelled.
- StaticLoops.StaticInit: loop bounds are mathematical integers, and the loop has an iteration: a compiler tests for that before
  the call.
- Frep.Sequencer.Emulate: looks at a queue before popping it, where the script would end with an exception.
- Lcg.PartialSum: the test on the normalised pair is a parameter. Sequences are counted per cluster and seeded by the global
  core index, so the split is right for one cluster only; several clusters are not modelled.
- OnlineSoftmax.Row: one column of V; rows and columns are independent. Rounding and overflow are not modelled.
- FP32, FP16 and FP8 kernels, conv2d, layernorm, gelu, softmax and the elementary functions themselves.
- `__microtask_wrapper`, allocators, team bookkeeping, simulation, data generation and trace visualisation: argument passing,
  input and output, or easy members.
