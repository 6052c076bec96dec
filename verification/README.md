# A verified model of the GPU batch inference scheduler

This project models the batch scheduler and the data path it drives, and proves what they keep.

- **Jobs and packing.** A job's device footprint in `size_t` arithmetic, the priority queue, the aging
  buckets and the greedy packer (`Jobs`, `Packing`, `PackingOptimality`, `LargestSet`).
- **The threads.** One dispatcher, any number of workers and submitters and a stopper as a state
  machine with one step per critical section or atomic operation (`Protocol`). What a thread has read
  and not yet used sits in its program counter, so it acts on stale values. The theorems range over
  every run: conservation of jobs (`Conservation`), the reservation ledger and the budget of a round
  (`Ledger`, `Budgets`), what the metrics say (`Metrics`), counters, lookahead, shutdown, progress and
  restart (`Lifecycle`, `Counters`, `Lookahead`, `Stopping`, `Restart`), rejection of jobs that can never fit (`Rejection`), starvation (`Starvation`, `StarvationRuns`, `StarvationBound`) and the daemon's drain
  detection (`Daemon`). `BatchSchedulers` is the scheduler object itself, with mutable fields and
  loops. One iteration of its dispatcher and one round of a worker (`WorkerRounds`) are proved to end
  where the state machine's steps of that thread first come back to the top of its loop.
- **Device memory.** Buffer ownership and the allocation retry loop against an allocator that answers
  arbitrarily (`DeviceBuffers`).
- **The pipeline.** Streams are first-in-first-out lanes, events are marks in them, and a wait is bound
  to the record most recently issued by the host (`Streams`). `Pipeline` and `PipelineTheorems` cover
  every device interleaving of any number of batches that reuse streams and events; `SplitStream` is
  the benchmark's control with one copy stream; `StageIndependence` and `OverlapTiming` compare the two.
- **The kernels.** The naive and the tiled matrix product over arrays, with arbitrary thread order
  between barriers (`Gemm`, `NaiveGemm`, `TiledGemm`), when the two agree with a fused and with an unfused
  multiply-add (`TiledGemm`, `SignedZeros`), and the argument layout of the cuBLAS call
  (`GemmCublas`).
- **Shape text.** Parsing and printing of the benchmark's shapes (`ShapeText`).

`dafny verify dfyconfig.toml` checks everything.

## Where the code and its documentation differ

The model follows the code.

- The header and the design notes describe a sort by size first (`src/sched/scheduler.hpp:22-26`,
  `docs/DESIGN.md:8-18`). The code sorts by age bucket first. The claim "largest set" therefore fails
  across age buckets: `LargestSet.LargestSetIff` says for which budgets and caps it always holds,
  `PackingOptimality.PackIsLargest` for which candidates, and `PackingOptimality.PackIsLexOptimal`
  what holds of every round.
- "Never exceeds the budget" holds if and only if the budget is below 2^63 bytes or a batch holds one
  job; beyond that the running sum wraps (`Packing.BudgetIsHonouredIff`).
- The dispatcher's comment that in-flight batches complete at shutdown (`src/sched/scheduler.cpp:417`)
  holds of every run only on hosts without a GPU: the workers may leave before the dispatcher pushes
  its last batch (`Lifecycle.InFlightBatchesCompleteIff`). At most one batch is left when there is a
  worker (`Lifecycle.ShutdownOutcome`).
- The comment that aging bounds starvation at roughly one interval plus one packing round
  (`src/sched/scheduler.cpp:121-123`) holds, for a positive cap, exactly on hosts without a GPU, where
  there are no packing rounds (`StarvationBound.OneRoundBoundIff`). Without a cap, and with a worker, it
  holds exactly where moreover no budget covers one element (`StarvationBound.UncappedBoundIff`), and of
  jobs with positive dimensions, whatever the cap, exactly where there is no GPU or no budget covers a
  product of single elements (`StarvationBound.ProductBoundIff`). Elsewhere, with one worker or more,
  a job that has waited an interval can be passed over in any number of rounds
  (`StarvationBound.AnyNumberOfRounds`, `StarvationBound.ProductsStarve`), though never in more than it
  has peers, that is, other jobs submitted less than one interval after it
  (`StarvationBound.AgedRoundsAreBounded`). That bound is exact where one job can fill a round
  (`StarvationBound.OneFillsARound`, `StarvationBound.BoundIsAttained`): with a cap of one; with the
  monitor's budget, as by default, if some reading up to the device size leaves four bytes; and with a
  fixed budget of four bytes or more that is not above the largest job the device can serve. With a
  fixed budget below four bytes the exact bound is the number of peers divided by the cap
  (`StarvationBound.TinyBudgetBound`). In all these runs the monitor never reports more than the device
  has.
- "Waiting-time aging keeps large jobs from starving" (`README.md:6`): age puts a job first in the
  packing order, but the sweep steps over it when the round's budget does not cover it. Every job the
  device can serve and the fixed budget, or with the monitor twelve bytes, do not cover can be left
  behind in any number of rounds for small jobs submitted after it had waited an interval, although it
  has no peers (`StarvationBound.LargeJobsAreOutrun`). With the monitor and a cap, as by default, the
  jobs that can be so left behind are exactly those that take memory (`StarvationBound.OutrunIff`).
- The cuBLAS header promises the semantics of the other kernels (`src/kernels/gemm_cublas.hpp:7-9`).
  With N = 0 or K = 0 the library refuses the call, because a leading dimension is zero, and the
  batch fails; for K = 0 the other kernels store zeros (`GemmCublas.ExchangedCallIsValid`,
  `GemmCublas.AgreesWithNaive`).
- A test asserts, once all submissions are counted, that no more jobs are completed than submitted
  (`tests/test_scheduler.cpp:215`), and the HTTP server guards its subtraction against the opposite
  (`src/server/http_server.cpp:60`). A submission is counted after its push, so completed is at most
  submitted plus the submissions in between (`Counters.CompletedWithinPushed`), and it stays within
  submitted in every run exactly where nothing can ever be recorded: with a GPU, no worker and no
  largest job to reject beyond (`Counters.CompletedWithinSubmittedIff`). Drain detection is sound nevertheless
  (`Daemon.DrainDetectionIsSound`).
- The header describes both kernels by one product (`src/kernels/gemm.hpp:7-12`). The tiled kernel's
  padding adds 0 * 0 until K is a multiple of 32, and with a fused multiply-add, which CUDA compilers
  emit by default, that step turns -0 into +0. For arithmetic on which such a step acts at most once the
  kernels agree exactly where K is a multiple of 32 or every dot product is one that the step leaves
  alone (`TiledGemm.SettlingProductIff`): all but -0 with a fused multiply-add
  (`SignedZeros.FusedProductIff`). A single product of 2^-100 and -2^-100 underflows to -0 and shows the
  difference (`SignedZeros.KernelsDiffer`). With a separate multiply and add the kernels always agree
  (`TiledGemm.LawfulIsProduct`, `SignedZeros.UnfusedIsLawful`).
- A trailing separator is accepted in a shape (`ShapeText.ShapeRoundTrip`, `ShapeText.AcceptedIff`).

## Model

| member | source | states |
|---|---|---|
| Jobs.BytesAreExactModuloSize | src/sched/job.hpp:24-30 | for all dimensions, negative ones included, the wrapped footprint is the exact one modulo 2^64, and the exact one when it is representable |
| Jobs.AllocationsMatchReservation | src/sched/scheduler.cpp:568-579 | the three allocations made for a job ask for exactly the bytes reserved for it, modulo 2^64 always and without any wrap for representable jobs |
| Jobs.CountsAreExact | src/sched/scheduler.cpp:568-570 | for representable jobs the three element counts are m*k*batch, k*n*batch and m*n*batch, with no wrap |
| Jobs.DrainIsPriorityThenFifo | src/sched/job.hpp:33-41 | draining the queue loses nothing and delivers higher priorities first, and lower sequence numbers first within a priority |
| Jobs.DrainIsCanonical | src/sched/scheduler.cpp:418-421 | with distinct sequence numbers the drain order depends only on which jobs are queued |
| Packing.PackOrderIsStrictTotal | src/sched/scheduler.cpp:161-175 | the packing comparator is a strict weak order, as sorting demands, and total on jobs with distinct sequence numbers |
| Packing.PackOrderByField | src/sched/scheduler.cpp:161-175 | one job goes before another exactly if its bucket is older, or that being equal its footprint is smaller, or these being equal its priority is higher, or all being equal its number is lower |
| Packing.AgeBucketCountsIntervals | src/sched/scheduler.cpp:153-159 | a stamped job that has waited w nanoseconds is in bucket b with b * 10^9 <= w < (b + 1) * 10^9, and one stamped later than now in bucket zero |
| Packing.SortedByField | src/sched/scheduler.cpp:161-175 | of two places of the sorted candidates the earlier has the older bucket, or the smaller footprint, or the higher priority, or a number no higher, in this precedence |
| Packing.TieGoesToPriority | src/sched/scheduler.cpp:161-190 | of two candidates with equal bucket and footprint, one left behind has neither a higher priority than one selected, nor the same and a lower number, for any budget, wrapped sums included |
| Packing.SelectsSomethingIff | src/sched/scheduler.cpp:177-191 | a round selects something if and only if its budget covers some candidate |
| Packing.IntervalOutranks | src/sched/scheduler.cpp:119-126 | a job submitted a full aging interval earlier is in a strictly older bucket at any later time, through both truncating divisions |
| Packing.PackJobs | src/sched/scheduler.cpp:144-192 | the loop returns the specified sweep; selected and remaining are together the candidates; cap and budget hold; ties go to priority and then to the lower number; the flag says whether anything was selected |
| Packing.PackPartitions | src/sched/scheduler.cpp:177-190 | selected and remaining jobs are together a permutation of the candidates, and the cap holds |
| Packing.BudgetIsHonouredIff | src/sched/scheduler.cpp:177-190 | the selection fits the budget for every candidate list and clock if and only if the budget is below 2^63 or the cap is one |
| Packing.PackIsMaximal | src/sched/scheduler.cpp:177-190 | no job left behind could be added within both budget and cap |
| Packing.PackIsCanonical | src/sched/scheduler.cpp:161-191 | with distinct sequence numbers the outcome depends only on the candidate set, not on the order the queue delivered it in |
| Packing.RejectedBehindSelected | src/sched/scheduler.cpp:178-190 | a job the budget covers is rejected only behind a selected job that comes earlier in the packing order |
| Packing.PassedOverForAPeer | src/sched/scheduler.cpp:152-190 | a stamped candidate that the budget covers is passed over only if the round selects another job submitted less than one aging interval after it |
| Packing.PassedOverForABatch | src/sched/scheduler.cpp:178-190 | a stamped candidate without footprint is passed over only where there is a cap, and then for a full batch of jobs submitted less than one interval after it |
| PackingOptimality.RunDominates | src/sched/scheduler.cpp:168-190 | exchange argument: over jobs in ascending size no feasible choice that enters with as many jobs and no less memory takes more of them than the sweep |
| PackingOptimality.PackIsLexOptimal | src/sched/scheduler.cpp:152-191 | counted per age bucket, oldest first, the selection is lexicographically maximal among all feasible subsets of the candidates |
| PackingOptimality.PackIsLargest | src/sched/scheduler.hpp:22-26 | the selection is a largest feasible set whenever no older candidate is larger than a younger one, hence within one bucket and for equal sizes |
| LargestSet.LargestSetIff | src/sched/scheduler.hpp:22-26 | below 2^63, "largest set" holds for all candidate lists if and only if the cap is one or the budget is below eight bytes |
| LargestSet.OldDisplacesTwo | src/sched/scheduler.cpp:162-175 | for every other budget and cap, three jobs and a clock for which the packer takes one job although two would fit |
| Conservation.StepLoad | src/sched/scheduler.cpp:412-474 | for any weight on jobs, one step changes what is in flight by exactly the job it accepts and the jobs it records |
| Conservation.StepMetrics | src/sched/scheduler.cpp:688-714 | a step appends to the metrics exactly the rows of the jobs it records, with their outcome |
| Metrics.StepReports | src/sched/scheduler.cpp:666-715 | the rows a step adds have, in order, id, number and priority of the jobs it takes out of flight, and tell success exactly if the step is the end of a batch a worker allocated and ran |
| Metrics.RowsTellOfAcceptedJobs | src/sched/scheduler.cpp:674-715 | in every reachable state each metrics row has the id, the sequence number and the priority of the accepted job of that number |
| Metrics.NoSuccessWithoutGpu | src/sched/scheduler.cpp:424-429 | on a host without a GPU every metrics row of every run tells failure |
| Metrics.OnlyTooLargeFail | src/sched/scheduler.cpp:431-453 | with a GPU, in every run in which no allocation and no execution fails, a row tells failure if and only if its job is too large for the device |
| Conservation.RunBooks | src/sched/scheduler.cpp:272-282 | in every reachable state queue, dispatcher's hands, packed batches, unrecorded batches and metrics together weigh what the accepted jobs weigh, for every weight |
| Conservation.JobsAreConserved | src/sched/scheduler.cpp:412-516 | in every reachable state each assigned sequence number is in exactly one of these places, once, and an unassigned one in none |
| Conservation.JobCountsBalance | src/sched/scheduler.cpp:272-282 | jobs in flight plus metrics rows equal the jobs accepted |
| Lifecycle.StampsCanBeOutOfOrder | src/sched/scheduler.cpp:272-278 | on every configuration a run in which a later sequence number carries an earlier stamp, because stamp and number are not taken together |
| Ledger.LedgerIsExact | src/sched/scheduler.cpp:365-378 | whatever the monitor reports, the reserved total equals the bytes of queued batches, of unreleased batches and of the batch about to be pushed, and stays below 2^63 |
| Ledger.ReleaseNeverSaturates | src/sched/scheduler.cpp:375-378 | a release subtracts exactly what the batch reserved; the saturating branch discards nothing |
| Ledger.QuiescentLedgerIsZero | src/sched/scheduler.cpp:492-516 | with nothing queued, pushed or running the reserved total is zero |
| Ledger.NoSelfOvercommit | src/sched/scheduler.cpp:380-392 | on a device with no other tenant, in every reachable state allocated bytes are at most reserved bytes and these at most the limit, so an ideal allocator never fails |
| Ledger.NextAllocationFits | src/sched/scheduler.cpp:553-583 | the allocation a worker is about to make fits what its batch reserved beside all that is allocated |
| Budgets.BudgetIsWhatIsLeft | src/sched/scheduler.cpp:380-392 | whatever happens between the two reads, a round has the fixed budget, or what the reading leaves beyond the margin, less what was reserved at the second read, or nothing |
| Budgets.BudgetAndFlightAreBase | src/sched/scheduler.cpp:390-391 | in every reachable state in which the ledger is read, budget and bytes of all batches in flight are together exactly the base, if that covers them |
| Budgets.RoundTakesSomethingIff | src/sched/scheduler.cpp:390-474 | also with batches in flight, a round takes something if and only if some candidate needs no memory or no more than its base exceeds the reserved bytes by |
| Lifecycle.CompletedTrailsMetrics | src/sched/scheduler.cpp:688-714 | the completed counter plus the batches between row and increment equals the number of metrics rows, which never exceeds the jobs accepted |
| Counters.CompletedWithinPushed | src/sched/scheduler.cpp:272-282 | in every reachable state completed is at most the jobs pushed, which are the submitted ones and those whose increment is pending |
| Counters.CompletedWithinSubmittedIff | src/server/http_server.cpp:59-60 | completed stays within submitted in every reachable state if and only if nothing can ever be recorded: a GPU, no worker and no largest job |
| Lifecycle.LookaheadIsBounded | src/sched/scheduler.cpp:395-410 | the batch queue never holds more than max(2, 2 * workers) batches, although test and push are separate critical sections |
| Lookahead.LookaheadIsReached | src/sched/scheduler.cpp:395-410 | on every configuration with a GPU and a cap a run queues exactly max(2, 2 * workers) batches |
| Lifecycle.BatchesAreWithinCap | src/sched/scheduler.cpp:177-183 | no batch that is selected, queued or held by a worker is ever above the cap |
| Lifecycle.BatchesAreNonEmpty | src/sched/scheduler.cpp:465-474 | no batch that is reserved, about to be pushed or queued for the workers is ever empty |
| Rejection.OversizedAreNeverPacked | src/sched/scheduler.cpp:431-456 | in every reachable state all jobs past triage, packed, queued in batches or held by workers fit the device, if its size is known |
| Rejection.TriageRejectsTooLarge | src/sched/scheduler.cpp:424-456 | with a GPU triage fails exactly the candidates of more bytes than the device has beyond the margin, if it is known to have any, and keeps all others in their order; without one it fails all |
| Rejection.OnlyTooLargeAreRejected | src/sched/scheduler.cpp:431-453 | in every run on a host with a GPU every job the dispatcher fails is larger than the device beyond the margin |
| Lifecycle.ShutdownOutcome | src/sched/scheduler.cpp:245-266 | whenever stopped, each accepted job is in the metrics, the queue or a batch left behind; at most one batch is left when there is a worker; the ledger holds exactly its bytes; completed equals the rows |
| Stopping.NobodyIsStuck | src/sched/scheduler.cpp:402-516 | with a worker, in every reachable state of a started scheduler some thread can go on, unless nothing is queued, held or packed, or all threads have left after a stop |
| Stopping.StopIsBounded | src/sched/scheduler.cpp:245-266 | once stop has signalled, all threads together take at most a number of steps fixed by the state, whatever is submitted meanwhile |
| Stopping.StopCompletes | src/sched/scheduler.cpp:245-266 | from every reachable state in which a stop is pending a run ends stopped |
| Restart.QueueResumes | src/sched/scheduler.cpp:212-243 | jobs left in the queue when the scheduler stopped can be the candidates of the first round after the next start |
| Restart.LeftBehindBatchResumes | src/sched/scheduler.cpp:212-266 | a batch left behind when the scheduler stopped can be run after the next start, is then recorded as done, and nothing is reserved any more |
| Lifecycle.PackedBatchCanBeLeftBehind | src/sched/scheduler.cpp:470-491 | with a GPU, for every configuration a run that ends stopped with a packed batch still queued |
| Lifecycle.InFlightBatchesCompleteIff | src/sched/scheduler.cpp:412-418 | no stopped state leaves a packed batch behind, in any run, if and only if the host has no GPU |
| Starvation.PassedOverSelectsPeer | src/sched/scheduler.cpp:459-474 | a round that passes a covered candidate over selects one of the jobs aging allows ahead of it, given distinct numbers and past stamps, which every reachable state has |
| Starvation.StarvationIsBounded | src/sched/scheduler.cpp:119-191 | over any run with any later arrivals, the rounds that pass over a covered candidate number at most the other jobs submitted less than one interval after it, and for a job without footprint at most that number divided by the cap |
| StarvationBound.OneRoundBoundIff | src/sched/scheduler.cpp:121-123 | for a positive cap, no run passes any job over in more than one covered round after it has waited an aging interval, if and only if the host has no GPU |
| StarvationBound.UncappedBoundIff | src/sched/scheduler.cpp:121-123 | without a cap and with a worker, the same holds if and only if there is no GPU or no budget covers one element that the device can serve |
| StarvationBound.ProductBoundIff | src/sched/scheduler.cpp:121-123 | for any cap and with a worker, it holds of jobs with positive dimensions if and only if there is no GPU or no budget covers the smallest of them |
| StarvationBound.AgedRoundsAreBounded | src/sched/scheduler.cpp:119-191 | over any run, the covered rounds that pass a job over after it has waited an interval number at most its peers |
| StarvationBound.ProductsStarve | src/sched/scheduler.cpp:119-191 | for every n a run that passes a product of single elements over in n such rounds, with n peers under the monitor's budget and n times a full round under a fixed one |
| StarvationBound.LargeJobsAreOutrun | README.md:6-6 | for every job the device can serve and every n a run in which that job, larger than the rounds' budgets, is an aged candidate in n rounds that each select a job submitted an interval later, and has no peers |
| StarvationBound.OutrunIff | README.md:6-6 | with the monitor, a GPU, a worker and a cap, a job the device can serve can be left behind so in any number of rounds if and only if it takes memory |
| StarvationBound.AnyNumberOfRounds | src/sched/scheduler.cpp:119-191 | on every configuration with a GPU, a worker and a positive cap, for every n a run with n such rounds and n times the cap peers |
| StarvationBound.BoundIsAttained | src/sched/scheduler.cpp:119-191 | wherever one job can fill a round, for every n a run with n such rounds and n peers, no reading above the device size |
| StarvationBound.TinyBudgetBound | src/sched/scheduler.cpp:178-190 | with a fixed budget below four bytes, the rounds that pass a covered candidate over number at most its peers divided by the cap |
| Daemon.DrainDetectionIsSound | src/main.cpp:294-381 | if the polling loop leaves by its condition, the generator is done and has submitted something, every submitted job has exactly one metrics row and nothing is queued, held, packed or unrecorded, although its reads are not atomic |
| Daemon.DrainIsDetected | src/main.cpp:372-381 | once the generator is done, something is submitted, the queue is empty and completed has reached submitted, the next undisturbed poll leaves the loop, in either order of its last reads |
| Daemon.PollGoesBack | src/main.cpp:376-380 | an undisturbed poll in any other state goes back to sleep at the first of the four operands that does not hold |
| BatchSchedulers.BatchScheduler.Submit | src/sched/scheduler.cpp:272-282 | the job is stamped, numbered and queued, and counted; nothing else changes |
| BatchSchedulers.BatchScheduler.DrainQueue | src/sched/scheduler.cpp:418-421 | popping until empty delivers the specified drain order |
| BatchSchedulers.BatchScheduler.SplitOversized | src/sched/scheduler.cpp:434-445 | the erase loop leaves exactly the candidates up to the largest footprint and takes out exactly those above it, each in their order |
| BatchSchedulers.BatchScheduler.BudgetBytes | src/sched/scheduler.cpp:380-392 | the budget is the fixed one, or the reading less the margin, less what is reserved, each difference zero where negative |
| BatchSchedulers.BatchScheduler.FailBatch | src/sched/scheduler.cpp:703-715 | one failed row per job in batch order with its id, number and priority, and the counter advances by the batch |
| BatchSchedulers.BatchScheduler.DispatcherRound | src/sched/scheduler.cpp:402-479 | one uninterrupted iteration drains the queue, records exactly the too large jobs as failed, packs from all others within what is left of the budget, queues the rest again and pushes and reserves the batch; and it ends in the state in which the dispatcher's steps first reach the top of the loop again, or leave it |
| BatchSchedulers.BatchScheduler.WorkerRound | src/sched/scheduler.cpp:486-516 | the front batch is popped, recorded job by job with id, number, priority and outcome, counted and its reservation given back, nothing else changes, and steps of the worker in the state machine lead there |
| WorkerRounds.WorkerRoundsEnd | src/sched/scheduler.cpp:486-516 | every round of a worker, whatever its allocations and its execution do, ends in one of the two outcomes of that method, and in failure without a GPU |
| WorkerRounds.WorkerRoundExists | src/sched/scheduler.cpp:486-516 | both outcomes are reached by a round where there is a GPU, and failure where there is none |
| WorkerRounds.WorkerRetries | src/sched/scheduler.cpp:560-609 | while a worker tries it has failed at most 200 times, always for lack of memory; it gives up after 201 such failures, or at once after any other |
| WorkerRounds.NothingToAllocateNeverFails | src/core/device_buffer.hpp:47-61 | a worker's round on a batch that needs no memory has no failed allocation and is not given up |
| DeviceBuffers.DeviceBuffer.Release | src/core/device_buffer.hpp:67-73 | exactly the block owned is freed, once, and the buffer is empty |
| DeviceBuffers.DeviceBuffer.TryAllocate | src/core/device_buffer.hpp:47-61 | the old block is freed; success owns a fresh block of the count, or none for zero; failure leaves the buffer empty; no other block is touched |
| DeviceBuffers.DeviceBuffer.MoveFrom | src/core/device_buffer.hpp:31-45 | the block changes owner, the old one is freed, and moving a buffer to itself changes nothing |
| DeviceBuffers.TallyUpdate | src/core/device_buffer.hpp:15-45 | when one owner exchanges its blocks with the allocator, every live block still has exactly one owner and the others' blocks keep their sizes |
| DeviceBuffers.AllocateBatch | src/sched/scheduler.cpp:560-609 | for any allocator answers at most 201 attempts; every attempt but the last failed for lack of memory, and the attempts' failures are exactly those of the allocator's history; success fills every buffer of the batch, those of a representable job with exactly the elements of its A, B and C; failure leaves it holding nothing and the device as before |
| DeviceBuffers.FilledForKernels | src/sched/scheduler.cpp:568-654 | after success the buffers of every representable job meet the kernels' demands on the sizes of A, B and C |
| DeviceBuffers.BuffersAreMatrices | src/sched/scheduler.cpp:568-579 | the state machine's worker asks for four bytes per element of A, B and C, job after job |
| DeviceBuffers.OwnedBytes | src/core/device_buffer.hpp:15-45 | the live bytes of the device beyond those of its other blocks are the sum of what the buffers asked for |
| DeviceBuffers.HeldEqualsReservation | src/sched/scheduler.cpp:566-579 | filling the buffers of a batch of representable jobs adds to the live bytes of the device exactly the bytes reserved for the batch |
| Pipeline.EnqueueBatch | src/sched/scheduler.cpp:616-664 | the loop, with copies of the next job at the end of each iteration, issues the commands job after job |
| Pipeline.StepInv | src/sched/scheduler.cpp:616-672 | every host or device step keeps lanes, event bindings, stage order, buffer contents and host progress in their closed forms |
| PipelineTheorems.ResultsAreCorrect | src/sched/scheduler.cpp:666-687 | after the host's wait for job i, in every interleaving, its result buffer holds the product of its own inputs |
| PipelineTheorems.WaitsBindToThisBatch | src/sched/scheduler.cpp:545-551 | every wait holds for the record this batch made of the same job's event, never for one left by an earlier batch |
| PipelineTheorems.StagesRunInOrder | src/sched/scheduler.cpp:628-664 | copies before kernel before result copy, for every job and interleaving |
| PipelineTheorems.ConcurrentWorkIsDisjoint | src/sched/scheduler.cpp:611-615 | work two lanes could run at the same moment belongs to different jobs |
| PipelineTheorems.FillTouchesNoIssuedJob | src/sched/scheduler.cpp:616-626 | when the host fills the inputs of job i, all pending work is on earlier jobs |
| PipelineTheorems.BatchEndsIdle | src/sched/scheduler.cpp:668-699 | a batch that ends, completed or abandoned at any command, leaves no pending operation |
| PipelineTheorems.PipelineNeverDeadlocks | src/sched/scheduler.cpp:628-672 | until a batch is finished the host or some lane can go on |
| SplitStream.EnqueueSplit | bench/bench_overlap.cpp:356-392 | the control loop issues the single-copy-stream commands job after job |
| SplitStream.ExactlyOneSchedule | bench/bench_overlap.cpp:345-393 | whatever the device does, the control's copies and kernels run in the one serial order, and never can two lanes run |
| SplitStream.SplitNeverDeadlocks | bench/bench_overlap.cpp:345-394 | while operations are pending one of the control's lanes can run |
| SplitStream.SplitResultsAreCorrect | bench/bench_overlap.cpp:345-394 | the control ends with the same host results as the double-buffered order |
| StageIndependence.NextCopiesOverlapKernel | bench/bench_overlap.cpp:433-475 | for every neighbouring pair there is a run where the next copies precede the kernel and one where the kernel precedes them |
| OverlapTiming.TimedLanesAreIssued | bench/bench_overlap.cpp:450-475 | the operations timed are those the lanes hold once the three-stream order is issued |
| OverlapTiming.SplitLanesAreIssued | bench/bench_overlap.cpp:356-392 | the operations timed are those the lanes hold once the single-copy-stream order is issued |
| OverlapTiming.NothingIsEarlier | bench/bench_overlap.cpp:450-475 | no admissible schedule finishes any operation before the eager one |
| OverlapTiming.MakespanIsCriticalPath | bench/bench_overlap.cpp:416-477 | the earliest finish is attained and is the largest, over i <= j, of copies up to i, kernels i to j and results from j |
| OverlapTiming.SplitMakespanIsSerial | bench/bench_overlap.cpp:345-394 | with one copy stream the earliest finish is the sum of all durations, and it is attained |
| OverlapTiming.DoubleBufferingDominates | docs/DESIGN.md:59-64 | for any durations the double-buffered order ends no later than any schedule of the single-copy-stream order |
| OverlapTiming.EqualJobsMakespan | docs/DESIGN.md:59-64 | for equal jobs: h + k + d + (n - 1) max(h, k, d) against n (h + k + d) |
| Gemm.Address | src/kernels/gemm.cu:26-37 | inside the stated bounds the `int` and `size_t` address arithmetic cannot overflow and gives the element's index, which is in bounds |
| Gemm.FlatInjective | src/kernels/gemm.cu:37-37 | different elements of a batch have different indices |
| Gemm.GridCoversOnce | src/kernels/gemm.cu:97-110 | the rounded-up grid computes each element of C in exactly one launched thread |
| Gemm.ProductIsUnique | src/kernels/gemm.hpp:7-12 | two kernels that deliver the product leave identical buffers |
| Gemm.Output.Store | src/kernels/gemm.cu:37-37 | a store changes one element and is recorded in the history that the contents are replayed from |
| Gemm.ProgressEnds | src/kernels/gemm.cu:13-110 | once every launched thread has made its own stores and no others, in whatever order, each element of C is its accumulator after the given number of steps and was stored exactly once |
| NaiveGemm.NaiveThread | src/kernels/gemm.cu:13-38 | a thread stores the in-order dot product at its element, once, or nothing outside C |
| NaiveGemm.NaiveGemm | src/kernels/gemm.cu:97-102 | in any thread order C becomes the batch of products, and the stores recorded by C hit each element exactly once |
| TiledGemm.PaddedStep | src/kernels/gemm.cu:67-84 | for any arithmetic, a multiply-add on the padded operands is one step of the product, and past the end of k a step on two zeros |
| TiledGemm.LoadTile | src/kernels/gemm.cu:66-77 | in any order of the threads' stores both shared tiles hold the zero-padded operands, from any previous contents |
| TiledGemm.AccumulateTile | src/kernels/gemm.cu:80-84 | for any arithmetic and any interleaving of the threads' multiply-adds every accumulator advances by the 32 padded steps of one tile |
| TiledGemm.AccumulateTiles | src/kernels/gemm.cu:64-87 | the walk along k leaves in each accumulator the in-order dot product followed by the padded steps up to a multiple of 32 |
| TiledGemm.StoreTile | src/kernels/gemm.cu:89-91 | in any order each thread of the block makes its own store once, as C records it, and no other |
| TiledGemm.TiledGemm | src/kernels/gemm.cu:42-110 | in any block order, for all dimensions and any arithmetic, each element of C becomes its accumulator after K rounded up to 32 steps, and the stores recorded by C hit each element exactly once |
| TiledGemm.TiledIsProductIff | src/kernels/gemm.cu:42-110 | for any arithmetic, what the tiled kernel leaves is the naive kernel's product if and only if the padded steps change no element |
| TiledGemm.WholeTilesAreProduct | src/kernels/gemm.cu:64-87 | for any arithmetic the kernels agree when K is a multiple of 32 |
| TiledGemm.SettlingProductIff | src/kernels/gemm.cu:64-87 | for arithmetic where a step on zeros acts at most once, the kernels agree if and only if K is a multiple of 32 or every dot product is left alone by such a step |
| TiledGemm.LawfulIsProduct | src/kernels/gemm.cu:42-110 | for arithmetic where zero steps leave what an accumulation can reach alone, the kernels always agree |
| SignedZeros.UnfusedIsLawful | src/kernels/gemm.cu:33-36 | rounding the product before adding it meets that law, with the sign of zero modelled |
| SignedZeros.FusedProductIff | src/kernels/gemm.cu:80-84 | with a fused multiply-add the kernels agree if and only if K is a multiple of 32 or no dot product is -0 |
| SignedZeros.KernelsDiffer | src/kernels/gemm.cu:80-84 | a product of 2^-100 and -2^-100 for which the naive kernel stores -0 and the tiled one +0 |
| GemmCublas.AnyReductionIsTheSum | src/kernels/gemm_cublas.cu:51-68 | however the library brackets and orders a sum of products, its value is the in-order sum |
| GemmCublas.ExchangedCallIsValid | src/kernels/gemm_cublas.cu:51-70 | the exchanged call meets the routine's demands on leading dimensions and buffer sizes if and only if N and K are positive |
| GemmCublas.ExchangedCallIsTheProduct | src/kernels/gemm_cublas.cu:39-71 | the exchanged column-major call delivers a buffer if and only if N and K are positive and the buffer is the row-major product |
| GemmCublas.AgreesWithNaive | src/kernels/gemm_cublas.hpp:7-11 | over a commutative semiring the cuBLAS route delivers exactly the naive kernel's buffer where N and K are positive, and none otherwise |
| ShapeText.ParseShape | bench/bench_overlap.cpp:124-137 | the loop returns a shape exactly for that shape's texts, and otherwise the first part's error, or the count error |
| ShapeText.ParsedIff | bench/bench_overlap.cpp:124-137 | a text is read as a shape if and only if it is four parts, separated and at most ended by a separator, that start with numbers of the shape's batch, m, n and k in this order |
| ShapeText.NumberRoundTrip | bench/bench_overlap.cpp:139-142 | every `int`, the smallest included, survives printing and parsing |
| ShapeText.ShapeRoundTrip | bench/bench_overlap.cpp:124-142 | parsing the label of any shape gives the shape back, with or without one more separator |
| ShapeText.StoiAcceptsIff | bench/bench_overlap.cpp:129-129 | the number parser accepts exactly the texts that start with spaces, at most one sign and digits whose value fits an `int` |
| ShapeText.StoiIs | bench/bench_overlap.cpp:129-129 | the number parser returns the number a text starts with, or says that it does not fit an `int`, or that there is none |
| ShapeText.AcceptedIff | bench/bench_overlap.cpp:124-137 | a text is accepted if and only if it has three separators, or four ending it, and each part starts with such a number |
| ShapeText.ErrorOf | bench/bench_overlap.cpp:128-136 | a text that is no shape fails with the error of its first part that is no number, or, if all are numbers, with the count error |

## Left out

- Condition variables: a wait is a guarded step. `stop` notifies without holding the mutexes the waits use, so nothing is claimed about lost wake-ups; `Stopping` takes it that a thread whose wait condition holds goes on.
- Concurrent calls of `start` and `stop`, and exceptions that leave a worker thread.
- Memory ordering: atomics are sequentially consistent in the model, the source uses relaxed increments.
- Sequence numbers and counters are unbounded; 64-bit wrap-around after 2^64 submissions is not modelled.
- A negative number of workers or a change of device between two `start` calls: device size and presence are fixed for a run.
- Budgets and device sizes of 2^63 bytes and more in the thread protocol: `Packing.BudgetIsHonouredIff` shows why they are out.
- Ledger.NoSelfOvercommit: assumes the monitor reports what the scheduler left free and jobs have representable footprints; other tenants, fragmentation and the NVML sampler are not part of this model. The other ledger theorems need no such assumption.
- StarvationBound.UncappedBoundIff, StarvationBound.ProductBoundIff: at least one worker; without one nothing packed is ever executed.
- StarvationBound.BoundIsAttained: says nothing of a fixed budget above the largest job the device can serve, nor of a margin within four bytes of 2^63; there `StarvationBound.AnyNumberOfRounds` still gives any number of rounds.
- StarvationBound.LargeJobsAreOutrun: says nothing of jobs that the fixed budget covers but not what other reservations leave of it.
- Starvation is bounded in packing rounds, not in seconds: clocks only advance monotonically, and rounds whose budget does not cover the job do not count.
- Pinned host buffers in the retry loop, whose failure raises an exception; device buffers alone carry the ownership theorems.
- Timestamps, latencies and the retained result matrices of the metrics; the rejection counter.
- Timing-only events of the benchmark and its warm-up repetitions.
- The host's own time in `OverlapTiming`: issuing costs nothing there, and durations are fixed per operation.
- `fill_matrices`: inputs are arbitrary, fixed per job.
- TiledGemm.TiledGemm: blocks run in any order but one at a time; the threads of a block interleave freely between barriers. Blocks share nothing but A and B, which nobody writes, and write different elements.
- NaiveGemm.NaiveGemm: threads run in any order but one at a time, for the same reason.
- BatchSchedulers.BatchScheduler.DispatcherRound: the method runs undisturbed; interleavings with other threads are the business of `Protocol`.
- The 65535 limits on grid dimensions, and the runtime's rejection of an empty grid, which has no element to compute.
- Matrices with more than 2^31 - 1 elements, whose `int` indices overflow: `Gemm.Launchable` states the bound.
- Rounding: the tiled and naive kernels are compared with one multiply-add that is the same in both, fused or not; `SignedZeros` has the signs and the smallest steps of binary32, not its 24-bit significands, infinities or NaNs. The cuBLAS route is over exact arithmetic only. No error bounds.
- The cuBLAS handle and its stream binding; the routine is its specification.
- HTTP server, Python bindings, command line, CSV and summary output, percentiles, plots and deployment: input and output or easy members.
