# OyiEngine's ECS kernel, modelled and proved

The entity-component kernel of OyiEngine makes three linked promises: systems run in parallel with
the result of the serial run, structural change is deferred and deterministic, and storage is packed
but behaves like a plain map. This project models the code behind them in Dafny and proves them,
together with the self-contained cores they rest on.

How the files follow the engine:

- **Schedule derivation** (`Graphs`, `Orders`, `Systems`, `Sorting`, `Automatic`, `Schedules`): the
  class `Schedule` sorts with in-degrees and a reachability matrix updated in place, adds edges for
  automatically ordered resources, and rejects unordered conflicts.
- **Running a phase** (`Traces`, `PhaseRuns`): systems are arbitrary functions that respect their
  read and write sets; chunk tasks are pieces of work of their own.
- **A phase on the job system** (`PhaseJobs`, `PhaseBoards`, `PhaseSafety`, `PhasePrograms`,
  `PhaseTheorems`, `PhaseThreads`,
  `PhaseProgress`): the job graph that RunPhase registers, as a state machine over the steps of the
  calling thread and the workers.
- **The counter protocol** (`JobProtocol`, `JobSafety`, `JobTheorems`, `JobQueues`, `JobRises`, `JoinRuns`, `JobLives`) at the
  grain of single atomic operations and critical sections, the **builders** over it (`JobBuilders`),
  and what their registrations mean for runs of the protocol (`JobHistories`).
- **Storage** (`Entities`, `Archetypes`, `WorldStates`, `WorldOperations`, `WorldTheorems`,
  `WorldRuns`, `Worlds`): generational handles, swap-remove chunks and archetype moves, refined to a map from
  handle to values, enable bits and mark. **Deferred commands** (`CommandBuffers`, `Replays`,
  `ReplayTheorems`, `ReplayTargets`).
- **World files** (`ChunkLayouts`, `ChunkImages`, `ChunkWrites`, `WorldFiles`, `WorldRoundTrips`,
  `WorldChecks`, `WorldStores`): the byte map of a chunk, Save and Load.
- **Messages** (`Messages`), **the object lifecycle** (`ObjectLayers`, `ObjectFactories`, `Lifecycles`), **access
  checks** (`AccessLogs`, `AccessChecks`), **transform propagation** (`Hierarchies`), **replication
  deltas** (`Deltas`, over the number formats of `Floats`) and **frame memory** (`FrameMemory`).
- `Results`, `Lists`, `Generations`, `Bytes` and `Alignments` are shared vocabulary.

Where the source updates objects in place there is a class whose methods are proved against
functions on its contents; the theorems are about those functions.

What the proofs turned up in the code:

- A counter that is raised between its fall to zero and the flush lets its waiters through early: the
  value drops at JobSystem.cpp:217, the flush at 229-235 does not look at it again, and the join
  counters of Schedule.cpp:750-760 do rise. `JobRises.EarlyIsTheWindow` is the exact condition,
  `JoinRuns.PhaseJoinFlushedEarly` a run of a phase that meets it. Everything else about the protocol
  holds in every run, except that a thread can miss its wakeup on a counter that rises again
  (`JobRises.RisingCounterLosesWakeup`, exactly `JobRises.UncoveredIsTheLoss`). The order that builders
  and ParallelFor promise holds for every job none of whose counters was raised so early
  (`JobHistories.StartedAfterOwn`); the phase theorems take drop and flush as one step.
- From chunk index 2^23 on every chunk shares an access-log key with a lower one
  (`AccessLogs.KeysCollide`, exactly `AccessLogs.KeysAgree`).
- Chunk layouts are placed in 32-bit arithmetic; `ChunkLayouts.LayoutExact` says exactly when that is
  harmless and `ChunkLayouts.WrapOverlaps` gives a set for which it is not.
- ParallelFor's last chunk is lost when the rounded-up element count does not fit 32 bits
  (`JobBuilders.RangesSplit` gives the exact condition).
- The depth cap of the transform hierarchy makes the order of deeper chains depend on entity indices
  (`Hierarchies.ParentFirst`).
- Messages between systems of one phase are not delivered (`Messages.SamePhaseIsLost`).
- Sort keys are those of the moment of recording: a key set afterwards orders the next recordings.

## Model

| member | source | states |
|---|---|---|
| Systems.ConflictsSymmetric | engine/oyi_ecs/src/oyi_ecs/Schedule.cpp:48-52 | whether two systems conflict does not depend on which is named first |
| Systems.AutomaticIsMeeting | engine/oyi_ecs/src/oyi_ecs/Schedule.cpp:54-61 | what the masks compare is whether one system writes an automatic resource that the other writes or reads (both directions) |
| Graphs.Graph.ReachesInPhase | engine/oyi_ecs/src/oyi_ecs/Schedule.cpp:192-206 | a chain of ordering edges stays within one phase and touches only systems included in this kind of world |
| Graphs.Graph.AddEdgeReaches | engine/oyi_ecs/src/oyi_ecs/Schedule.cpp:318-335 | the matrix update for one added edge: exactly the pairs that were ordered before, and those that go through the new edge, are ordered after it (both directions) |
| Orders.KahnIsLinear | engine/oyi_ecs/src/oyi_ecs/Schedule.cpp:208-283 | in the derived order every edge between placed systems points forward |
| Orders.KahnUnique | engine/oyi_ecs/src/oyi_ecs/Schedule.cpp:208-283 | the edges determine the order of a phase: two orders that both always take the lowest ready system are the same |
| Orders.LexLeast | engine/oyi_ecs/src/oyi_ecs/Schedule.cpp:228-262 | the registration-order tie-break: no linear order of the phase is lexicographically smaller than the derived one |
| Orders.StuckIsCyclic | engine/oyi_ecs/src/oyi_ecs/Schedule.cpp:264-283 | running out of ready systems before all are placed means there is a cycle |
| Orders.ForwardKeepsKahn | engine/oyi_ecs/src/oyi_ecs/Schedule.cpp:298-335 | sorting again after forward edges were added gives the same order |
| Orders.LinearAcyclic | engine/oyi_ecs/src/oyi_ecs/Schedule.cpp:264-283 | if every phase has a linear order there is no cycle |
| Sorting.TakeLowest | engine/oyi_ecs/src/oyi_ecs/Schedule.cpp:236-246 | the ready list gives up its lowest registration index and keeps exactly the others |
| Sorting.Relax | engine/oyi_ecs/src/oyi_ecs/Schedule.cpp:247-262 | striking a placed system off one successor lowers its in-degree by every entry for it, unions the placed system's reach column into the successor's, and makes it ready exactly when the last entry is struck |
| Sorting.SortPhase | engine/oyi_ecs/src/oyi_ecs/Schedule.cpp:221-275 | one phase of the sort: always the lowest ready system next, until none is ready; the reach columns of the placed systems are complete and the other phases are untouched |
| Schedules.Schedule.AddSystem | engine/oyi_ecs/src/oyi_ecs/Schedule.cpp:149-166 | a system is refused after Build, without a name or function, or in an unknown phase; otherwise it gets the next id and no predecessors; a refusal changes nothing |
| Schedules.Schedule.AddOrder | engine/oyi_ecs/src/oyi_ecs/Schedule.cpp:192-206 | an edge is refused after Build, for unknown or equal systems and across phases; otherwise exactly that edge is added |
| Schedules.Schedule.Sort | engine/oyi_ecs/src/oyi_ecs/Schedule.cpp:208-283 | Sort fails if and only if the included edges have a cycle; on success the order of every phase is the derived one and the matrix is exactly the transitive closure |
| Schedules.Schedule.OrderAutomatic | engine/oyi_ecs/src/oyi_ecs/Schedule.cpp:298-335 | two included systems of a phase of which one writes an automatic resource that the other writes or reads are ordered afterwards; every edge the graph gained joins two such systems, forward in the order; and the matrix is the closure of the grown graph |
| Schedules.Schedule.CheckConflicts | engine/oyi_ecs/src/oyi_ecs/Schedule.cpp:336-356 | accepts exactly when every conflicting included pair of a phase is ordered; otherwise the pair it keeps is conflicting and unordered |
| Automatic.GrownKeepsOrders | engine/oyi_ecs/src/oyi_ecs/Schedule.cpp:298-335 | the automatic edges never create a cycle and leave the order of every phase as it was |
| Automatic.KahnOrdersUnique | engine/oyi_ecs/src/oyi_ecs/Schedule.cpp:298-335 | the second sort therefore returns exactly the orders of the first |
| Automatic.GrownClosure | engine/oyi_ecs/src/oyi_ecs/Schedule.cpp:298-335 | skipping pairs that are already ordered loses nothing: the chain of added edges orders exactly what an edge for every automatic conflict would |
| Schedules.BuildableByChain | engine/oyi_ecs/src/oyi_ecs/Schedule.cpp:298-356 | accepting by the chain of added edges is the same as accepting by the full set of automatic edges |
| Schedules.OrderedAndGained | engine/oyi_ecs/src/oyi_ecs/Schedule.cpp:298-335 | the automatic edges order every included pair of a phase that meets on an automatic resource, and only such pairs gain an edge |
| Schedules.CoveredIsBuildable | engine/oyi_ecs/src/oyi_ecs/Schedule.cpp:298-356 | acyclic explicit edges are accepted when every conflicting pair is ordered by them or meets on an automatic resource |
| Schedules.OnlyAutomaticCovered | engine/oyi_ecs/src/oyi_ecs/Schedule.cpp:298-356 | which holds when every written resource is automatic and no two systems of a phase clash on a component type |
| Schedules.Schedule.Build | engine/oyi_ecs/src/oyi_ecs/Schedule.cpp:286-359 | Build succeeds if and only if it has not succeeded before, the edges are acyclic and every conflicting included pair of a phase is ordered by explicit plus automatic edges; so it does when every such pair is ordered explicitly or meets on an automatic resource, and fails exactly on a cycle when nothing else can clash; what it leaves behind is the derived order, in which each phase lists its included systems once, the grown graph and its closure; a failure leaves no order |
| Traces.Confluence | engine/oyi_ecs/src/oyi_ecs/Schedule.cpp:689-799 | any interleaving of arbitrary step functions that keeps clashing ones in rank order ends in the state of the ranked order |
| PhaseRuns.PlanLaidOut | engine/oyi_ecs/src/oyi_ecs/Schedule.cpp:421-488 | the serial order of a phase has every system's body, a task for each chunk it may hand out and, if there are any, a remainder, and nothing else; they lie system by system in phase order, the body first, the tasks in chunk order, the remainder last |
| PhaseRuns.WorkReturns | engine/oyi_ecs/src/oyi_ecs/Schedule.cpp:421-488 | any work within its declarations, with a flag in its own state that ends it, is of the kind the single-thread invariant is about |
| PhaseRuns.SwappedApart | engine/oyi_ecs/src/oyi_ecs/Schedule.cpp:336-356 | after a successful Build two pieces of work that ran in the other order than in the serial run touch nothing in common |
| PhaseRuns.SingleThreadInvariant | engine/oyi_ecs/src/oyi_ecs/Schedule.cpp:689-703 | the single-thread invariant: for arbitrary systems that read and write only what they declare, chunk tasks included and handed out as the system decides from what it reads, every interleaving in which nothing starts before what it waits for has finished leaves exactly the store of the serial run |
| PhaseTheorems.ConfigValid | engine/oyi_ecs/src/oyi_ecs/Schedule.cpp:705-799 | the phase of a built schedule whose main-thread systems wait only for included ones is a valid configuration of the job graph: its order lists every predecessor in the phase earlier, and every predecessor of a main-thread system |
| PhasePrograms.ProgramOrderly | engine/oyi_ecs/src/oyi_ecs/Schedule.cpp:713-781 | the program of registrations: each job is registered after everything it waits for, so no unregistered counter is read as zero |
| PhaseBoards.AddKeeps | engine/oyi_job/src/oyi_job/JobSystem.cpp:274-307 | registering a job whose prerequisites are registered keeps the books of every counter and what each stage promises |
| PhaseBoards.DropKeeps | engine/oyi_job/src/oyi_job/JobSystem.cpp:215-250 | completing a job counts its counter down, and makes ready exactly the jobs that wait for that counter if it reaches zero |
| PhaseBoards.DoneMeansFinished | engine/oyi_ecs/src/oyi_ecs/Schedule.cpp:738-781 | a system's completion counter at zero means the system has returned and all its chunk tasks are complete |
| PhaseBoards.FinishedMeansDone | engine/oyi_ecs/src/oyi_ecs/Schedule.cpp:782-799 | and the other way round, so the main thread's wait for a predecessor ends |
| PhaseSafety.StepKeeps | engine/oyi_ecs/src/oyi_ecs/Schedule.cpp:705-799 | every step of the calling thread and of the workers keeps the invariant of the phase |
| PhasePrograms.ReachableInv | engine/oyi_ecs/src/oyi_ecs/Schedule.cpp:705-799 | the invariant holds in every state the phase can reach |
| PhaseTheorems.NoEarlyStart | engine/oyi_ecs/src/oyi_ecs/Schedule.cpp:738-799 | no system's function is entered, by a worker or the main thread, before each predecessor has returned and all the predecessor's chunk tasks are complete |
| PhaseTheorems.AncestorsFinished | engine/oyi_ecs/src/oyi_ecs/Schedule.cpp:738-799 | nor, in any reachable state, before anything it waits for indirectly is finished |
| PhaseThreads.RightThread | engine/oyi_ecs/src/oyi_ecs/Schedule.cpp:726-741 | in every reachable state of the phase a main-thread system has no job of its own, and is among the calling thread's systems until that has run it; any other system is never among them and has no hold for the calling thread |
| PhaseThreads.EnteredByItsThread | engine/oyi_ecs/src/oyi_ecs/Schedule.cpp:782-793 | so a main-thread system is begun by the calling thread alone, and only after every main-thread system before it in the phase order has run; any other is begun by a worker taking its job |
| PhaseTheorems.NoDeadlock | engine/oyi_ecs/src/oyi_ecs/Schedule.cpp:713-799 | until the main thread has seen the phase counter at zero, some step other than work inside a system is enabled |
| PhaseProgress.StepAdvances | engine/oyi_ecs/src/oyi_ecs/Schedule.cpp:713-799 | in every reachable state every step outside the systems lowers an upper bound on the steps that are left, and work inside a system leaves it alone |
| PhaseProgress.RunsEnd | engine/oyi_ecs/src/oyi_ecs/Schedule.cpp:713-799 | so every run has only so many steps outside the systems, whatever the interleaving: with NoDeadlock a phase ends if its systems do |
| PhaseTheorems.ClosedIsFinished | engine/oyi_ecs/src/oyi_ecs/Schedule.cpp:795-799 | when the main thread leaves the phase, every system and every chunk task is finished |
| PhaseTheorems.RunPhaseMatchesSerial | engine/oyi_ecs/src/oyi_ecs/Schedule.cpp:705-799 | RunPhase equals RunPhaseSerial: over every run of the job graph of a phase that Build accepted, the store at the end is the serial one (both directions) |
| JobSafety.RecycleSafe | engine/oyi_job/src/oyi_job/JobSystem.cpp:195-207 | a counter slot goes back to the pool only with value zero, an empty wait list and no job, client or sleeping thread left that refers to it |
| JobSafety.StepKeeps | engine/oyi_job/src/oyi_job/JobSystem.cpp:160-437 | every atomic step of every thread keeps the books of the protocol, whatever counters do |
| JobSafety.RunKeeps | engine/oyi_job/src/oyi_job/JobSystem.cpp:160-437 | and so does every run |
| JobTheorems.LinkedUntilZero | engine/oyi_job/src/oyi_job/JobSystem.cpp:225-250 | in every run a job linked on a counter leaves its wait list only in the flush of that counter, handed over once, and the counter is zero then unless it was raised while that flush was on its way |
| JobTheorems.HandedOnce | engine/oyi_job/src/oyi_job/JobSystem.cpp:274-374 | in every run a job is handed to dispatch exactly once between registration and completion |
| JobTheorems.RecordsConserved | engine/oyi_job/src/oyi_job/JobSystem.cpp:254-272 | in every run each job record is in exactly one of the free list, one wait list, one queue or one thread's hands, and free plus in-flight records are all records |
| JobTheorems.AssertionsHold | engine/oyi_job/src/oyi_job/JobSystem.cpp:195-223 | in every run no decrement goes below zero, no reference is dropped twice, and the counter a completing job counts down is still the one it registered with |
| JobTheorems.NoStrandedWaiter | engine/oyi_job/src/oyi_job/JobSystem.cpp:225-250 | in every run, while jobs wait on a counter, completions are pending or a flush is on its way, and the slot stays valid |
| JobTheorems.WaitEndsAtZero | engine/oyi_job/src/oyi_job/JobSystem.cpp:405-437 | a thread gets out of WaitForCounter only while the counter is at zero |
| JobTheorems.NoLostWakeup | engine/oyi_job/src/oyi_job/JobSystem.cpp:405-437 | a thread asleep on a counter that is zero still has a notify coming, if that counter has not risen again after falling to zero |
| JobTheorems.QuiescentIsDone | engine/oyi_job/src/oyi_job/JobSystem.cpp:309-374 | in every run, when no thread is busy, no client holds a counter and the waits the clients built have no cycle, every job has run and no counter is pending |
| JobQueues.FirstInFirstOut | engine/oyi_job/src/oyi_job/JobSystem.cpp:309-346 | over every run what waited in the queue of a priority, followed by all that entered it, is all that workers took from it, in that order, followed by what waits there now |
| JobQueues.MostUrgentFirst | engine/oyi_job/src/oyi_job/JobSystem.cpp:332-350 | a job that a worker starts has a function and the priority of its queue, and no job that waits in a queue is more urgent |
| JobRises.EarlyIsTheWindow | engine/oyi_job/src/oyi_job/JobSystem.cpp:215-235 | the exact condition: the first moment at which a counter's waiters can be collected above zero is the one after it is raised between its fall to zero and their collection (both directions) |
| JobRises.RisingJoinFlushedEarly | engine/oyi_ecs/src/oyi_ecs/Schedule.cpp:750-770 | from every state in that window in which another predecessor is still pending, registering that predecessor and the system's job there leads to the system's job being dispatched while the join still counts one |
| JobRises.AssuredIsWoken | engine/oyi_job/src/oyi_job/JobSystem.cpp:405-437 | a thread asleep at zero has a notify coming while its wakeup is assured, and it is assured while its counter has not risen again |
| JobRises.UncoveredIsTheLoss | engine/oyi_job/src/oyi_job/JobSystem.cpp:413-437 | the exact condition: in every reachable state the steps at which a thread's wakeup stops being assured are going to sleep after its flag was collected and notified, and being notified with the counter up again and no newer flag |
| JobRises.UncoveredSleepsOn | engine/oyi_job/src/oyi_job/JobSystem.cpp:215-250 | a thread whose wakeup is not assured sleeps on when its counter falls before another thread raises the flag |
| JobRises.RisingCounterLosesWakeup | engine/oyi_job/src/oyi_job/JobSystem.cpp:413-437 | counters that rise again do lead there: from every state in which a thread is about to sleep on a counter a client holds at one there is a run that leaves it asleep at zero with no notify to come |
| JobRises.AboutToSleepReached | engine/oyi_job/src/oyi_job/JobSystem.cpp:405-433 | such a state is reached by one client and one waiting thread |
| JobLives.CounterComesBack | engine/oyi_job/src/oyi_job/JobSystem.cpp:160-437 | a counter's whole life is a run: a client creates it, a job counts for it and runs, the client's wait ends, and record and slot go back to their pools, the slot with its next generation |
| JoinRuns.WindowReached | engine/oyi_ecs/src/oyi_ecs/Schedule.cpp:713-760 | RunPhase reaches the window: the main thread has registered two systems and the first splice of the third, a worker then runs the first system's job to its end and stands between the join's drop and its flush |
| JoinRuns.PhaseJoinFlushedEarly | engine/oyi_ecs/src/oyi_ecs/Schedule.cpp:713-770 | the phase that follows: the main thread registers the second splice and the third system's job, the worker flushes, and the third system is ready while the second has not finished |
| JobHistories.StepKeeps | engine/oyi_job/src/oyi_job/JobSystem.cpp:160-437 | every step of every thread keeps the record: a job handed to dispatch finds completed all it waited for, directly or through other jobs, unless one of the counters above it was raised while its flush was on its way |
| JobHistories.EarlyIsRaised | engine/oyi_job/src/oyi_job/JobSystem.cpp:215-235 | a counter is on record as raised early exactly from a step on that raises its value while the collection of its waiters is on its way |
| JobHistories.BehindIsFinished | engine/oyi_job/src/oyi_job/JobSystem.cpp:225-307 | in every run, over slot reuse and any interleaving, a job that has been handed to dispatch finds every job of its StartsAfter set completed, if none of the counters it waits for, directly or through other jobs, was raised early; what other counters do does not matter |
| JobHistories.ZeroIsFinished | engine/oyi_job/src/oyi_job/JobSystem.cpp:187-189 | a counter seen at zero has behind it completed every job that StartsAfter counts for it, if none of the counters those jobs waited for was raised early |
| JobHistories.WaitIsForAll | engine/oyi_job/src/oyi_job/JobSystem.cpp:405-437 | when a wait on a counter is over, every job registered behind it by then has completed, under that condition |
| JobHistories.StartedAfterOwn | engine/oyi_job/src/oyi_job/JobBuilder.cpp:88-150 | so what a client's own registrations make a job start after is completed when the job is handed to dispatch, under the same condition, whatever other threads register in between |
| JobHistories.ZeroCoversOwn | engine/oyi_job/src/oyi_job/JobBuilder.cpp:152-168 | and a counter at zero stands for all its client put behind it, under that condition |
| JobBuilders.BehindNext | engine/oyi_job/src/oyi_job/JobSystem.cpp:274-307 | what a counter stands for, which JobHistories proves of runs, after one more job was registered: the job and all it waits for if it accumulates there, nothing more otherwise |
| JobBuilders.JobBuilder.DispatchJob | engine/oyi_job/src/oyi_job/JobBuilder.cpp:88-115 | a job starts after everything the builder makes later jobs wait for; a full fence makes the next jobs wait for it, without one what they wait for does not grow |
| JobBuilders.JobBuilder.DispatchWait | engine/oyi_job/src/oyi_job/JobBuilder.cpp:117-150 | every later job waits for the counter and for all that was dispatched before |
| JobBuilders.JobBuilder.AdvanceChain | engine/oyi_job/src/oyi_job/JobBuilder.cpp:70-86 | a step whose completion covers its jobs joins the chain: the builder's completion covers it, and with a full fence later jobs wait for it |
| JobBuilders.JobBuilder.ExtractWaitCounter | engine/oyi_job/src/oyi_job/JobBuilder.cpp:152-168 | the counter stands for everything dispatched so far |
| JobBuilders.JobBuilder.Close | engine/oyi_job/src/oyi_job/JobBuilder.cpp:25-36 | the destructor's splice: the parent counter stands for everything dispatched |
| JobBuilders.ParallelFor | engine/oyi_job/src/oyi_job/ParallelFor.cpp:46-117 | every chunk job starts after what the builder waits for, the epilogue after every chunk, and the builder takes the whole step over |
| JobBuilders.RangesSplit | engine/oyi_job/src/oyi_job/ParallelFor.cpp:69-75 | the chunk ranges split the elements, each element i to the chunk i / chunkSize and no other, if and only if the chunk count times the chunk size is below 2^32; the last chunk begins before the last element |
| JobBuilders.LastIsEmpty | engine/oyi_job/src/oyi_job/ParallelFor.cpp:70-71 | otherwise the end of the last chunk wraps below its begin and the last element is worked on by nobody |
| Entities.Table.CreatedValid | engine/oyi_ecs/src/oyi_ecs/EntityRegistry.cpp:17-33 | a new handle is alive and was not before, no other changes, and the free list stays exactly the dead indices |
| Entities.Table.DestroyedValid | engine/oyi_ecs/src/oyi_ecs/EntityRegistry.cpp:35-44 | exactly the destroyed handle dies, and the free list stays exactly the dead indices without repeats |
| Entities.EntityRegistry.Create | engine/oyi_ecs/src/oyi_ecs/EntityRegistry.cpp:17-33 | Create hands out the most recently freed index with its generation, or a new one with generation 1 |
| Entities.EntityRegistry.Destroy | engine/oyi_ecs/src/oyi_ecs/EntityRegistry.cpp:35-44 | Destroy bumps the generation, never to zero, and frees the index |
| Entities.EntityRegistry.Restore | engine/oyi_ecs/src/oyi_ecs/EntityRegistry.cpp:73-89 | the restored table has the given generations and liveness, is in order, and hands out dead indices lowest first |
| Entities.DestroyedHandleResolves | engine/oyi_ecs/src/oyi_ecs/EntityRegistry.cpp:35-52 | over whole runs a destroyed handle resolves again if and only if its index is alive after a multiple of 0xFFFFFFFF destructions: never short of generation wrap |
| Archetypes.Archetype.Allocate | engine/oyi_ecs/src/oyi_ecs/Archetype.cpp:172-185 | a row is appended to the last chunk, or to a new one when it is full; without memory for a needed chunk nothing changes |
| Archetypes.Archetype.Remove | engine/oyi_ecs/src/oyi_ecs/Archetype.cpp:187-209 | the last row of the last chunk fills the hole, its entity is returned, and an emptied chunk is released |
| Archetypes.Storage.WithoutRows | engine/oyi_ecs/src/oyi_ecs/Archetype.cpp:187-209 | after a removal exactly the other rows are there, the last one in the hole, and the chunks are still packed |
| Archetypes.Storage.AppendedRows | engine/oyi_ecs/src/oyi_ecs/Archetype.cpp:172-185 | after an append exactly one place is new and the chunks are still packed |
| WorldStates.InsertedFits | engine/oyi_ecs/src/oyi_ecs/World.cpp:140-154 | placing an entity's row keeps locations and rows mutually inverse and leaves every other row where it was |
| WorldStates.FilledFits | engine/oyi_ecs/src/oyi_ecs/World.cpp:156-161 | filling a hole by the last row keeps locations and rows mutually inverse and every other entity's row |
| WorldTheorems.CreateRefines | engine/oyi_ecs/src/oyi_ecs/World.cpp:98-154 | creation adds exactly one new handle at its defaults to the map; it succeeds whenever there is memory and a chunk layout, fails with InvalidArgument exactly without a layout and with OutOfMemory only for want of memory; a failed one leaves the map alone |
| WorldTheorems.DestroyRefines | engine/oyi_ecs/src/oyi_ecs/World.cpp:163-172 | destruction removes exactly that handle; NotFound exactly for a handle that is not in the map |
| WorldTheorems.MoveRefines | engine/oyi_ecs/src/oyi_ecs/World.cpp:188-203 | a move to another component set keeps shared values and bits, brings defaults for new types and drops the rest, for that entity only; success and failure are decided as for creation, and a failure leaves the map alone |
| WorldTheorems.AddRefines | engine/oyi_ecs/src/oyi_ecs/World.cpp:205-220 | AddComponent adds exactly that type at its default; NotFound, InvalidState, AlreadyExists and InvalidArgument exactly when the map and the layouts say so, OutOfMemory only for want of memory, success whenever none of these applies |
| WorldTheorems.RemoveRefines | engine/oyi_ecs/src/oyi_ecs/World.cpp:222-234 | RemoveComponent takes away exactly that type; NotFound and InvalidState exactly when the map says so, otherwise success and failure are decided as for creation |
| WorldTheorems.MarkRefines | engine/oyi_ecs/src/oyi_ecs/World.cpp:129-138 | SetMark switches between unmarked and locked only, with the exact conditions of every error |
| WorldTheorems.SetRefines | engine/oyi_ecs/src/oyi_ecs/World.cpp:250-263 | overwriting a component value changes that value of that entity and nothing else |
| WorldTheorems.EnableRefines | engine/oyi_ecs/src/oyi_ecs/World.cpp:275-287 | an enable bit is set for that entity and type and nothing else; a dead entity or missing type is ignored |
| WorldTheorems.CloneRefines | engine/oyi_ecs/src/oyi_ecs/Serialization.cpp:535-554 | a clone has every value and enable bit of its source; an instance of a prototype is locked, any other clone unmarked; NotFound exactly for a dead source, otherwise success and failure are decided as for creation |
| WorldRuns.RunRefines | engine/oyi_ecs/src/oyi_ecs/World.cpp:63-287 | every sequence of operations keeps the storage invariant, and the map at the end is the fold of the same operations over the map, with the same memory |
| WorldRuns.StorageInOrder | engine/oyi_ecs/src/oyi_ecs/World.cpp:63-287 | after any sequence of operations on an empty world: rows and locations are mutually inverse, all chunks but the last of an archetype are full and none is empty, the free list is exactly the dead indices without repeats, and prototypes live in prototype archetypes |
| WorldRuns.DestroyedStaysOut | engine/oyi_ecs/src/oyi_ecs/World.cpp:163-172 | over whole runs of a world a destroyed handle is in the map again if and only if its index is alive after a multiple of 0xFFFFFFFF destructions, so never within fewer operations |
| Worlds.World.GetOrCreateArchetype | engine/oyi_ecs/src/oyi_ecs/World.cpp:63-83 | the method on the world's archetype objects computes the operation that the refinement theorems are about: its whole new state and its result |
| Worlds.World.CreateEntity | engine/oyi_ecs/src/oyi_ecs/World.cpp:98-100 | the method on the world's archetype objects computes the operation that the refinement theorems are about: its whole new state and its result |
| Worlds.World.CreatePrototype | engine/oyi_ecs/src/oyi_ecs/World.cpp:102-108 | the method on the world's archetype objects computes the operation that the refinement theorems are about: its whole new state and its result |
| Worlds.World.DestroyEntity | engine/oyi_ecs/src/oyi_ecs/World.cpp:163-172 | the method on the world's archetype objects computes the operation that the refinement theorems are about: its whole new state and its result |
| Worlds.World.MoveEntity | engine/oyi_ecs/src/oyi_ecs/World.cpp:188-203 | the method on the world's archetype objects computes the operation that the refinement theorems are about: its whole new state and its result |
| Worlds.World.AddComponent | engine/oyi_ecs/src/oyi_ecs/World.cpp:205-220 | the method on the world's archetype objects computes the operation that the refinement theorems are about: its whole new state and its result |
| Worlds.World.RemoveComponent | engine/oyi_ecs/src/oyi_ecs/World.cpp:222-234 | the method on the world's archetype objects computes the operation that the refinement theorems are about: its whole new state and its result |
| Worlds.World.SetMark | engine/oyi_ecs/src/oyi_ecs/World.cpp:129-138 | the method on the world's archetype objects computes the operation that the refinement theorems are about: its whole new state and its result |
| Worlds.World.CloneEntity | engine/oyi_ecs/src/oyi_ecs/Serialization.cpp:535-554 | the method computes the clone operation that CloneRefines is about |
| CommandBuffers.MeaningStays | engine/oyi_ecs/src/oyi_ecs/CommandBuffer.cpp:17-55 | later recordings do not change what an earlier command means, though masks and bytes lie in shared buffers |
| ReplayTargets.RecordedSlots | engine/oyi_ecs/src/oyi_ecs/CommandBuffer.cpp:41-55 | each creation of a buffer has a pending slot of its own |
| CommandBuffers.CommandBuffer.CreateEntity | engine/oyi_ecs/src/oyi_ecs/CommandBuffer.cpp:41-47 | a creation is recorded last, under the sort key of the moment, with the next pending slot |
| CommandBuffers.CommandBuffer.SetComponent | engine/oyi_ecs/src/oyi_ecs/CommandBuffer.cpp:77-86 | the bytes are copied now; the recording means exactly this value for this target, last |
| Replays.ReplayOrderIs | engine/oyi_ecs/src/oyi_ecs/World.cpp:317-352 | every recorded command occurs exactly once, ordered by sort key, then buffer, then recording |
| ReplayTheorems.CommandRefines | engine/oyi_ecs/src/oyi_ecs/World.cpp:353-430 | every command does to the entity map what it says, keeps the storage in order whatever its target, and counts once as applied or skipped; a creation or a new composition is refused always without a chunk layout, never with a layout and memory |
| ReplayTheorems.ReplayRefines | engine/oyi_ecs/src/oyi_ecs/World.cpp:317-435 | replay is the fold of the abstract commands over the entity map in replay order, with the same memory for each, for any list of commands; applied plus skipped is the number of commands |
| ReplayTargets.ActsOnItsTarget | engine/oyi_ecs/src/oyi_ecs/World.cpp:353-430 | a command acts on the entity it names, or on the one whose handle lies in the pending slot it names: it is skipped and changes nothing, or makes its change there, and every other entity stays as it was |
| ReplayTheorems.PendingIsOwn | engine/oyi_ecs/src/oyi_ecs/World.cpp:330-352 | if a pending slot changes in a replay, some command of its own buffer that creates the slot's entity took the map of the fold from one without to one with the entity whose handle the slot holds at the end |
| ReplayTargets.PendingReaches | engine/oyi_ecs/src/oyi_ecs/World.cpp:330-354 | over whole replays, once a command has made the entity of a pending slot, every later command of that buffer on the slot acts on that entity and on no other |
| ReplayTargets.UnfilledIsSkipped | engine/oyi_ecs/src/oyi_ecs/World.cpp:330-357 | a command on a pending slot that holds no entity yet is skipped and changes nothing |
| Worlds.World.ReplayCommands | engine/oyi_ecs/src/oyi_ecs/World.cpp:317-435 | the loop over the sorted references computes that replay and leaves every buffer empty |
| AccessLogs.KeyIsUnique | engine/oyi_ecs/src/oyi_ecs/AccessLog.cpp:29-36 | below chunk index 2^23 a key names one archetype, one chunk and one type |
| AccessLogs.KeysCollide | engine/oyi_ecs/src/oyi_ecs/AccessLog.cpp:29-36 | every chunk index from 2^23 on shares its key with another chunk below that index |
| AccessLogs.KeysAgree | engine/oyi_ecs/src/oyi_ecs/AccessLog.cpp:29-36 | exactly when two keys are equal: same type, same low 23 chunk bits, same archetype bits with the rest of the chunk laid over them |
| AccessLogs.SomeEmpty | engine/oyi_ecs/src/oyi_ecs/AccessLog.cpp:38-50 | some slot of the index is always empty, so probing ends |
| AccessLogs.Probe | engine/oyi_ecs/src/oyi_ecs/AccessLog.cpp:38-50 | probing ends at the entry with the key, or at an empty slot, and then no entry has the key |
| AccessLogs.AccessLog.Grow | engine/oyi_ecs/src/oyi_ecs/AccessLog.cpp:52-59 | growing doubles the index and every entry can still be found |
| AccessLogs.AccessLog.Record | engine/oyi_ecs/src/oyi_ecs/AccessLog.cpp:61-76 | the log is a map from key to the strongest access: recording changes that key alone, and a read never weakens a write |
| AccessLogs.AccessLog.Find | engine/oyi_ecs/src/oyi_ecs/AccessLog.cpp:85-91 | an entry is found if and only if the key is in the map |
| AccessLogs.AccessLog.FindConflict | engine/oyi_ecs/src/oyi_ecs/AccessLog.cpp:93-103 | a conflict is found if and only if the two logs share a key on which at least one wrote |
| AccessChecks.OverlapIsConflict | engine/oyi_ecs/src/oyi_ecs/Schedule.cpp:640-650 | logs within their declarations overlap on a write only if the declarations conflict |
| AccessChecks.ConflictCanOverlap | engine/oyi_ecs/src/oyi_ecs/Schedule.cpp:635-650 | and whenever one of two systems writes a type that the other writes or reads, logs within their declarations can overlap on it; what a system declares to write it may read |
| AccessChecks.CheckUnordered | engine/oyi_ecs/src/oyi_ecs/Schedule.cpp:655-681 | exactly the unordered pairs whose logs overlap on a write are reported |
| AccessChecks.DeclaredNeverReported | engine/oyi_ecs/src/oyi_ecs/Schedule.cpp:655-681 | after a successful Build with every logged access declared no unordered pair is reported |
| Hierarchies.TransformHierarchy.Rebuild | engine/oyi_transform/src/oyi_transform/TransformSystems.cpp:153-176 | the order holds exactly the collected entities, sorted by the length of their parent chain, capped, and then by index |
| Hierarchies.ParentFirst | engine/oyi_transform/src/oyi_transform/TransformSystems.cpp:153-176 | a parent precedes its child if and only if the child's chain ends within the cap or the parent's index is lower |
| Hierarchies.OnePass | engine/oyi_transform/src/oyi_transform/TransformSystems.cpp:178-196 | one pass gives every entity whose own chain is acyclic and within the cap the recursively defined matrix, its parent's final matrix times its own, whatever the other chains are |
| Hierarchies.TransformHierarchy.Sweep | engine/oyi_transform/src/oyi_transform/TransformSystems.cpp:178-196 | the loop computes that pass and touches nothing but world matrices |
| Floats.StoredCountsSame | engine/oyi_net/src/oyi_net/Replication.cpp:44-73 | a finite number and the stored grid point of its step count encode to the same count, for every step, halves included |
| Floats.FormatFloatLike | engine/oyi_net/src/oyi_net/Replication.cpp:47-73 | Float32 and Float64 meet what that needs: a codec that reads such a format and writes a nearest finite number leaves gaps of which the lower number is a whole multiple |
| Floats.CodecOfFormat | engine/oyi_net/src/oyi_net/Replication.cpp:47-73 | and such codecs exist |
| Floats.UnitCodes | engine/oyi_net/src/oyi_net/Replication.cpp:47-73 | in both formats the number one and its negative have the codes of IEEE 754 |
| Floats.RangeIsFinite | engine/oyi_net/src/oyi_net/Replication.cpp:59-73 | the range that a stored number must keep to reaches from the lowest to the highest finite number |
| Deltas.WithinHalfStep | engine/oyi_net/src/oyi_net/Replication.cpp:37-57 | what a quantized value decodes to is a grid point within half a step of it if and only if its step count fits 32 bits |
| Deltas.ElementNear | engine/oyi_net/src/oyi_net/Replication.cpp:37-78 | the number that arrives, rounded to its type, is within a step of the one sent if and only if the step count fits 32 bits |
| Deltas.FloatsQualify | engine/oyi_net/src/oyi_net/Replication.cpp:24-26 | quantized Float32 and Float64 fields meet the hypotheses of the delta theorems |
| Deltas.ElementRoundTrip | engine/oyi_net/src/oyi_net/Replication.cpp:37-78 | an element the wire can carry (finite, a count that fits 32 bits, a grid point in range) encodes to the same bytes again after it was decoded |
| Deltas.EncodedEach | engine/oyi_net/src/oyi_net/Replication.cpp:37-57 | element k of a field is encoded to element k of the wire |
| Deltas.PlainField | engine/oyi_net/src/oyi_net/Replication.cpp:37-46 | a field that is no float or has no step travels as it is |
| Deltas.AdjacentFields | engine/oyi_net/src/oyi_net/Replication.cpp:84-118 | quantized floats one beside the other that fill their component are a schema the delta theorems are about |
| Deltas.OtherFieldStays | engine/oyi_net/src/oyi_net/Replication.cpp:59-78 | decoding a field changes no disjoint field |
| Deltas.MaskRoundTrip | engine/oyi_net/src/oyi_net/Replication.cpp:177-237 | the change mask survives the wire |
| Deltas.DeltaCorrect | engine/oyi_net/src/oyi_net/Replication.cpp:177-237 | when the wire can carry the fields that changed, applying the delta to any value that encodes like the baseline gives one that encodes like the current value and leaves every byte that is not replicated unchanged |
| Deltas.DeltaMarks | engine/oyi_net/src/oyi_net/Replication.cpp:186-209 | bit i of a delta, counted from the lowest bit of its first byte, is set exactly when there is a field i and it encodes differently |
| Deltas.EncodeDelta | engine/oyi_net/src/oyi_net/Replication.cpp:177-211 | the encoder writes exactly that delta, its mask marks exactly the fields that encode differently, and it fails if and only if the delta does not fit or a field is larger than its scratch space |
| Deltas.ApplyDelta | engine/oyi_net/src/oyi_net/Replication.cpp:213-237 | the decoder, in place, computes the application or reports a message that ends too early |
| FrameMemory.FreedOk | engine/oyi_core/src/oyi_core/TaggedHeap.cpp:137-149 | FreeTag releases exactly the tag's blocks: the others stay in order, the ordinary ones of the tag go to the free list, and the statistics stay the list lengths |
| FrameMemory.ReleasedKeeps | engine/oyi_core/src/oyi_core/TaggedHeap.cpp:137-149 | after a tag is freed its allocations are gone and all others live, the frames of the tag have no block to bump through and every other frame is as it was |
| FrameMemory.RoundingStays | engine/oyi_core/src/oyi_core/FrameAllocator.cpp:20-23 | rounding the cursor up for any request a block can serve never passes the end of the block |
| FrameMemory.AllocateKeeps | engine/oyi_core/src/oyi_core/FrameAllocator.cpp:13-34 | an allocation is aligned, inside a block of its tag and apart from everything live; a refused one changes nothing |
| FrameMemory.FrameMemorySafe | engine/oyi_core/src/oyi_core/FrameAllocator.cpp:13-42 | from an empty heap, across every interleaving of several allocators, with a new tag after a tag is freed, live allocations are aligned, inside a block of their tag and pairwise apart, and the statistics are the list lengths |
| FrameMemory.TaggedHeap.AcquireBlock | engine/oyi_core/src/oyi_core/TaggedHeap.cpp:99-110 | while there is a free block the first of them is used and no memory is taken; it joins the used list under its tag |
| FrameMemory.TaggedHeap.AcquireLarge | engine/oyi_core/src/oyi_core/TaggedHeap.cpp:112-135 | a large allocation is aligned as asked; the exact conditions of a refusal |
| FrameMemory.TaggedHeap.FreeTag | engine/oyi_core/src/oyi_core/TaggedHeap.cpp:137-149 | the walk over the linked list computes the release that FreedOk is about |
| FrameMemory.TaggedHeap.Reserve | engine/oyi_core/src/oyi_core/TaggedHeap.cpp:80-97 | blocks are taken one at a time until enough are free, in front of those that were; used blocks stay; it reports whether enough are free |
| FrameMemory.FrameAllocator.Allocate | engine/oyi_core/src/oyi_core/FrameAllocator.cpp:13-34 | the method computes the allocation that AllocateKeeps is about, on allocator and heap; a request that fits behind the cursor takes no block |
| ChunkLayouts.TryLayout | engine/oyi_ecs/src/oyi_ecs/ChunkLayout.cpp:57-91 | the loops place, in 32-bit arithmetic, exactly the requests of the component set, in order, each at its offset modulo 2^32 |
| ChunkLayouts.Compute | engine/oyi_ecs/src/oyi_ecs/ChunkLayout.cpp:29-109 | fails for an unregistered type, a chunk no larger than the fixed guess, or if no candidate passes; otherwise answers with the largest candidate up to the guess that passes |
| ChunkLayouts.LayoutExact | engine/oyi_ecs/src/oyi_ecs/ChunkLayout.cpp:57-109 | the exact condition on the inputs: the areas of the answer are apart, ordered and inside the chunk if and only if no candidate capacity of the search passes the test while its placement without wrap-around ends outside the chunk |
| ChunkLayouts.LargestInside | engine/oyi_ecs/src/oyi_ecs/ChunkLayout.cpp:57-109 | every larger capacity the search tries would end outside the chunk |
| ChunkLayouts.LayoutSound | engine/oyi_ecs/src/oyi_ecs/ChunkLayout.cpp:57-109 | under a bound on chunk size and chunk-component bytes every answer is sound: areas apart, inside, aligned, capacity at least one, bytes in use as added up |
| ChunkLayouts.EveryTypeOnce | engine/oyi_ecs/src/oyi_ecs/ChunkLayout.cpp:67-89 | every per-entity type has its column, every chunk type its value, a tag nothing |
| ChunkLayouts.WrapOverlaps | engine/oyi_ecs/src/oyi_ecs/ChunkLayout.cpp:57-91 | a set for which it fails: with a chunk component of nearly 2^32 bytes Compute accepts a layout whose entity column lies over the enable bits |
| ChunkImages.ColumnThere | engine/oyi_ecs/src/oyi_ecs/ChunkLayout.cpp:80-89 | in a sound layout every per-entity type of the set has a column |
| ChunkImages.CopiedRow | engine/oyi_ecs/src/oyi_ecs/Serialization.cpp:178-203 | row by row the bytes written for a chunk hold the chunk's handles, enable bits and values, Transient values at their defaults |
| ChunkImages.CopiedComponent | engine/oyi_ecs/src/oyi_ecs/Serialization.cpp:196-201 | chunk components likewise |
| ChunkWrites.WrittenValue | engine/oyi_ecs/src/oyi_ecs/Archetype.cpp:39-50 | through its column a component of a row is written alone: every other value of the chunk, every enable bit and every handle stays |
| ChunkWrites.WrittenBit | engine/oyi_ecs/src/oyi_ecs/Archetype.cpp:67-78 | an enable bit of a row is set or cleared alone: every other bit, every value and every handle stays |
| WorldRoundTrips.HeaderRead | engine/oyi_ecs/src/oyi_ecs/Serialization.cpp:229-276 | the header and type table that Save writes are accepted by a world with the same registry and chunk size |
| WorldRoundTrips.RestoredIs | engine/oyi_ecs/src/oyi_ecs/EntityRegistry.cpp:73-89 | the restored entity table has the same live handles and is in order, with a free list of its own |
| WorldRoundTrips.RowsLocated | engine/oyi_ecs/src/oyi_ecs/Serialization.cpp:363-374 | every row read back finds its entity alive and gives it the location it had |
| WorldRoundTrips.RowsAreLive | engine/oyi_ecs/src/oyi_ecs/Serialization.cpp:376-379 | a world in order has exactly as many rows as live entities, so the count check passes |
| WorldRoundTrips.SavedHeader | engine/oyi_ecs/src/oyi_ecs/Serialization.cpp:131-150 | a world file begins with the letters OYIW, format 0, the hash over the registry, the chunk size, the version and the number of types |
| WorldRoundTrips.RoundTrip | engine/oyi_ecs/src/oyi_ecs/Serialization.cpp:131-426 | loading the bytes of a saved world succeeds, reads every byte and reproduces version, generations, liveness, locations, marks, every chunk with Transient data at its defaults, and the typed managed objects |
| WorldRoundTrips.ReloadedView | engine/oyi_ecs/src/oyi_ecs/Serialization.cpp:229-426 | the loaded world's storage is in order, and the map from entity to values, enable bits and mark is the saved one with Transient values at their defaults |
| WorldStores.SaveWorld | engine/oyi_ecs/src/oyi_ecs/Serialization.cpp:131-226 | the writing loops produce exactly the bytes RoundTrip is about |
| WorldChecks.HeaderAccepted | engine/oyi_ecs/src/oyi_ecs/Serialization.cpp:229-276 | a header is accepted only if a world with the same schema hash, chunk size and types, whatever the types are called, saves it |
| WorldChecks.LoadedIsChecked | engine/oyi_ecs/src/oyi_ecs/Serialization.cpp:278-421 | whatever bytes Load accepts, the world has a table of entities in order, marks on live entities only, packed chunks in one archetype for each set of registered types, and managed objects of registered types on live entities |
| WorldStores.StoredWorld.Load | engine/oyi_ecs/src/oyi_ecs/Serialization.cpp:229-426 | the reading loops compute exactly the load RoundTrip is about; a world that is not empty is refused, and a failed load leaves the world unchanged or cleared |
| ObjectLayers.LeavingRootsAre | engine/oyi_object/src/oyi_object/ObjectLayer.cpp:177-186 | the roots that start to leave are exactly the requested ones that are alive and were not spawned in this hook, each once |
| ObjectLayers.WithRootedAre | engine/oyi_object/src/oyi_object/ObjectLayer.cpp:192-206 | with them leave exactly the entities rooted at them, each once |
| ObjectLayers.AdoptedOwners | engine/oyi_object/src/oyi_object/ObjectLayer.cpp:126-148 | each object made for a record whose entity is alive belongs to that entity, none is made for a dead one, and no object changes its owner |
| ObjectLayers.HookScene | engine/oyi_object/src/oyi_object/ObjectLayer.cpp:85-148 | after the hook everyone but the dying is alive, every object but theirs is managed by its owner, and the new objects are exactly those made for live entities of the batch, each managed for its entity |
| ObjectLayers.GreetingsInOrder | engine/oyi_object/src/oyi_object/ObjectLayer.cpp:153-158 | the Spawned messages come in the order of the batch, one for each live entity, with the prototype of its record |
| ObjectLayers.ObjectLayer.SyncHook | engine/oyi_object/src/oyi_object/ObjectLayer.cpp:85-91 | the three parts of the hook compute the hook the lifecycle theorems are about, messages in order included; the world after it is as HookScene says |
| ObjectLayers.ObjectLayer.OnDespawnReplayed | engine/oyi_object/src/oyi_object/ObjectLayer.cpp:77-83 | a request is noted once |
| ObjectFactories.SpawnReplayed | engine/oyi_object/src/oyi_object/ObjectFactory.cpp:25-48 | in every replay of what SpawnNode records, whichever clones fail, each entity of the object that came to be is noted once; if the root came to be it is noted with them and is the root of each, otherwise they have none |
| ObjectFactories.SpawnsReplayed | engine/oyi_object/src/oyi_object/ObjectFactory.cpp:13-48 | and for all that is spawned through one buffer the notes are as the lifecycle theorems ask: new entities, each once, roots along |
| Lifecycles.StartInv | engine/oyi_object/src/oyi_object/ObjectLayer.cpp:42-52 | a layer that starts on a world in order, with nothing noted, meets the invariant of the lifecycle theorems |
| Lifecycles.AnyReplay | engine/oyi_object/src/oyi_object/ObjectLayer.cpp:63-83 | any replay is of the kind the lifecycle theorems are about: the dead stay dead, the new notes are of entities not noted before, each once and with its root, and no request repeats |
| Lifecycles.NeverBoth | engine/oyi_object/src/oyi_object/ObjectLayer.cpp:119-225 | no entity gets Spawned and Despawning from the same hook |
| Lifecycles.RootTakesAll | engine/oyi_object/src/oyi_object/ObjectLayer.cpp:166-225 | told of their end, and set to die, are exactly the requested entities and the live ones rooted at them; all are alive when the hook ends |
| Lifecycles.DespawningOnce | engine/oyi_object/src/oyi_object/ObjectLayer.cpp:85-225 | over whole runs no entity is told of its end twice |
| Lifecycles.SpawnedOnce | engine/oyi_object/src/oyi_object/ObjectLayer.cpp:85-160 | over whole runs no entity is told of its spawn twice |
| Lifecycles.RequestHonoured | engine/oyi_object/src/oyi_object/ObjectLayer.cpp:166-191 | a request is honoured by this hook unless its entity was spawned just now; then it is kept for the next hook, where nothing holds it back |
| Lifecycles.GoneAfterTwoHooks | engine/oyi_object/src/oyi_object/ObjectLayer.cpp:93-114 | everything told of its end by one hook is alive after it, and after the next hook dead for good with no managed object left, whatever is replayed in between |
| Messages.InSenderOrder | engine/oyi_ecs/src/oyi_ecs/Schedule.cpp:490-510 | an included receiver is given, in sending order and each once, of the kinds it declares every broadcast and exactly those targeted messages whose target is alive and matches its query; nothing else, and one that is not included nothing |
| Messages.RoutedOnce | engine/oyi_ecs/src/oyi_ecs/Schedule.cpp:490-510 | routing adds a broadcast of a declared kind once for each time it was sent, a targeted message of such a kind exactly when its target is alive and matches the query, and anything else never |
| Messages.SentInOrder | engine/oyi_ecs/src/oyi_ecs/Schedule.cpp:512-522 | a sender's messages lie between those of the senders before it and after it in the phase order, its own before its tasks' |
| Messages.TasksInOrder | engine/oyi_ecs/src/oyi_ecs/Schedule.cpp:512-522 | the messages of a chunk task lie between those of the tasks before and after it |
| Messages.DeliveredOnce | engine/oyi_ecs/src/oyi_ecs/Schedule.cpp:490-547 | exactly once and in order: what a system has read over a run, followed by what still waits, is what waited at the start followed by everything addressed to it |
| Messages.ReadInNextRun | engine/oyi_ecs/src/oyi_ecs/Schedule.cpp:384-401 | a message is read in the receiver's next run and in no other |
| Messages.SamePhaseIsLost | engine/oyi_ecs/src/oyi_ecs/Schedule.cpp:530-547 | what a system is sent by its own phase while it runs in it is cleared unread |
| Messages.OneTurn | engine/oyi_ecs/src/oyi_ecs/Schedule.cpp:384-392 | in any frames in a row as many as its divisor, a downclocked system runs exactly once, and it runs in its first frame |
| Messages.MessageRoutes.RouteMessages | engine/oyi_ecs/src/oyi_ecs/Schedule.cpp:512-522 | senders in phase order, chunk tasks in chunk order after their system; every queue gains what RoutedOnce says; every outbox is left empty |
| Messages.MessageRoutes.CloseInboxes | engine/oyi_ecs/src/oyi_ecs/Schedule.cpp:530-547 | the end of a phase routes, then clears exactly the queues of the systems of the phase that ran; the others gain what RoutedOnce says |
| Messages.MessageRoutes.PostMessages | engine/oyi_ecs/src/oyi_ecs/Schedule.cpp:567-599 | what a window or the hook sends reaches every queue as RoutedOnce says |

## Left out

- Counters: the value of a counter is unbounded here, its 32-bit wrap-around is not modelled; atomics are sequentially consistent steps, weaker memory orderings are not modelled.
- RunPhase: running out of job records or counters, which the source treats as fatal, and the counters' slots and generations, which JobProtocol models; drop and flush of a counter are one step there.
- PhaseTheorems.RunPhaseMatchesSerial: requires that what a main-thread system waits for is included in the world, because the source waits on the unregistered counter otherwise; a system's access to its components after it has handed out chunk tasks is restricted to what its tasks do not touch.
- PhaseRuns.SingleThreadInvariant: one hand-out of chunk tasks per system run; the task of a chunk that a system could hand out and does not is a job without work; commands and messages are part of each system's own store.
- JobTheorems.LinkedUntilZero: zero at the flush is promised unless the counter was raised while the flush was on its way; with such a raise it fails, see JobRises.RisingJoinFlushedEarly.
- JobTheorems.NoLostWakeup: for a counter that has not risen again after falling to zero; JobRises.UncoveredIsTheLoss gives the exact condition.
- JobHistories.BehindIsFinished: for a job none of whose counters was raised while its flush was on its way, the condition of JobRises.EarlyIsTheWindow.
- JobBuilders.JobBuilder.DispatchJob: pool exhaustion and the reference counts of the builder's counters; the hold on the parent between construction and destruction is modelled in PhaseJobs only.
- Job system: worker threads, affinities, frame allocator switching and the blocking primitives themselves.
- World: change-version stamps and the change filter, chunk component values outside world files, query caches, snapshots and the state hash.
- WorldTheorems.SetRefines: the writable pointer of GetComponentForWrite is modelled as a whole-value write, which ChunkWrites.WrittenValue follows into the bytes of a chunk.
- ReplayTheorems.ReplayRefines: callbacks recorded with Call only take notes; managed objects change only by state-block writes.
- CommandBuffers.CommandBuffer.CreateEntity: addresses and payload alignment; the payload is a byte sequence.
- WorldRoundTrips.RoundTrip: allocation succeeds and objects of the registered types can be built; OnLoaded callbacks and the run-time part of managed objects are not modelled; the hash over the registry is a number both worlds share; the layouts of the registered sets are taken to be sound, which ChunkLayouts.LayoutSound gives under its bound; a Transient type has a default to write.
- WorldChecks.LoadedIsChecked: of rows it says nothing: a file that repeats an archetype, or names one entity in two rows, can be accepted.
- World files: the summary reader of tools.
- ChunkLayouts.LayoutSound: the bound is sufficient; LayoutExact gives the exact condition.
- ChunkLayouts.Compute: the capacity is the largest up to the initial guess, not the largest possible.
- AccessChecks.CheckUnordered: folding chunk-task logs into their system's log, the undeclared and cross-chunk reports, and the assert mode.
- Hierarchies.OnePass: matrices are abstract; whether a rebuild is needed (CollectAndCheck) and writing PreviousParent are not modelled.
- Deltas.ElementRoundTrip: dividing by the step and multiplying with it are exact here, where the source rounds in double precision; numbers that are not finite, grid points beyond the largest number and step counts beyond 32 bits, for which lround and the narrowing depend on the platform, are not covered: Deltas.ElementNear says that such a count arrives more than a step off.
- Deltas: EncodeEntity and ApplyEntity, the schema builder, snapshots, id maps and prediction history.
- FrameMemory.FrameMemorySafe: addresses are numbers and the backing allocator is a parameter that promises fresh aligned memory; an allocator whose tag was freed is given a tag before it allocates again; the destructor and the mutex are not modelled.
- ObjectLayers.ObjectLayer.SyncHook: OnSpawned and OnDespawning only record commands, which is all a window lets them do, and so act in the next replay; which managed objects could be built is a parameter; the hook statistics.
- Lifecycles.NeverBoth: for objects made by the factory, as ObjectFactories has them; other writes to ObjectInfo are not covered.
- Messages.DeliveredOnce: payload packing in lanes and frame counters beyond 32 bits.
- Sockets, RPC, FlatBuffers, scripts, physics, platform code and code generation.
