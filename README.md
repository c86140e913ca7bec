# Screeps colony core: state machines, workers, room planning and room tasks

This project models the decision core of a Screeps bot, meaning the per-tick logic that decides what creeps and rooms do next:

- **The state-machine engine** (`src/utils/state-machine.ts`). A builder records states and transitions. `runStateMachine` advances a persisted `{state, memory}` record by at most one transition per tick. The call order is fixed: `onTick`, then `isFinished`, then the guards of the transitions that leave the state, in declaration order. For the first transition whose guard holds, the engine then runs `onExit`, `onTransition` and the destination's `onEnter`.
- **The worker creep** (`src/creeps/worker.ts`). Its machine is UNKNOWN → MOVING to the source → HARVESTING until full → MOVING to the controller → TRANSFERING until empty → UNKNOWN. The file also holds the per-state memory shapes, the per-tick entry point and the spawning guard.
- **The room planner** (`src/rooms/room-planner.ts`). It holds the room's level machine (UNKNOWN → LEVEL_0 → LEVEL_1, with LEVEL_2 switched off) and its entry point, which sets an undefined state to UNKNOWN. It also holds the two position helpers that road planning uses: scanning a look-at matrix, and de-duplicating positions by the packed key `(x << 6) | y`.
- **The room task scheduler** (`src/rooms/room-task-scheduler.ts`, with the types of `src/rooms/types.d.ts`):
  - a persisted ledger of the claims creeps have made on tasks, reconciled every tick against the creeps still alive;
  - a per-tick priority queue of transfer, repair, build and controller-upkeep tasks, netted against those claims and sorted stably by rank;
  - handing out the head of the queue to a creep sized to its capacity, which splits the head when it is larger;
  - a creep finishing a task;
  - one scheduler per room.

Pure code becomes datatypes, functions and lemmas. Code that mutates state becomes imperative Dafny:

- the engine's record (`StateMachineContext`) and builder are classes;
- the scheduler and its registry are classes with `seq`/`map` fields;
- `runStateMachine` and its loop are methods;
- the loops of the scheduler and of the two position helpers are methods.

Each method is proved against a specification function (`Step`, `QueueAfterRun`, `HandOut`, `Finish`, `Pruned`/`Trackers`, `MatrixMatches`, `Deduplicated`). The properties are proved as lemmas about those functions.

Modules, one per file:

- `Optional`, `Sequences` and `Positions` are small shared definitions.
- `StateMachine` is the engine and `StateMachineProperties` holds what it guarantees.
- `Worker` and `RoomPlanner` are the two concrete machines.
- `RoomTasks` covers the task kinds, costs, ids, discovery and the sort.
- `Scheduler` covers the ledger, the queue and the classes.

Behaviour worth knowing:

- **A handed-out task is sized to the creep.** `getRoomTask` sizes both the task and the claim to the creep's whole capacity, even when the queue head needs less. So a task's claims can add up to more than its need (`Scheduler.ClaimCanExceedNeed`).
- **A finished creep can leave an empty entry.** `creepFinishedRoomTask` deletes an entry with exactly one claim, whoever made it. It can also leave an empty claim list behind (`Scheduler.FinishCanLeaveEmptyEntry`). That list is dropped at the next reconciliation.

## Model

| member | source | states |
|---|---|---|
| StateMachine.StateMachineContext.constructor | src/utils/state-machine.ts:1-4 | The record starts with the given state and memory. |
| StateMachine.StateMachineBuilder.constructor | src/utils/state-machine.ts:38-40 | A new builder has no states and no transitions. |
| StateMachine.StateMachineBuilder.AddState | src/utils/state-machine.ts:42-48 | Registers the handlers under the id, replacing earlier ones; transitions unchanged; returns the same builder. |
| StateMachine.StateMachineBuilder.AddTransition | src/utils/state-machine.ts:50-57 | Appends the transition at the end, so declaration order is kept; states unchanged. |
| StateMachine.StateMachineBuilder.Build | src/utils/state-machine.ts:59-61 | The config holds exactly the registered states and the transitions in order. |
| StateMachine.IsFinished | src/utils/state-machine.ts:72 | A missing state or a missing `isFinished` counts as finished; otherwise the handler's answer. |
| StateMachine.ApplicableFrom | src/utils/state-machine.ts:73 | Exactly the indices of the transitions leaving the state, strictly increasing (the `filter` keeps order). |
| StateMachine.FirstQualifying | src/utils/state-machine.ts:75-76 | A found index is listed and its guard holds or is absent. |
| StateMachine.RunStateMachine | src/utils/state-machine.ts:64-86 | The record's new state and memory, the context and the call trace are those of the step function `Step`. |
| StateMachine.TickAndAsk | src/utils/state-machine.ts:68-72 | Runs `onTick` with the record's memory; the state is unchanged; returns whether the state is finished; records both calls. |
| StateMachine.ScanTransitions | src/utils/state-machine.ts:75-76 | The loop calls the guards in order and stops at the first transition that qualifies, as `FirstQualifying` and `GuardTrace` say. |
| StateMachine.TakeTransition | src/utils/state-machine.ts:77-82 | Calls `onExit`, sets state and memory from the transition and `onTransition`, then calls the destination's `onEnter`, as `Fire` says. |
| StateMachineProperties.ScanFindsFirst | src/utils/state-machine.ts:73-76 | The scan over the filtered list finds none exactly when no transition from the state qualifies, else the earliest-declared one. |
| StateMachineProperties.FirstFromUnique | src/utils/state-machine.ts:75-76 | There is at most one earliest qualifying transition. |
| StateMachineProperties.StepFires | src/utils/state-machine.ts:70-83 | Transition i fires iff the state is finished after `onTick` and i is the earliest-declared qualifying transition leaving it. |
| StateMachineProperties.StepStays | src/utils/state-machine.ts:70-76 | Nothing fires iff the state is unfinished or no transition qualifies; then the state is kept and the memory is what `onTick` left. |
| StateMachineProperties.StepTarget | src/utils/state-machine.ts:77-81 | A fired transition leaves the current state; the record moves to its destination with `onTransition`'s memory (absent without one) as `onEnter` leaves it. |
| StateMachineProperties.StepTakes | src/utils/state-machine.ts:72-82 | A finished state whose earliest qualifying transition is i moves along i, with the memory derived after `onExit`. |
| StateMachineProperties.EarlierDeclaredWins | src/utils/state-machine.ts:73-76 | Of two qualifying transitions from the same state, the later-declared never fires. |
| StateMachineProperties.UnregisteredStateFires | src/utils/state-machine.ts:68-72 | A state with no entry counts as finished, and context and memory are untouched before the guards. |
| StateMachineProperties.TwoUnguardedTransitions | src/utils/state-machine.ts:73-82 | Two unguarded transitions X→Y, X→Z declared in that order: the step from X ends in Y. |
| StateMachineProperties.GuardTraceShape | src/utils/state-machine.ts:75-76 | One guard call per guarded transition examined, in declaration order, with the scan's memory, none past the chosen one, all of them when none is chosen. |
| StateMachineProperties.StepTraceOrdered | src/utils/state-machine.ts:70-81 | The calls of a step are in the fixed order onTick, isFinished, guards, onExit, onTransition, onEnter, each at most once, guards only of transitions leaving the state and none after the fired one. |
| StateMachineProperties.Visited | src/utils/state-machine.ts:64-86 | The states over a run of calls, one per call. |
| StateMachineProperties.StepStateOrigin | src/utils/state-machine.ts:79 | After a step the state is the old one or the destination of some transition. |
| StateMachineProperties.NeverTargetedNeverVisited | src/utils/state-machine.ts:79 | A state no transition leads to is never reached by any run that does not start in it. |
| Worker.StateCode | src/creeps/worker.ts:5-17 | The six state ids are 0..5, and each id decodes back to its state, so distinct states have distinct ids. |
| Worker.BuildWorkerMachine | src/creeps/worker.ts:50-120 | The builder chain yields exactly the worker machine: handlers for MOVING, HARVESTING, TRANSFERING and the five transitions in order. |
| Worker.AfterTickKeeps | src/creeps/worker.ts:55-57 | Every state's `onTick` leaves context and memory unchanged. |
| Worker.UnknownStep | src/creeps/worker.ts:84-89 | UNKNOWN always moves to MOVING towards the source, with the path planned by MOVING's `onEnter`. |
| Worker.MovingWaits | src/creeps/worker.ts:58-60 | MOVING farther than one tile from its target stays, memory untouched. |
| Worker.MovingToHarvesting | src/creeps/worker.ts:90-97 | An arrived MOVING creep with free capacity goes to HARVESTING at the source. |
| Worker.MovingToTransfering | src/creeps/worker.ts:107-114 | An arrived MOVING creep without free capacity goes to TRANSFERING at the controller. |
| Worker.MovingArrives | src/creeps/worker.ts:58-114 | An arrived MOVING creep always moves on: HARVESTING iff it has free capacity, else TRANSFERING. |
| Worker.HarvestingWaits | src/creeps/worker.ts:67-69 | HARVESTING with free capacity stays. |
| Worker.HarvestingToMoving | src/creeps/worker.ts:98-106 | A full HARVESTING creep moves towards the controller with a planned path. |
| Worker.HarvestingStep | src/creeps/worker.ts:62-106 | HARVESTING stays iff it has free capacity, otherwise it heads for the controller. |
| Worker.TransferingToUnknown | src/creeps/worker.ts:115-119 | An empty TRANSFERING creep returns to UNKNOWN with no memory. |
| Worker.TransferingWaits | src/creeps/worker.ts:76-79 | A TRANSFERING creep still holding energy stays, full target or not. |
| Worker.TransferingStep | src/creeps/worker.ts:71-119 | TRANSFERING goes to UNKNOWN exactly when the creep is empty. |
| Worker.FullTargetKeepsTransfering | src/creeps/worker.ts:76-79 | A full store target makes TRANSFERING finished, yet the creep that still holds energy stays in TRANSFERING. |
| Worker.TransferingExitCalled | src/creeps/worker.ts:80-82 | Leaving TRANSFERING calls its `onExit` before the state changes. |
| Worker.BuildingAndRepairingUnreachable | src/creeps/worker.ts:84-119 | A worker that starts outside BUILDING and REPAIRING never reaches them. |
| Worker.UnhandledStays | src/creeps/worker.ts:50-119 | A worker in BUILDING or REPAIRING stays with memory unchanged. |
| Worker.StepKeepsMemoryMatching | src/creeps/worker.ts:27-44 | Every step keeps the memory shaped as the state's memory type. |
| Worker.RunKeepsMemoryMatching | src/creeps/worker.ts:27-44 | Over any run, memory stays shaped as the current state's. |
| Worker.CreepMemory.constructor | src/creeps/worker.ts:148-151 | The creep memory holds the role and the machine record. |
| Worker.RunWorkerStateMachine | src/creeps/worker.ts:122-131 | One engine step on the record in the creep's memory with the fixed source and controller ids; new state and memory as `Step` says. |
| Worker.DecimalString | src/creeps/worker.ts:146 | Renders the game time as at least one decimal digit. |
| Worker.DecimalRoundTrip | src/creeps/worker.ts:146 | The digits read back as the time they came from, so names of different ticks differ. |
| Worker.SpawnCreepWorker | src/creeps/worker.ts:133-153 | Spawns iff the spawner is idle and has more than 250 energy; body MOVE, MOVE, WORK, CARRY; name `worker-<time>`; role WORKER; state UNKNOWN without memory. |
| Worker.SpawnedWorkerMatches | src/creeps/worker.ts:148-151 | A spawned worker's initial memory matches its state. |
| RoomPlanner.ScanMatrixForRoomPositions | src/rooms/room-planner.ts:19-37 | The loops return the accepted tiles as positions in the room, row by row in visit order. |
| RoomPlanner.RowMatchesMembership | src/rooms/room-planner.ts:27-33 | A position is in a row's result iff it is an accepted tile of that row in the room. |
| RoomPlanner.MatrixMatchesMembership | src/rooms/room-planner.ts:19-37 | A position is in the scan's result iff some accepted tile of the matrix has its x and y in the room. |
| RoomPlanner.Roadable | src/rooms/room-planner.ts:71-72 | Holds iff some look result is terrain other than a wall. |
| RoomPlanner.KeyPacks | src/rooms/room-planner.ts:43 | Within x < 2^26 and y < 64, the 32-bit key `(x << 6) \| y` is `64x + y`. |
| RoomPlanner.KeyInjective | src/rooms/room-planner.ts:43 | Within that range two positions share a key iff they share coordinates. |
| RoomPlanner.KeyCollidesAboveRange | src/rooms/room-planner.ts:43 | Outside it the key collides: (0, 64) and (1, 0) share the key 64. |
| RoomPlanner.DeduplicatedDistinct | src/rooms/room-planner.ts:39-48 | The result has distinct keys and is no longer than the input. |
| RoomPlanner.DeduplicatedUniqueCoordinates | src/rooms/room-planner.ts:39-48 | No two results share coordinates. |
| RoomPlanner.DeduplicatedCoversKeys | src/rooms/room-planner.ts:39-48 | Every input key has a kept position. |
| RoomPlanner.DeduplicatedFromInput | src/rooms/room-planner.ts:39-48 | Every kept position is an input. |
| RoomPlanner.DeduplicatedCoversCoordinates | src/rooms/room-planner.ts:39-48 | Within the key range, every input's coordinates appear in the result. |
| RoomPlanner.DeduplicatedLastWins | src/rooms/room-planner.ts:42-46 | The position kept for a key is the last input with that key. |
| RoomPlanner.KeyIgnoresRoom | src/rooms/room-planner.ts:43 | Same coordinates in two rooms collapse into the later position. |
| RoomPlanner.MapSetExisting | src/rooms/room-planner.ts:44 | `set` on a held key keeps the key order and replaces that key's value in place. |
| RoomPlanner.MapSetNew | src/rooms/room-planner.ts:44 | `set` on a new key appends key and value to the insertion order. |
| RoomPlanner.GetUniquePositionsInRoom | src/rooms/room-planner.ts:39-48 | The loop over a `Map` yields exactly `Deduplicated(positions)`. |
| RoomPlanner.RoomStateCode | src/rooms/room-planner.ts:3-11 | The state ids are -1..2, and each id decodes back to its state, so distinct states have distinct ids. |
| RoomPlanner.BuildRoomMachine | src/rooms/room-planner.ts:50-97 | The builder chain yields exactly the level machine. |
| RoomPlanner.RoomAfterTick | src/rooms/room-planner.ts:50-85 | No level has `onTick` or `isFinished`: every state is finished and context and memory are kept. |
| RoomPlanner.UnknownToLevel0 | src/rooms/room-planner.ts:86 | UNKNOWN always moves to LEVEL_0. |
| RoomPlanner.Level0Rises | src/rooms/room-planner.ts:87-91 | LEVEL_0 with controller level at least 1 moves to LEVEL_1. |
| RoomPlanner.Level0Waits | src/rooms/room-planner.ts:87-91 | LEVEL_0 with controller level below 1 stays. |
| RoomPlanner.Level0Step | src/rooms/room-planner.ts:87-91 | LEVEL_0 moves to LEVEL_1 iff the controller has reached level 1. |
| RoomPlanner.UpperLevelsStay | src/rooms/room-planner.ts:92-96 | LEVEL_1 (guard always false) and LEVEL_2 (no transitions) stay. |
| RoomPlanner.LevelNeverDecreases | src/rooms/room-planner.ts:86-96 | One tick never lowers the room's level. |
| RoomPlanner.StepAvoidsLevel2 | src/rooms/room-planner.ts:92-96 | One tick never enters LEVEL_2. |
| RoomPlanner.Level2Unreachable | src/rooms/room-planner.ts:92-96 | A room not starting in LEVEL_2 never visits it over any run. |
| RoomPlanner.RoomMemory.constructor | src/rooms/types.d.ts:33-35 | A new room's memory has an undefined state and no machine memory. |
| RoomPlanner.RunRoomStateMachine | src/rooms/room-planner.ts:99-107 | An undefined state becomes UNKNOWN, then one engine step as `Step` says. |
| RoomPlanner.FirstRoomRun | src/rooms/room-planner.ts:99-107 | A new room's first run ends in LEVEL_0. |
| RoomTasks.TypeCode | src/rooms/types.d.ts:4-9 | The four task tags are 0..3, and each tag decodes back to its kind. |
| RoomTasks.Rank | src/rooms/room-task-scheduler.ts:6-11 | Ranks are 0..3; rank 0 is exactly the controller task; a kind's rank is its place in the order controller, transfer, repair, build, so distinct kinds rank differently. |
| RoomTasks.RoomTaskOrder | src/rooms/room-task-scheduler.ts:19-21 | Negative iff a ranks before b; zero iff same kind; positive iff b ranks before a. |
| RoomTasks.TaskKey | src/rooms/room-task-scheduler.ts:65-75 | The id is `roomTaskKey(<tag>,<targetId>)`, each part at its place. |
| RoomTasks.TaskKeyInjective | src/rooms/room-task-scheduler.ts:65-75 | Two ids are equal iff kind and target are. |
| RoomTasks.ToRoomTaskDetails | src/rooms/room-task-scheduler.ts:65-75 | The details carry the kind, target, need and the task key. |
| RoomTasks.RatioBelowHalfExact | src/rooms/room-task-scheduler.ts:30-40 | For non-zero hitsMax the integer test agrees with `hits / hitsMax < 0.5` over the rationals. |
| RoomTasks.QuotientBelowHalf | src/rooms/room-task-scheduler.ts:30-40 | Over a positive divisor, `h / m < 0.5` iff `2h < m`. |
| RoomTasks.CeilDiv100 | src/rooms/room-task-scheduler.ts:42-51 | `Math.ceil(a / 100)`: the least r with a ≤ 100r. |
| RoomTasks.RepairHits | src/rooms/room-task-scheduler.ts:42-51 | Hits to restore up to the maximum, for ramparts no further than 50000. |
| RoomTasks.RepairCost | src/rooms/room-task-scheduler.ts:42-51 | One energy per 100 hits to restore, rounded up. |
| RoomTasks.RepairCostPositive | src/rooms/room-task-scheduler.ts:30-51 | A damaged structure needing repair costs energy to repair. |
| RoomTasks.BuildCost | src/rooms/room-task-scheduler.ts:53-55 | The missing progress: progress + cost = total. |
| RoomTasks.TransferCost | src/rooms/room-task-scheduler.ts:57-63 | The store's free capacity, 0 without a store. |
| RoomTasks.TransferCostPositive | src/rooms/room-task-scheduler.ts:23-28 | A structure needing energy has a positive transfer cost. |
| RoomTasks.StructureCandidates | src/rooms/room-task-scheduler.ts:96-109 | A structure yields its transfer task iff it needs energy and its repair task iff it needs repair, nothing else. |
| RoomTasks.SitesCandidates | src/rooms/room-task-scheduler.ts:111-118 | One candidate per construction site. |
| RoomTasks.ControllerCandidates | src/rooms/room-task-scheduler.ts:120-124 | The 50-energy upkeep task iff the controller is due (absent ticks count as 9999). |
| RoomTasks.StructuresCandidatesKinds | src/rooms/room-task-scheduler.ts:96-109 | Structures yield only transfer and repair tasks. |
| RoomTasks.SitesCandidatesKinds | src/rooms/room-task-scheduler.ts:111-118 | Every site candidate is the build task of one of the sites. |
| RoomTasks.SortByRankSorted | src/rooms/room-task-scheduler.ts:126 | After the sort ranks never decrease. |
| RoomTasks.SortByRankPermutation | src/rooms/room-task-scheduler.ts:126 | The sort is a permutation of the queue. |
| RoomTasks.SortByRankStable | src/rooms/room-task-scheduler.ts:126 | Entries of equal rank keep their relative order. |
| RoomTasks.BucketsCover | src/rooms/room-task-scheduler.ts:126 | The four rank buckets together hold exactly the queue's entries. |
| RoomTasks.ControllerFirst | src/rooms/room-task-scheduler.ts:6-11 | After the sort, controller tasks precede every task of another kind. |
| Scheduler.LiveClaims | src/rooms/room-task-scheduler.ts:146-147 | Exactly the claims of living creeps. |
| Scheduler.LiveClaimsCounts | src/rooms/room-task-scheduler.ts:146-147 | Every claim of a dead creep is dropped, and every other claim is kept as often as it occurs. |
| Scheduler.LiveClaimsIdempotent | src/rooms/room-task-scheduler.ts:146-148 | Filtering twice equals filtering once. |
| Scheduler.PrunedOnlyLive | src/rooms/room-task-scheduler.ts:141-170 | After reconciliation every entry is non-empty and holds only living creeps' claims from the old entry. |
| Scheduler.PrunedKeepsLive | src/rooms/room-task-scheduler.ts:141-170 | Every living creep's claim survives under its task. |
| Scheduler.PrunedIdempotent | src/rooms/room-task-scheduler.ts:141-170 | Reconciling again against the same creeps changes nothing. |
| Scheduler.MaxInitial | src/rooms/room-task-scheduler.ts:157-162 | The largest initial need among the claims, or 0. |
| Scheduler.SumClaimedConcat | src/rooms/room-task-scheduler.ts:163 | Claimed energy adds up over concatenation. |
| Scheduler.TrackersOfPruned | src/rooms/room-task-scheduler.ts:141-170 | The trackers cover exactly the reconciled entries, each summing its live claims. |
| Scheduler.Track | src/rooms/room-task-scheduler.ts:157-166 | The loop yields the maximum initial need and the total claimed. |
| Scheduler.AdjustedNeedSimplifies | src/rooms/room-task-scheduler.ts:130-139 | A tracked task's need becomes tracked initial need minus total claimed; untracked needs stay. |
| Scheduler.AdmittedConcat | src/rooms/room-task-scheduler.ts:92-124 | Admitting a concatenation admits each part in order. |
| Scheduler.AdmittedExactly | src/rooms/room-task-scheduler.ts:130-139 | The queue holds exactly the candidates with positive adjusted need, each with that need. |
| Scheduler.QueueAfterRunProperties | src/rooms/room-task-scheduler.ts:92-128 | After `run` every queued task needs energy, the queue is sorted by rank, stable, and a permutation of the admitted candidates. |
| Scheduler.QueuedTrackedNeed | src/rooms/room-task-scheduler.ts:130-139 | A tracked queued task needs the tracked initial need minus everything claimed. |
| Scheduler.WithClaim | src/rooms/room-task-scheduler.ts:197-212 | Appends one claim under the id, creating the entry; other entries unchanged. |
| Scheduler.HandOutSplits | src/rooms/room-task-scheduler.ts:172-195 | A head larger than the capacity stays with need reduced by the capacity, else it is removed; the total need drops by min(need, capacity). |
| Scheduler.HandOutClaims | src/rooms/room-task-scheduler.ts:183-194 | The creep gets the head sized to its capacity with the energy source, and exactly one claim is added under the head's id. |
| Scheduler.HandOutFallback | src/rooms/room-task-scheduler.ts:172-183 | An empty queue yields the controller-upkeep task sized to the capacity; nothing else changes. |
| Scheduler.ClaimCanExceedNeed | src/rooms/room-task-scheduler.ts:183-194 | A 50-capacity creep on a 30-need task claims 50: claims can exceed the need. |
| Scheduler.WithoutCreep | src/rooms/room-task-scheduler.ts:229 | Exactly the claims not made by the creep, each as often as it occurs. |
| Scheduler.FinishCases | src/rooms/room-task-scheduler.ts:214-231 | Unknown id: no change; one claim: entry deleted; more: the creep's claims dropped; others untouched; the queue head goes iff forced and it carries the id. |
| Scheduler.FinishCanLeaveEmptyEntry | src/rooms/room-task-scheduler.ts:225-230 | Two claims by the same creep leave an empty entry. |
| Scheduler.ReconcileStep | src/rooms/room-task-scheduler.ts:145-167 | One loop iteration keeps the invariant: pending entries as persisted, the rest reconciled and tracked. |
| Scheduler.ReconciledLedger | src/rooms/room-task-scheduler.ts:141-170 | With nothing pending the ledger is the reconciled one. |
| Scheduler.ReconciledTrackers | src/rooms/room-task-scheduler.ts:141-170 | With nothing pending the trackers are those of the reconciled ledger. |
| Scheduler.RoomTaskScheduler.constructor | src/rooms/room-task-scheduler.ts:80-90 | Empty queue; the persisted ledger or, never persisted, an empty one. |
| Scheduler.RoomTaskScheduler.Run | src/rooms/room-task-scheduler.ts:92-128 | The ledger becomes the reconciled one and the queue becomes `QueueAfterRun`. |
| Scheduler.RoomTaskScheduler.PushStructures | src/rooms/room-task-scheduler.ts:96-109 | Appends the admitted structure candidates in order; ledger unchanged. |
| Scheduler.RoomTaskScheduler.PushStructure | src/rooms/room-task-scheduler.ts:97-108 | Appends the admitted transfer, then repair candidate of one structure. |
| Scheduler.RoomTaskScheduler.PushSites | src/rooms/room-task-scheduler.ts:111-118 | Appends the admitted build candidates in order; ledger unchanged. |
| Scheduler.RoomTaskScheduler.PriorityQueueTryPush | src/rooms/room-task-scheduler.ts:130-139 | Appends the netted candidate iff it still needs energy. |
| Scheduler.RoomTaskScheduler.GetRoomTaskTracker | src/rooms/room-task-scheduler.ts:141-170 | Leaves the reconciled ledger, returns its trackers, queue unchanged. |
| Scheduler.RoomTaskScheduler.GetRoomTask | src/rooms/room-task-scheduler.ts:172-195 | Task, queue and ledger are those of `HandOut`. |
| Scheduler.RoomTaskScheduler.AssignCreepToRoomTask | src/rooms/room-task-scheduler.ts:197-212 | The ledger gains the claim as `WithClaim` says; queue unchanged. |
| Scheduler.RoomTaskScheduler.CreepFinishedRoomTask | src/rooms/room-task-scheduler.ts:214-231 | Queue and ledger become those of `Finish`. |
| Scheduler.SchedulerRegistry.constructor | src/rooms/room-task-scheduler.ts:78 | No schedulers yet. |
| Scheduler.SchedulerRegistry.ForRoom | src/rooms/room-task-scheduler.ts:233-243 | Returns the room's remembered scheduler, or makes, remembers and returns a fresh one with the persisted ledger. |
| Scheduler.TwoCreepsShareATask | src/rooms/room-task-scheduler.ts:130-231 | Two creeps of capacity 50 on a 200 transfer leave 150, then 100; next tick the claims net the need to 100; after A finishes only B's claim is left. |

## Left out

- The world effects are left out: the creep's `onTick` actions (`moveByPath`, `harvest`, `transfer`), `console.log`, and the road planning of LEVEL_0's `onEnter` (`findPathTo`, `lookAtArea`, `createConstructionSite`). These act on the game world after the tick, so the model treats them as leaving context and memory unchanged. The two helpers that road planning uses are modelled.
- The world the handlers read is passed in as parameters:
  - the positions and store capacities that `Game.getObjectById` looks up;
  - the path `findPathTo` serialises;
  - what `room.find` and `room.controller` report;
  - the game time.
  Of `Game.getObjectById`, the scheduler uses only whether a creep is alive, so that is modelled as a set of live creep ids.
- `spawnCreep` is a call into the game, so `SpawnCreepWorker` returns the request it would make and does not model the spawn's reply.
- Non-null assertions (`!`) that would throw on a missing object are not modelled; the object is assumed present. The one exception is `getRoomTask` with an empty queue and no controller, which yields no task.
- The cast in TRANSFERING's `isFinished` (`as StructureExtension`) is treated the same way. A target that no longer exists throws there in the source when the creep still holds energy. In the model, an id missing from `storeFree` stands for a present target without a store, so the creep stays in TRANSFERING.
- The getter that creates a missing ledger on every access is modelled once, in the scheduler's constructor. The optional `containerId` of an energy source is never set by the core, so it is left out.
- The `toString` of task details is left out; it is only used for logging.
- Floating-point arithmetic is decided exactly over integers and rationals. Hits, energy and progress are integers in the game, so the quotient test `hits / hitsMax < 0.5` and `Math.ceil` agree with the exact reading.
- The key `(x << 6) | y` is modelled as a 32-bit pattern, with the wrap-around written out. JavaScript reads that pattern as a signed 32-bit number. Which keys are equal does not depend on that reading, so it is not modelled.
- `for ... in` over the look-at matrix is modelled as the order the rows and tiles are given in.
- Aliasing is not modelled: in the source the built config is shared by every creep and room, while here it is an immutable value. The handlers' `this` binding is passed as an explicit context.
- RoomTasks.RepairCostPositive: requires `hits < hitsMax`. A rampart above 50000 hits never needs repair, and a structure with a non-positive maximum can need repair at zero cost, so no stronger promise holds.
