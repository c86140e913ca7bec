/**
 * The worker creep: its state machine (move to the source, harvest until full, move to
 * the controller, transfer until empty, start over), the per-state memory shapes, the
 * step of one creep per tick, and the guard for spawning a new worker.
 *
 * The creep's actions in `onTick` (`moveByPath`, `harvest`, `transfer`) act on the world
 * and are resolved by the game after the tick, so here they leave context and memory as
 * they were. The objects the handlers look up by id are part of the context: the
 * positions of the energy source and the controller, and the free store capacity of the
 * objects that have a store.
 */
module Worker {
  import opened Optional
  import opened Positions
  import opened StateMachine
  import opened StateMachineProperties

  datatype WorkerState = Unknown | Moving | Building | Harvesting | Transfering | Repairing

  /**
   * The numeric state ids `WORKER_STATE_UNKNOWN` = 0 … `WORKER_STATE_REPAIRING` = 5. The engine
   * persists a state as its number and looks its handlers up by it, so each id names one state.
   */
  function StateCode(s: WorkerState): (r: nat)
    ensures r <= 5
    ensures StateOfCode(r) == Some(s)
  {
    match s
    case Unknown => 0
    case Moving => 1
    case Building => 2
    case Harvesting => 3
    case Transfering => 4
    case Repairing => 5
  }

  /** The state a persisted numeric id stands for, if any. */
  function StateOfCode(n: int): Option<WorkerState>
  {
    if n == 0 then Some(Unknown)
    else if n == 1 then Some(Moving)
    else if n == 2 then Some(Building)
    else if n == 3 then Some(Harvesting)
    else if n == 4 then Some(Transfering)
    else if n == 5 then Some(Repairing)
    else None
  }

  /** The memory each state owns. */
  datatype WorkerMemory =
    | MovingMemory(target: RoomPosition, path: Option<string>)
    | HarvestingMemory(targetId: string)
    | TransferingMemory(targetId: string)

  /** What the handlers can see of the creep. */
  datatype CreepView = CreepView(pos: RoomPosition, freeCapacity: int, usedCapacity: int)

  /** The fixed task of every worker: the ids of the energy source and of the controller. */
  datatype WorkerTask = WorkerTask(sourceId: string, controllerId: string)

  /**
   * The execution context `{creep, task}` together with what the handlers look up in the
   * world: the positions of the task's source and controller, the free energy capacity of
   * objects with a store, and the serialized path `findPathTo` yields from the creep to a target.
   */
  datatype WorkerContext = WorkerContext(
    creep: CreepView,
    task: WorkerTask,
    sourcePos: RoomPosition,
    controllerPos: RoomPosition,
    storeFree: map<string, int>,
    serializedPathTo: RoomPosition -> string)

  const SourceId: string := "884707717df4411"
  const ControllerId: string := "e84207717df82e1"

  type Ctx = WorkerContext
  type Mem = Option<WorkerMemory>

  // ---------------------------------------------------------------------------
  // Handlers
  // ---------------------------------------------------------------------------

  /** The creep's actions take effect in the world only; context and memory stay as they are. */
  function ActOnWorld(ctx: Ctx, mem: Mem): (Ctx, Mem)
  {
    (ctx, mem)
  }

  /** MOVING `onEnter`: plans the path to the target and stores it in the memory. */
  function MovingOnEnter(ctx: Ctx, mem: Mem): (Ctx, Mem)
  {
    if mem.Some? && mem.value.MovingMemory? then
      (ctx, Some(MovingMemory(mem.value.target, Some(ctx.serializedPathTo(mem.value.target)))))
    else (ctx, mem)
  }

  /** MOVING `isFinished`: the creep is within one tile of the target. */
  predicate MovingFinished(ctx: Ctx, mem: Mem)
  {
    mem.Some? && mem.value.MovingMemory? && InRangeTo(ctx.creep.pos, mem.value.target, 1)
  }

  /** HARVESTING `isFinished`: the creep has no free capacity left. */
  predicate HarvestingFinished(ctx: Ctx, mem: Mem)
  {
    ctx.creep.freeCapacity <= 0
  }

  /**
   * TRANSFERING `isFinished`: the creep is empty, or the target has a store and it is full
   * (a target without a store compares `undefined <= 0`, which is false).
   */
  predicate TransferingFinished(ctx: Ctx, mem: Mem)
  {
    || ctx.creep.usedCapacity <= 0
    || (mem.Some? && mem.value.TransferingMemory? && mem.value.targetId in ctx.storeFree
        && ctx.storeFree[mem.value.targetId] <= 0)
  }

  /** TRANSFERING `onExit`: a placeholder that does nothing. */
  function TransferingOnExit(ctx: Ctx, mem: Mem): (Ctx, Mem)
  {
    (ctx, mem)
  }

  predicate HasFreeCapacity(ctx: Ctx, mem: Mem) { ctx.creep.freeCapacity > 0 }
  predicate IsFull(ctx: Ctx, mem: Mem) { ctx.creep.freeCapacity <= 0 }
  predicate IsEmpty(ctx: Ctx, mem: Mem) { ctx.creep.usedCapacity <= 0 }
  predicate Always(ctx: Ctx, mem: Mem) { true }

  function ToSource(ctx: Ctx, mem: Mem): WorkerMemory { MovingMemory(ctx.sourcePos, None) }
  function HarvestSource(ctx: Ctx, mem: Mem): WorkerMemory { HarvestingMemory(ctx.task.sourceId) }
  function ToController(ctx: Ctx, mem: Mem): WorkerMemory { MovingMemory(ctx.controllerPos, None) }
  function TransferToController(ctx: Ctx, mem: Mem): WorkerMemory { TransferingMemory(ctx.task.controllerId) }

  function MovingHandlers(): StateHandler<WorkerMemory, Ctx>
  {
    StateHandler(Some(MovingOnEnter), None, Some(ActOnWorld), Some(MovingFinished))
  }

  function HarvestingHandlers(): StateHandler<WorkerMemory, Ctx>
  {
    StateHandler(None, None, Some(ActOnWorld), Some(HarvestingFinished))
  }

  function TransferingHandlers(): StateHandler<WorkerMemory, Ctx>
  {
    StateHandler(None, Some(TransferingOnExit), Some(ActOnWorld), Some(TransferingFinished))
  }

  /** The transitions of `workerStateMachine`, in declaration order. */
  function WorkerTransitions(): seq<Transition<WorkerState, WorkerMemory, Ctx>>
  {
    [ Transition(Unknown, Moving, None, Some(ToSource)),
      Transition(Moving, Harvesting, Some(HasFreeCapacity), Some(HarvestSource)),
      Transition(Harvesting, Moving, Some(Always), Some(ToController)),
      Transition(Moving, Transfering, Some(IsFull), Some(TransferToController)),
      Transition(Transfering, Unknown, Some(IsEmpty), None) ]
  }

  /** `workerStateMachine`: handlers for MOVING, HARVESTING and TRANSFERING, and the five transitions. */
  function WorkerMachine(): Config<WorkerState, WorkerMemory, Ctx>
  {
    Config(map[Moving := MovingHandlers(), Harvesting := HarvestingHandlers(), Transfering := TransferingHandlers()],
           WorkerTransitions())
  }

  /** The builder chain that defines the machine produces exactly `WorkerMachine()`. */
  method BuildWorkerMachine() returns (config: Config<WorkerState, WorkerMemory, Ctx>)
    ensures config.states == WorkerMachine().states && config.transitions == WorkerMachine().transitions
  {
    var b := new StateMachineBuilder<WorkerState, WorkerMemory, Ctx>();
    b := b.AddState(Moving, MovingHandlers());
    b := b.AddState(Harvesting, HarvestingHandlers());
    b := b.AddState(Transfering, TransferingHandlers());
    b := b.AddTransition(Unknown, Moving, None, Some(ToSource));
    b := b.AddTransition(Moving, Harvesting, Some(HasFreeCapacity), Some(HarvestSource));
    b := b.AddTransition(Harvesting, Moving, Some(Always), Some(ToController));
    b := b.AddTransition(Moving, Transfering, Some(IsFull), Some(TransferToController));
    b := b.AddTransition(Transfering, Unknown, Some(IsEmpty), None);
    config := b.Build();
  }

  // ---------------------------------------------------------------------------
  // One step per state
  // ---------------------------------------------------------------------------

  /** Every state's `onTick` leaves context and memory as they were. */
  lemma AfterTickKeeps(s: WorkerState, ctx: Ctx, mem: Mem)
    ensures AfterTick(WorkerMachine(), s, ctx, mem) == (ctx, mem)
  {
  }

  /** UNKNOWN has no handlers, so it is always finished and moves at once towards the source, with a planned path. */
  lemma UnknownStep(mem: Mem, ctx: Ctx)
    ensures var r := Step(WorkerMachine(), Unknown, mem, ctx);
      && r.fired == Some(0) && r.state == Moving
      && r.memory == Some(MovingMemory(ctx.sourcePos, Some(ctx.serializedPathTo(ctx.sourcePos))))
  {
    var config := WorkerMachine();
    AfterTickKeeps(Unknown, ctx, mem);
    assert HandlerOf(config, Unknown).None? && HandlerOf(config, Moving) == Some(MovingHandlers());
    assert FirstFrom(config.transitions, Unknown, 0, 0, ctx, mem);
    StepTakes(config, Unknown, mem, ctx, 0);
  }

  /** MOVING stays while the creep is not within one tile of its target, with memory untouched. */
  lemma MovingWaits(target: RoomPosition, path: Option<string>, ctx: Ctx)
    requires !InRangeTo(ctx.creep.pos, target, 1)
    ensures var mem := Some(MovingMemory(target, path));
      var r := Step(WorkerMachine(), Moving, mem, ctx);
      r.fired.None? && r.state == Moving && r.memory == mem
  {
    var mem := Some(MovingMemory(target, path));
    AfterTickKeeps(Moving, ctx, mem);
    assert HandlerOf(WorkerMachine(), Moving) == Some(MovingHandlers());
    assert !IsFinished(WorkerMachine(), Moving, ctx, mem);
    StepStays(WorkerMachine(), Moving, mem, ctx);
  }

  /** An arrived MOVING creep with free capacity starts harvesting the source. */
  lemma MovingToHarvesting(target: RoomPosition, path: Option<string>, ctx: Ctx)
    requires InRangeTo(ctx.creep.pos, target, 1) && ctx.creep.freeCapacity > 0
    ensures var r := Step(WorkerMachine(), Moving, Some(MovingMemory(target, path)), ctx);
      r.fired == Some(1) && r.state == Harvesting && r.memory == Some(HarvestingMemory(ctx.task.sourceId))
  {
    var mem := Some(MovingMemory(target, path));
    var config := WorkerMachine();
    var ts := config.transitions;
    AfterTickKeeps(Moving, ctx, mem);
    assert HandlerOf(config, Moving) == Some(MovingHandlers()) && HandlerOf(config, Harvesting) == Some(HarvestingHandlers());
    assert IsFinished(config, Moving, ctx, mem);
    assert FirstFrom(ts, Moving, 0, 1, ctx, mem) by {
      assert ts[0].from == Unknown;
    }
    StepTakes(config, Moving, mem, ctx, 1);
  }

  /** An arrived MOVING creep without free capacity starts transferring to the controller. */
  lemma MovingToTransfering(target: RoomPosition, path: Option<string>, ctx: Ctx)
    requires InRangeTo(ctx.creep.pos, target, 1) && ctx.creep.freeCapacity <= 0
    ensures var r := Step(WorkerMachine(), Moving, Some(MovingMemory(target, path)), ctx);
      r.fired == Some(3) && r.state == Transfering && r.memory == Some(TransferingMemory(ctx.task.controllerId))
  {
    var mem := Some(MovingMemory(target, path));
    var config := WorkerMachine();
    var ts := config.transitions;
    AfterTickKeeps(Moving, ctx, mem);
    assert HandlerOf(config, Moving) == Some(MovingHandlers()) && HandlerOf(config, Transfering) == Some(TransferingHandlers());
    assert IsFinished(config, Moving, ctx, mem);
    assert FirstFrom(ts, Moving, 0, 3, ctx, mem) by {
      assert ts[0].from == Unknown && ts[2].from == Harvesting;
      assert !Qualifies(ts[1], ctx, mem);
    }
    StepTakes(config, Moving, mem, ctx, 3);
  }

  /**
   * A MOVING creep that has arrived always moves on: to HARVESTING at the source while it has
   * free capacity, otherwise to TRANSFERING at the controller.
   */
  lemma MovingArrives(target: RoomPosition, path: Option<string>, ctx: Ctx)
    requires InRangeTo(ctx.creep.pos, target, 1)
    ensures var r := Step(WorkerMachine(), Moving, Some(MovingMemory(target, path)), ctx);
      && (ctx.creep.freeCapacity > 0 ==>
            r.fired == Some(1) && r.state == Harvesting && r.memory == Some(HarvestingMemory(ctx.task.sourceId)))
      && (ctx.creep.freeCapacity <= 0 ==>
            r.fired == Some(3) && r.state == Transfering && r.memory == Some(TransferingMemory(ctx.task.controllerId)))
  {
    if ctx.creep.freeCapacity > 0 {
      MovingToHarvesting(target, path, ctx);
    } else {
      MovingToTransfering(target, path, ctx);
    }
  }

  /** HARVESTING stays while the creep has free capacity. */
  lemma HarvestingWaits(mem: Mem, ctx: Ctx)
    requires ctx.creep.freeCapacity > 0
    ensures var r := Step(WorkerMachine(), Harvesting, mem, ctx); r.fired.None? && r.state == Harvesting && r.memory == mem
  {
    AfterTickKeeps(Harvesting, ctx, mem);
    assert HandlerOf(WorkerMachine(), Harvesting) == Some(HarvestingHandlers());
    assert !IsFinished(WorkerMachine(), Harvesting, ctx, mem);
    StepStays(WorkerMachine(), Harvesting, mem, ctx);
  }

  /** A full HARVESTING creep heads for the controller, with a planned path. */
  lemma HarvestingToMoving(mem: Mem, ctx: Ctx)
    requires ctx.creep.freeCapacity <= 0
    ensures var r := Step(WorkerMachine(), Harvesting, mem, ctx);
      && r.fired == Some(2) && r.state == Moving
      && r.memory == Some(MovingMemory(ctx.controllerPos, Some(ctx.serializedPathTo(ctx.controllerPos))))
  {
    var config := WorkerMachine();
    var ts := config.transitions;
    AfterTickKeeps(Harvesting, ctx, mem);
    assert HandlerOf(config, Harvesting) == Some(HarvestingHandlers()) && HandlerOf(config, Moving) == Some(MovingHandlers());
    assert IsFinished(config, Harvesting, ctx, mem);
    assert FirstFrom(ts, Harvesting, 0, 2, ctx, mem) by {
      assert ts[0].from == Unknown && ts[1].from == Moving;
    }
    StepTakes(config, Harvesting, mem, ctx, 2);
  }

  /** HARVESTING stays until the creep is full, then heads for the controller with a planned path. */
  lemma HarvestingStep(mem: Mem, ctx: Ctx)
    ensures var r := Step(WorkerMachine(), Harvesting, mem, ctx);
      && (ctx.creep.freeCapacity > 0 ==> r.fired.None? && r.state == Harvesting && r.memory == mem)
      && (ctx.creep.freeCapacity <= 0 ==>
            && r.fired == Some(2) && r.state == Moving
            && r.memory == Some(MovingMemory(ctx.controllerPos, Some(ctx.serializedPathTo(ctx.controllerPos)))))
  {
    if ctx.creep.freeCapacity > 0 {
      HarvestingWaits(mem, ctx);
    } else {
      HarvestingToMoving(mem, ctx);
    }
  }

  /** An empty TRANSFERING creep starts over in UNKNOWN, with no memory. */
  lemma TransferingToUnknown(mem: Mem, ctx: Ctx)
    requires ctx.creep.usedCapacity <= 0
    ensures var r := Step(WorkerMachine(), Transfering, mem, ctx);
      r.fired == Some(4) && r.state == Unknown && r.memory == None
  {
    var config := WorkerMachine();
    var ts := config.transitions;
    AfterTickKeeps(Transfering, ctx, mem);
    assert HandlerOf(config, Transfering) == Some(TransferingHandlers()) && HandlerOf(config, Unknown).None?;
    assert IsFinished(config, Transfering, ctx, mem);
    assert FirstFrom(ts, Transfering, 0, 4, ctx, mem) by {
      assert ts[0].from == Unknown && ts[1].from == Moving && ts[2].from == Harvesting && ts[3].from == Moving;
    }
    StepTakes(config, Transfering, mem, ctx, 4);
  }

  /** A TRANSFERING creep that still holds energy stays, whether or not the target is full. */
  lemma TransferingWaits(mem: Mem, ctx: Ctx)
    requires ctx.creep.usedCapacity > 0
    ensures var r := Step(WorkerMachine(), Transfering, mem, ctx);
      r.fired.None? && r.state == Transfering && r.memory == mem
  {
    var config := WorkerMachine();
    var ts := config.transitions;
    AfterTickKeeps(Transfering, ctx, mem);
    assert NoneQualifies(ts, Transfering, 0, ctx, mem) by {
      assert ts[0].from == Unknown && ts[1].from == Moving && ts[2].from == Harvesting && ts[3].from == Moving;
      assert !Qualifies(ts[4], ctx, mem);
    }
    StepStays(config, Transfering, mem, ctx);
  }

  /**
   * TRANSFERING goes back to UNKNOWN, with no memory, exactly when the creep is empty. A creep
   * that finished because the target is full while it still holds energy stays in TRANSFERING.
   */
  lemma TransferingStep(mem: Mem, ctx: Ctx)
    ensures var r := Step(WorkerMachine(), Transfering, mem, ctx);
      && (ctx.creep.usedCapacity <= 0 ==> r.fired == Some(4) && r.state == Unknown && r.memory == None)
      && (ctx.creep.usedCapacity > 0 ==> r.fired.None? && r.state == Transfering && r.memory == mem)
  {
    if ctx.creep.usedCapacity <= 0 {
      TransferingToUnknown(mem, ctx);
    } else {
      TransferingWaits(mem, ctx);
    }
  }

  /**
   * A creep whose transfer target is full while it still holds energy counts as finished, yet
   * the only transition out of TRANSFERING wants it empty, so it stays in TRANSFERING.
   */
  lemma FullTargetKeepsTransfering(targetId: string, ctx: Ctx)
    requires ctx.creep.usedCapacity > 0 && targetId in ctx.storeFree && ctx.storeFree[targetId] <= 0
    ensures var mem := Some(TransferingMemory(targetId));
      && IsFinished(WorkerMachine(), Transfering, ctx, mem)
      && Step(WorkerMachine(), Transfering, mem, ctx).state == Transfering
  {
    var mem := Some(TransferingMemory(targetId));
    assert WorkerMachine().states[Transfering] == TransferingHandlers();
    TransferingStep(mem, ctx);
  }

  /** Leaving TRANSFERING calls its (empty) `onExit` before the state changes. */
  lemma TransferingExitCalled(mem: Mem, ctx: Ctx)
    requires ctx.creep.usedCapacity <= 0
    ensures Exited(Transfering, mem) in Step(WorkerMachine(), Transfering, mem, ctx).trace
  {
    TransferingStep(mem, ctx);
    StepCases(WorkerMachine(), Transfering, mem, ctx);
  }

  /** No transition leads to BUILDING or REPAIRING, so a worker that starts elsewhere never reaches them. */
  lemma BuildingAndRepairingUnreachable(s: WorkerState, mem: Mem, ctxs: seq<Ctx>)
    requires s != Building && s != Repairing
    ensures Building !in Visited(WorkerMachine(), s, mem, ctxs) && Repairing !in Visited(WorkerMachine(), s, mem, ctxs)
  {
    NeverTargetedNeverVisited(WorkerMachine(), Building, s, mem, ctxs);
    NeverTargetedNeverVisited(WorkerMachine(), Repairing, s, mem, ctxs);
  }

  // ---------------------------------------------------------------------------
  // Memory always matches the state
  // ---------------------------------------------------------------------------

  /**
   * The memory has the shape of the current state: none in UNKNOWN, a target with a planned
   * path in MOVING, a target id in HARVESTING and TRANSFERING.
   */
  predicate MemoryMatches(s: WorkerState, mem: Mem)
  {
    match s
    case Unknown => mem.None?
    case Moving => mem.Some? && mem.value.MovingMemory? && mem.value.path.Some?
    case Harvesting => mem.Some? && mem.value.HarvestingMemory?
    case Transfering => mem.Some? && mem.value.TransferingMemory?
    case Building => true
    case Repairing => true
  }

  /** BUILDING and REPAIRING have no handlers and no transitions leave them: a worker there stays put. */
  lemma UnhandledStays(s: WorkerState, mem: Mem, ctx: Ctx)
    requires s == Building || s == Repairing
    ensures var r := Step(WorkerMachine(), s, mem, ctx); r.fired.None? && r.state == s && r.memory == mem
  {
    var config := WorkerMachine();
    var ts := config.transitions;
    AfterTickKeeps(s, ctx, mem);
    assert NoneQualifies(ts, s, 0, ctx, mem) by {
      assert ts[0].from == Unknown && ts[1].from == Moving && ts[2].from == Harvesting;
      assert ts[3].from == Moving && ts[4].from == Transfering;
    }
    StepStays(config, s, mem, ctx);
  }

  /** Every step keeps the memory matching the state. */
  lemma StepKeepsMemoryMatching(s: WorkerState, mem: Mem, ctx: Ctx)
    requires MemoryMatches(s, mem)
    ensures var r := Step(WorkerMachine(), s, mem, ctx); MemoryMatches(r.state, r.memory)
  {
    match s
    case Unknown => UnknownStep(mem, ctx);
    case Moving =>
      if InRangeTo(ctx.creep.pos, mem.value.target, 1) {
        MovingArrives(mem.value.target, mem.value.path, ctx);
      } else {
        MovingWaits(mem.value.target, mem.value.path, ctx);
      }
    case Harvesting => HarvestingStep(mem, ctx);
    case Transfering => TransferingStep(mem, ctx);
    case Building => UnhandledStays(s, mem, ctx);
    case Repairing => UnhandledStays(s, mem, ctx);
  }

  /** A freshly spawned worker (UNKNOWN, no memory) keeps its memory matching its state over any run. */
  lemma {:induction false} RunKeepsMemoryMatching(s: WorkerState, mem: Mem, ctxs: seq<Ctx>)
    requires MemoryMatches(s, mem)
    ensures var (s', mem') := RunWorker(s, mem, ctxs); MemoryMatches(s', mem')
    decreases |ctxs|
  {
    if ctxs != [] {
      var r := Step(WorkerMachine(), s, mem, ctxs[0]);
      StepKeepsMemoryMatching(s, mem, ctxs[0]);
      RunKeepsMemoryMatching(r.state, r.memory, ctxs[1..]);
    }
  }

  /** The state and memory after one engine step per context in `ctxs`. */
  function RunWorker(s: WorkerState, mem: Mem, ctxs: seq<Ctx>): (WorkerState, Mem)
    decreases |ctxs|
  {
    if ctxs == [] then (s, mem)
    else
      var r := Step(WorkerMachine(), s, mem, ctxs[0]);
      RunWorker(r.state, r.memory, ctxs[1..])
  }

  // ---------------------------------------------------------------------------
  // The per-creep entry points
  // ---------------------------------------------------------------------------

  /** `creep.memory`: the role and the machine record. */
  class CreepMemory {
    const role: string
    const machine: StateMachineContext<WorkerState, WorkerMemory>

    constructor (role: string, machine: StateMachineContext<WorkerState, WorkerMemory>)
      ensures this.role == role && this.machine == machine
    {
      this.role := role;
      this.machine := machine;
    }
  }

  /**
   * `runWorkerStateMachine`: one engine step on the record in the creep's memory, with the fixed
   * task ids and what the world shows this tick; the role is left alone.
   */
  method RunWorkerStateMachine(creepMemory: CreepMemory, creep: CreepView,
                               sourcePos: RoomPosition, controllerPos: RoomPosition, storeFree: map<string, int>,
                               serializedPathTo: RoomPosition -> string)
    modifies creepMemory.machine
    ensures var ctx := WorkerContext(creep, WorkerTask(SourceId, ControllerId), sourcePos, controllerPos, storeFree, serializedPathTo);
      var r := Step(WorkerMachine(), old(creepMemory.machine.state), old(creepMemory.machine.memory), ctx);
      creepMemory.machine.state == r.state && creepMemory.machine.memory == r.memory
  {
    var ctx := WorkerContext(creep, WorkerTask(SourceId, ControllerId), sourcePos, controllerPos, storeFree, serializedPathTo);
    var _, _ := RunStateMachine(WorkerMachine(), creepMemory.machine, ctx);
  }

  // ---------------------------------------------------------------------------
  // Spawning
  // ---------------------------------------------------------------------------

  datatype BodyPart = Move | Work | Carry

  const WorkerRole: string := "WORKER"
  const SpawnEnergyFloor: int := 250

  /** The arguments of `spawner.spawnCreep`: body, name and the new creep's initial memory. */
  datatype SpawnRequest = SpawnRequest(body: seq<BodyPart>, name: string, role: string, state: WorkerState)

  /** The decimal digits of `n`. */
  function DecimalString(n: nat): (r: string)
    ensures |r| >= 1 && forall i :: 0 <= i < |r| ==> '0' <= r[i] <= '9'
    decreases n
  {
    var digit := ['0' + (n % 10) as char];
    if n < 10 then digit else DecimalString(n / 10) + digit
  }

  /** The number a string of decimal digits denotes. */
  function DecimalValue(s: string): nat
    decreases |s|
  {
    if s == [] then 0
    else 10 * DecimalValue(s[..|s| - 1]) + (if '0' <= s[|s| - 1] <= '9' then (s[|s| - 1] - '0') as nat else 0)
  }

  /** The name suffix reads back as the game time it was made from, so names of different ticks differ. */
  lemma {:induction false} DecimalRoundTrip(n: nat)
    ensures DecimalValue(DecimalString(n)) == n
    decreases n
  {
    var r := DecimalString(n);
    if n >= 10 {
      DecimalRoundTrip(n / 10);
      assert r[..|r| - 1] == DecimalString(n / 10);
    }
  }

  /** `spawnCreepWorker`: what is spawned, if anything, by a spawner this tick at game time `time`. */
  function SpawnCreepWorker(spawning: bool, spawnerEnergy: int, time: nat): (r: Option<SpawnRequest>)
    ensures r.Some? <==> !spawning && spawnerEnergy > SpawnEnergyFloor
    ensures r.Some? ==>
      && r.value.body == [Move, Move, Work, Carry]
      && r.value.name == "worker-" + DecimalString(time)
      && r.value.role == WorkerRole && r.value.state == Unknown
  {
    if spawning then None
    else if spawnerEnergy <= SpawnEnergyFloor then None
    else Some(SpawnRequest([Move, Move, Work, Carry], "worker-" + DecimalString(time), WorkerRole, Unknown))
  }

  /** A newly spawned worker starts in UNKNOWN without memory, which matches its state. */
  lemma SpawnedWorkerMatches(spawning: bool, spawnerEnergy: int, time: nat)
    requires SpawnCreepWorker(spawning, spawnerEnergy, time).Some?
    ensures MemoryMatches(SpawnCreepWorker(spawning, spawnerEnergy, time).value.state, None)
  {
  }
}
