/**
 * The generic finite-state-machine engine: a declarative model of states and
 * transitions, a builder that records them, and `runStateMachine`, which moves a
 * mutable {state, memory} record forward by at most one transition per call.
 *
 * Handlers receive the execution context explicitly (the original binds it as the
 * receiver). The handlers that act on the world (`onTick`, `onExit`, `onEnter`) are
 * modelled as functions from (context, memory) to a new context and a new memory,
 * since a handler may mutate the memory object it is given. Guards and `isFinished`
 * are predicates of (context, memory), and `onTransition` maps them to the memory of
 * the destination state. Every handler call is recorded in an event trace together
 * with the memory the handler received, so that the order of the calls is observable.
 */
module StateMachine {
  import opened Optional
  import opened Sequences

  type Effect<!M, !C> = (C, Option<M>) -> (C, Option<M>)
  type Query<!M, !C> = (C, Option<M>) -> bool
  type Mapping<!M, !C> = (C, Option<M>) -> M

  /** The optional lifecycle handlers of one state. */
  datatype StateHandler<!M, !C> = StateHandler(
    onEnter: Option<Effect<M, C>>,
    onExit: Option<Effect<M, C>>,
    onTick: Option<Effect<M, C>>,
    isFinished: Option<Query<M, C>>)

  /** A directed edge with an optional guard and an optional memory mapping. */
  datatype Transition<S, !M, !C> = Transition(
    from: S,
    to: S,
    condition: Option<Query<M, C>>,
    onTransition: Option<Mapping<M, C>>)

  /** What `build()` returns: the registered states and the transitions in declaration order. */
  datatype Config<S(==), !M, !C> = Config(
    states: map<S, StateHandler<M, C>>,
    transitions: seq<Transition<S, M, C>>)

  /** One handler call, with the memory the handler was given. Indices are positions in `transitions`. */
  datatype Event<S, M> =
    | Ticked(state: S, memory: Option<M>)
    | FinishedAsked(state: S, memory: Option<M>)
    | GuardAsked(index: nat, memory: Option<M>)
    | Exited(state: S, memory: Option<M>)
    | Mapped(index: nat, memory: Option<M>)
    | Entered(state: S, memory: Option<M>)

  /** The result of one engine step: the new record, the context the handlers left, the calls made, and the fired transition. */
  datatype Outcome<S, M, C> = Outcome(
    state: S,
    memory: Option<M>,
    ctx: C,
    trace: seq<Event<S, M>>,
    fired: Option<nat>)

  /** The mutable {state, memory} record the engine advances in place. */
  class StateMachineContext<S, M> {
    var state: S
    var memory: Option<M>

    constructor (state: S, memory: Option<M>)
      ensures this.state == state && this.memory == memory
    {
      this.state := state;
      this.memory := memory;
    }
  }

  // ---------------------------------------------------------------------------
  // The builder
  // ---------------------------------------------------------------------------

  /** Records states in a map and transitions in an ordered list. */
  class StateMachineBuilder<S(==), M, C> {
    var states: map<S, StateHandler<M, C>>
    var transitions: seq<Transition<S, M, C>>

    constructor ()
      ensures states == map[] && transitions == []
    {
      states := map[];
      transitions := [];
    }

    /** Registers `handlers` under `id`, replacing any handlers registered before under that id. */
    method AddState(id: S, handlers: StateHandler<M, C>) returns (builder: StateMachineBuilder<S, M, C>)
      modifies this
      ensures builder == this
      ensures states == old(states)[id := handlers]
      ensures transitions == old(transitions)
    {
      states := states[id := handlers];
      builder := this;
    }

    /** Appends a transition, so that transitions keep their insertion order. */
    method AddTransition(from: S, to: S, condition: Option<Query<M, C>>, onTransition: Option<Mapping<M, C>>)
      returns (builder: StateMachineBuilder<S, M, C>)
      modifies this
      ensures builder == this
      ensures transitions == old(transitions) + [Transition(from, to, condition, onTransition)]
      ensures states == old(states)
    {
      transitions := transitions + [Transition(from, to, condition, onTransition)];
      builder := this;
    }

    method Build() returns (config: Config<S, M, C>)
      ensures config.states == states && config.transitions == transitions
    {
      config := Config(states, transitions);
    }
  }

  // ---------------------------------------------------------------------------
  // The specification of one step
  // ---------------------------------------------------------------------------

  function HandlerOf<S(==), M, C>(config: Config<S, M, C>, s: S): Option<StateHandler<M, C>>
  {
    if s in config.states then Some(config.states[s]) else None
  }

  function OnTickOf<M, C>(h: Option<StateHandler<M, C>>): Option<Effect<M, C>>
  {
    if h.Some? then h.value.onTick else None
  }

  function OnExitOf<M, C>(h: Option<StateHandler<M, C>>): Option<Effect<M, C>>
  {
    if h.Some? then h.value.onExit else None
  }

  function OnEnterOf<M, C>(h: Option<StateHandler<M, C>>): Option<Effect<M, C>>
  {
    if h.Some? then h.value.onEnter else None
  }

  function IsFinishedOf<M, C>(h: Option<StateHandler<M, C>>): Option<Query<M, C>>
  {
    if h.Some? then h.value.isFinished else None
  }

  /** Runs an optional effect; an absent handler is a no-op. */
  function Apply<M, C>(e: Option<Effect<M, C>>, ctx: C, mem: Option<M>): (C, Option<M>)
  {
    if e.Some? then e.value(ctx, mem) else (ctx, mem)
  }

  /** Records a call when the handler exists. */
  function Called<S, M>(present: bool, e: Event<S, M>): seq<Event<S, M>>
  {
    if present then [e] else []
  }

  /** What the current state's `onTick` leaves behind (context and memory). */
  function AfterTick<S(==), M, C>(config: Config<S, M, C>, s: S, ctx: C, mem: Option<M>): (C, Option<M>)
  {
    Apply(OnTickOf(HandlerOf(config, s)), ctx, mem)
  }

  /** Whether state `s` counts as finished; a missing state entry or a missing `isFinished` counts as finished. */
  function IsFinished<S(==), M, C>(config: Config<S, M, C>, s: S, ctx: C, mem: Option<M>): (r: bool)
    ensures s !in config.states || config.states[s].isFinished.None? ==> r
    ensures s in config.states && config.states[s].isFinished.Some? ==> r == config.states[s].isFinished.value(ctx, mem)
  {
    var q := IsFinishedOf(HandlerOf(config, s));
    if q.Some? then q.value(ctx, mem) else true
  }

  /** A transition qualifies when its guard holds or it has none. */
  predicate Qualifies<S, M, C>(t: Transition<S, M, C>, ctx: C, mem: Option<M>)
  {
    t.condition.None? || t.condition.value(ctx, mem)
  }

  /** The indices at or after `lo` of the transitions leaving `s`, in declaration order (the `filter`). */
  function ApplicableFrom<S(==), M, C>(ts: seq<Transition<S, M, C>>, s: S, lo: nat): (r: seq<nat>)
    requires lo <= |ts|
    decreases |ts| - lo
    ensures forall k :: 0 <= k < |r| ==> lo <= r[k] < |ts| && ts[r[k]].from == s
    ensures forall k, l :: 0 <= k < l < |r| ==> r[k] < r[l]
    ensures forall i :: lo <= i < |ts| && ts[i].from == s ==> i in r
  {
    if lo == |ts| then []
    else (if ts[lo].from == s then [lo] else []) + ApplicableFrom(ts, s, lo + 1)
  }

  function Applicable<S(==), M, C>(ts: seq<Transition<S, M, C>>, s: S): seq<nat>
  {
    ApplicableFrom(ts, s, 0)
  }

  ghost predicate ValidIndices<S, M, C>(ts: seq<Transition<S, M, C>>, idx: seq<nat>)
  {
    forall k :: 0 <= k < |idx| ==> idx[k] < |ts|
  }

  ghost predicate Increasing(idx: seq<nat>)
  {
    forall k, l :: 0 <= k < l < |idx| ==> idx[k] < idx[l]
  }

  /** The first of the listed transitions that qualifies. */
  function FirstQualifying<S, M, C>(ts: seq<Transition<S, M, C>>, idx: seq<nat>, ctx: C, mem: Option<M>): (r: Option<nat>)
    requires ValidIndices(ts, idx)
    ensures r.Some? ==> r.value in idx && Qualifies(ts[r.value], ctx, mem)
  {
    if idx == [] then None
    else if Qualifies(ts[idx[0]], ctx, mem) then Some(idx[0])
    else FirstQualifying(ts, idx[1..], ctx, mem)
  }

  /** The guard calls made while looking for the first qualifying transition. */
  function GuardTrace<S, M, C>(ts: seq<Transition<S, M, C>>, idx: seq<nat>, ctx: C, mem: Option<M>): seq<Event<S, M>>
    requires ValidIndices(ts, idx)
  {
    if idx == [] then []
    else
      Called(ts[idx[0]].condition.Some?, GuardAsked(idx[0], mem))
      + (if Qualifies(ts[idx[0]], ctx, mem) then [] else GuardTrace(ts, idx[1..], ctx, mem))
  }

  /** One iteration of the scan over the applicable transitions, from position `k`. */
  lemma ScanStep<S, M, C>(ts: seq<Transition<S, M, C>>, idx: seq<nat>, k: nat, ctx: C, mem: Option<M>)
    requires ValidIndices(ts, idx) && k < |idx|
    ensures var t := ts[idx[k]];
      && GuardTrace(ts, idx[k..], ctx, mem)
         == Called(t.condition.Some?, GuardAsked(idx[k], mem))
            + (if Qualifies(t, ctx, mem) then [] else GuardTrace(ts, idx[k + 1..], ctx, mem))
      && FirstQualifying(ts, idx[k..], ctx, mem)
         == (if Qualifies(t, ctx, mem) then Some(idx[k]) else FirstQualifying(ts, idx[k + 1..], ctx, mem))
  {
    assert idx[k..][1..] == idx[k + 1..];
  }

  /** Firing transition `i` from `s`: onExit, onTransition, the state change, onEnter. */
  function Fire<S(==), M, C>(config: Config<S, M, C>, s: S, i: nat, ctx: C, mem: Option<M>, pre: seq<Event<S, M>>): Outcome<S, M, C>
    requires i < |config.transitions|
  {
    var t := config.transitions[i];
    var exit := OnExitOf(HandlerOf(config, s));
    var (c2, m2) := Apply(exit, ctx, mem);
    var newMemory := if t.onTransition.Some? then Some(t.onTransition.value(c2, m2)) else None;
    var enter := OnEnterOf(HandlerOf(config, t.to));
    var (c3, m3) := Apply(enter, c2, newMemory);
    Outcome(t.to, m3, c3,
      pre + Called(exit.Some?, Exited(s, mem)) + Called(t.onTransition.Some?, Mapped(i, m2))
          + Called(enter.Some?, Entered(t.to, newMemory)),
      Some(i))
  }

  /** One call of `runStateMachine` on a record in state `s` with memory `mem`. */
  function Step<S(==), M, C>(config: Config<S, M, C>, s: S, mem: Option<M>, ctx: C): Outcome<S, M, C>
  {
    var h := HandlerOf(config, s);
    var (c1, m1) := AfterTick(config, s, ctx, mem);
    var pre := Called(OnTickOf(h).Some?, Ticked(s, mem)) + Called(IsFinishedOf(h).Some?, FinishedAsked(s, m1));
    if !IsFinished(config, s, c1, m1) then Outcome(s, m1, c1, pre, None)
    else
      var idx := Applicable(config.transitions, s);
      var guards := GuardTrace(config.transitions, idx, c1, m1);
      match FirstQualifying(config.transitions, idx, c1, m1)
      case None => Outcome(s, m1, c1, pre + guards, None)
      case Some(i) => Fire(config, s, i, c1, m1, pre + guards)
  }

  // ---------------------------------------------------------------------------
  // The engine
  // ---------------------------------------------------------------------------

  /** `runStateMachine`: advances `record` in place by at most one transition. */
  method RunStateMachine<S(==), M, C>(config: Config<S, M, C>, record: StateMachineContext<S, M>, runContext: C)
    returns (context: C, trace: seq<Event<S, M>>)
    modifies record
    ensures var r := Step(config, old(record.state), old(record.memory), runContext);
      record.state == r.state && record.memory == r.memory && context == r.ctx && trace == r.trace
  {
    var currentState := HandlerOf(config, record.state);
    var finished;
    context, trace, finished := TickAndAsk(config, record, runContext);
    StepCases(config, old(record.state), old(record.memory), runContext);
    if finished {
      var applicable := Applicable(config.transitions, record.state);
      var found, guards := ScanTransitions(config.transitions, applicable, context, record.memory);
      trace := trace + guards;
      if found.Some? {
        context, trace := TakeTransition(config, currentState, record, found.value, context, trace);
      }
    }
  }

  /** The first part of `runStateMachine`: runs `onTick` and asks `isFinished`, both optional. */
  method TickAndAsk<S(==), M, C>(config: Config<S, M, C>, record: StateMachineContext<S, M>, runContext: C)
    returns (context: C, trace: seq<Event<S, M>>, finished: bool)
    modifies record
    ensures record.state == old(record.state)
    ensures (context, record.memory) == AfterTick(config, record.state, runContext, old(record.memory))
    ensures finished == IsFinished(config, record.state, context, record.memory)
    ensures var h := HandlerOf(config, record.state);
      trace == Called(OnTickOf(h).Some?, Ticked(record.state, old(record.memory)))
             + Called(IsFinishedOf(h).Some?, FinishedAsked(record.state, record.memory))
  {
    var currentState := HandlerOf(config, record.state);
    context, trace := runContext, [];
    var onTick := OnTickOf(currentState);
    if onTick.Some? {
      trace := trace + [Ticked(record.state, record.memory)];
      var (c, m) := onTick.value(context, record.memory);
      context, record.memory := c, m;
    }
    finished := true;
    var isFinished := IsFinishedOf(currentState);
    if isFinished.Some? {
      trace := trace + [FinishedAsked(record.state, record.memory)];
      finished := isFinished.value(context, record.memory);
    }
  }

  /**
   * The `for ... break` loop of `runStateMachine` over the applicable transitions: calls the
   * guards in order and stops at the first transition that qualifies.
   */
  method ScanTransitions<S, M, C>(ts: seq<Transition<S, M, C>>, applicable: seq<nat>, ctx: C, mem: Option<M>)
    returns (found: Option<nat>, guards: seq<Event<S, M>>)
    requires ValidIndices(ts, applicable)
    ensures found == FirstQualifying(ts, applicable, ctx, mem)
    ensures guards == GuardTrace(ts, applicable, ctx, mem)
  {
    found, guards := None, [];
    var k := 0;
    while k < |applicable|
      invariant found.None? && ScannedUpTo(ts, applicable, k, guards, ctx, mem)
    {
      var i := applicable[k];
      var transition := ts[i];
      ScanAdvance(ts, applicable, k, ctx, mem, guards);
      ghost var after := guards + Called(transition.condition.Some?, GuardAsked(i, mem));
      var qualifies := true;
      if transition.condition.Some? {
        guards := guards + [GuardAsked(i, mem)];
        qualifies := transition.condition.value(ctx, mem);
      }
      assert guards == after && qualifies == Qualifies(transition, ctx, mem);
      if qualifies {
        found := Some(i);
        break;
      }
      k := k + 1;
    }
    if found.None? {
      ScanExhausted(ts, applicable, guards, ctx, mem);
    }
  }

  /**
   * The loop's invariant after `k` iterations: `guards` are the calls made so far, and
   * the scan of what remains finds what the whole scan finds and makes the remaining calls.
   */
  ghost predicate ScannedUpTo<S, M, C>(ts: seq<Transition<S, M, C>>, idx: seq<nat>, k: nat, guards: seq<Event<S, M>>, ctx: C, mem: Option<M>)
  {
    && ValidIndices(ts, idx) && k <= |idx| && ValidIndices(ts, idx[k..])
    && FirstQualifying(ts, idx[k..], ctx, mem) == FirstQualifying(ts, idx, ctx, mem)
    && guards + GuardTrace(ts, idx[k..], ctx, mem) == GuardTrace(ts, idx, ctx, mem)
  }

  /** After the last iteration without a qualifying transition, the calls are the whole scan's and nothing is found. */
  lemma ScanExhausted<S, M, C>(ts: seq<Transition<S, M, C>>, idx: seq<nat>, guards: seq<Event<S, M>>, ctx: C, mem: Option<M>)
    requires ScannedUpTo(ts, idx, |idx|, guards, ctx, mem)
    ensures guards == GuardTrace(ts, idx, ctx, mem) && FirstQualifying(ts, idx, ctx, mem).None?
  {
    assert idx[|idx|..] == [];
  }

  /** What one iteration of the scan establishes, for both outcomes of the guard. */
  lemma ScanAdvance<S, M, C>(ts: seq<Transition<S, M, C>>, idx: seq<nat>, k: nat, ctx: C, mem: Option<M>, before: seq<Event<S, M>>)
    requires ScannedUpTo(ts, idx, k, before, ctx, mem) && k < |idx|
    ensures var t := ts[idx[k]];
      var after := before + Called(t.condition.Some?, GuardAsked(idx[k], mem));
      && (Qualifies(t, ctx, mem) ==>
            after == GuardTrace(ts, idx, ctx, mem) && FirstQualifying(ts, idx, ctx, mem) == Some(idx[k]))
      && (!Qualifies(t, ctx, mem) ==> ScannedUpTo(ts, idx, k + 1, after, ctx, mem))
  {
    ScanStep(ts, idx, k, ctx, mem);
    var t := ts[idx[k]];
    var call := Called(t.condition.Some?, GuardAsked(idx[k], mem));
    if Qualifies(t, ctx, mem) {
      assert call + [] == call;
    } else {
      ConcatAssoc(before, call, GuardTrace(ts, idx[k + 1..], ctx, mem));
    }
  }

  /** `Step` by cases: not finished, finished with no qualifying transition, finished and firing. */
  lemma StepCases<S, M, C>(config: Config<S, M, C>, s: S, mem: Option<M>, ctx: C)
    ensures
      var h := HandlerOf(config, s);
      var (c1, m1) := AfterTick(config, s, ctx, mem);
      var pre := Called(OnTickOf(h).Some?, Ticked(s, mem)) + Called(IsFinishedOf(h).Some?, FinishedAsked(s, m1));
      var idx := Applicable(config.transitions, s);
      var r := Step(config, s, mem, ctx);
      && (!IsFinished(config, s, c1, m1) ==> r == Outcome(s, m1, c1, pre, None))
      && (IsFinished(config, s, c1, m1) && FirstQualifying(config.transitions, idx, c1, m1).None? ==>
            r == Outcome(s, m1, c1, pre + GuardTrace(config.transitions, idx, c1, m1), None))
      && (IsFinished(config, s, c1, m1) && FirstQualifying(config.transitions, idx, c1, m1).Some? ==>
            r == Fire(config, s, FirstQualifying(config.transitions, idx, c1, m1).value, c1, m1,
                      pre + GuardTrace(config.transitions, idx, c1, m1)))
  {
  }

  /** The firing part of `runStateMachine` (the body of the loop's `if` before `break`). */
  method TakeTransition<S(==), M, C>(config: Config<S, M, C>, currentState: Option<StateHandler<M, C>>,
                                     record: StateMachineContext<S, M>, i: nat, runContext: C, pre: seq<Event<S, M>>)
    returns (context: C, trace: seq<Event<S, M>>)
    requires i < |config.transitions|
    requires currentState == HandlerOf(config, record.state)
    modifies record
    ensures var r := Fire(config, old(record.state), i, runContext, old(record.memory), pre);
      record.state == r.state && record.memory == r.memory && context == r.ctx && trace == r.trace
  {
    var transition := config.transitions[i];
    context, trace := runContext, pre;
    var onExit := OnExitOf(currentState);
    if onExit.Some? {
      trace := trace + [Exited(record.state, record.memory)];
      var (c, m) := onExit.value(context, record.memory);
      context, record.memory := c, m;
    }
    var newStateMemory: Option<M> := None;
    if transition.onTransition.Some? {
      trace := trace + [Mapped(i, record.memory)];
      newStateMemory := Some(transition.onTransition.value(context, record.memory));
    }
    record.state := transition.to;
    record.memory := newStateMemory;
    var onEnter := OnEnterOf(HandlerOf(config, transition.to));
    if onEnter.Some? {
      trace := trace + [Entered(record.state, record.memory)];
      var (c, m) := onEnter.value(context, record.memory);
      context, record.memory := c, m;
    }
  }
}
