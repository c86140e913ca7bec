/**
 * What one call of `runStateMachine` guarantees, stated over the step function
 * `Step`: which transition fires, when nothing changes, the order in which the
 * handlers are called, and what a sequence of calls can reach.
 */
module StateMachineProperties {
  import opened Optional
  import opened StateMachine

  // ---------------------------------------------------------------------------
  // Which transition fires
  // ---------------------------------------------------------------------------

  /**
   * `i` is the earliest-declared transition at or after `lo` that leaves `s` and
   * qualifies: every transition from `s` declared before it (from `lo` on) is refused.
   */
  ghost predicate FirstFrom<S, M, C>(ts: seq<Transition<S, M, C>>, s: S, lo: nat, i: nat, ctx: C, mem: Option<M>)
  {
    && lo <= i < |ts| && ts[i].from == s && Qualifies(ts[i], ctx, mem)
    && forall j :: lo <= j < i && ts[j].from == s ==> !Qualifies(ts[j], ctx, mem)
  }

  /** No transition at or after `lo` that leaves `s` qualifies. */
  ghost predicate NoneQualifies<S, M, C>(ts: seq<Transition<S, M, C>>, s: S, lo: nat, ctx: C, mem: Option<M>)
  {
    forall j :: lo <= j < |ts| && ts[j].from == s ==> !Qualifies(ts[j], ctx, mem)
  }

  /** `r` is what a scan from `lo` should find: none exactly when none qualifies, else the earliest one. */
  ghost predicate ScanResult<S, M, C>(ts: seq<Transition<S, M, C>>, s: S, lo: nat, r: Option<nat>, ctx: C, mem: Option<M>)
  {
    && (r.None? <==> NoneQualifies(ts, s, lo, ctx, mem))
    && (r.Some? ==> FirstFrom(ts, s, lo, r.value, ctx, mem))
  }

  /** The scan over the filtered list finds exactly the earliest qualifying transition from `s`. */
  lemma {:induction false} ScanFindsFirst<S, M, C>(ts: seq<Transition<S, M, C>>, s: S, lo: nat, ctx: C, mem: Option<M>)
    requires lo <= |ts|
    decreases |ts| - lo
    ensures var r := FirstQualifying(ts, ApplicableFrom(ts, s, lo), ctx, mem);
      && (r.None? <==> NoneQualifies(ts, s, lo, ctx, mem))
      && (r.Some? ==> FirstFrom(ts, s, lo, r.value, ctx, mem))
  {
    ScanFindsFrom(ts, s, lo, ctx, mem);
  }

  lemma {:induction false} ScanFindsFrom<S, M, C>(ts: seq<Transition<S, M, C>>, s: S, lo: nat, ctx: C, mem: Option<M>)
    requires lo <= |ts|
    decreases |ts| - lo
    ensures ScanResult(ts, s, lo, FirstQualifying(ts, ApplicableFrom(ts, s, lo), ctx, mem), ctx, mem)
  {
    if lo < |ts| {
      var r' := FirstQualifying(ts, ApplicableFrom(ts, s, lo + 1), ctx, mem);
      ScanFindsFrom(ts, s, lo + 1, ctx, mem);
      ScanHead(ts, s, lo, ctx, mem);
      if ts[lo].from == s && Qualifies(ts[lo], ctx, mem) {
        TakeFirst(ts, s, lo, ctx, mem);
      } else {
        ExtendPast(ts, s, lo, r', ctx, mem);
      }
    }
  }

  /** A transition at `lo` that leaves `s` and qualifies is the earliest one from `lo`. */
  lemma TakeFirst<S, M, C>(ts: seq<Transition<S, M, C>>, s: S, lo: nat, ctx: C, mem: Option<M>)
    requires lo < |ts| && ts[lo].from == s && Qualifies(ts[lo], ctx, mem)
    ensures ScanResult(ts, s, lo, Some(lo), ctx, mem)
  {
  }

  /** The scan over the filtered list from `lo` takes `lo` when it leaves `s` and qualifies, and otherwise goes on from `lo + 1`. */
  lemma ScanHead<S, M, C>(ts: seq<Transition<S, M, C>>, s: S, lo: nat, ctx: C, mem: Option<M>)
    requires lo < |ts|
    ensures FirstQualifying(ts, ApplicableFrom(ts, s, lo), ctx, mem) ==
      if ts[lo].from == s && Qualifies(ts[lo], ctx, mem) then Some(lo)
      else FirstQualifying(ts, ApplicableFrom(ts, s, lo + 1), ctx, mem)
  {
    var idx := ApplicableFrom(ts, s, lo);
    var rest := ApplicableFrom(ts, s, lo + 1);
    if ts[lo].from == s {
      assert idx == [lo] + rest;
      assert idx[0] == lo && idx[1..] == rest;
    } else {
      assert idx == rest;
    }
  }

  /** A transition at `lo` that is not from `s` or does not qualify changes nothing about the scan from `lo + 1`. */
  lemma ExtendPast<S, M, C>(ts: seq<Transition<S, M, C>>, s: S, lo: nat, r: Option<nat>, ctx: C, mem: Option<M>)
    requires lo < |ts| && (ts[lo].from != s || !Qualifies(ts[lo], ctx, mem))
    requires ScanResult(ts, s, lo + 1, r, ctx, mem)
    ensures ScanResult(ts, s, lo, r, ctx, mem)
  {
  }

  /** There is at most one earliest qualifying transition. */
  lemma FirstFromUnique<S, M, C>(ts: seq<Transition<S, M, C>>, s: S, lo: nat, i: nat, j: nat, ctx: C, mem: Option<M>)
    requires FirstFrom(ts, s, lo, i, ctx, mem) && FirstFrom(ts, s, lo, j, ctx, mem)
    ensures i == j
  {
  }

  /**
   * Transition `i` fires exactly when the state is finished (judged after `onTick`) and `i`
   * is the earliest-declared transition leaving the current state whose guard holds or is absent.
   */
  lemma StepFires<S, M, C>(config: Config<S, M, C>, s: S, mem: Option<M>, ctx: C, i: nat)
    ensures var (c1, m1) := AfterTick(config, s, ctx, mem);
      Step(config, s, mem, ctx).fired == Some(i)
      <==> IsFinished(config, s, c1, m1) && FirstFrom(config.transitions, s, 0, i, c1, m1)
  {
    var (c1, m1) := AfterTick(config, s, ctx, mem);
    StepCases(config, s, mem, ctx);
    ScanFindsFirst(config.transitions, s, 0, c1, m1);
    var r := FirstQualifying(config.transitions, Applicable(config.transitions, s), c1, m1);
    if IsFinished(config, s, c1, m1) && FirstFrom(config.transitions, s, 0, i, c1, m1) {
      assert r.Some?;
      FirstFromUnique(config.transitions, s, 0, i, r.value, c1, m1);
    }
  }

  /**
   * Nothing fires exactly when the state is not finished or no transition leaving it
   * qualifies; then the engine leaves the state as it was and the memory as `onTick` left it.
   */
  lemma StepStays<S, M, C>(config: Config<S, M, C>, s: S, mem: Option<M>, ctx: C)
    ensures var (c1, m1) := AfterTick(config, s, ctx, mem);
      var r := Step(config, s, mem, ctx);
      && (r.fired.None? <==> !IsFinished(config, s, c1, m1) || NoneQualifies(config.transitions, s, 0, c1, m1))
      && (r.fired.None? ==> r.state == s && r.memory == m1 && r.ctx == c1)
  {
    var (c1, m1) := AfterTick(config, s, ctx, mem);
    StepCases(config, s, mem, ctx);
    ScanFindsFirst(config.transitions, s, 0, c1, m1);
  }

  /**
   * When a transition fires it leaves the current state, and the record moves to its
   * destination with the memory derived from `onTransition` (undefined when it is absent),
   * as the destination's `onEnter` leaves it.
   */
  lemma StepTarget<S, M, C>(config: Config<S, M, C>, s: S, mem: Option<M>, ctx: C)
    ensures var r := Step(config, s, mem, ctx);
      var (c1, m1) := AfterTick(config, s, ctx, mem);
      r.fired.Some? ==>
        var t := config.transitions[r.fired.value];
        var (c2, m2) := Apply(OnExitOf(HandlerOf(config, s)), c1, m1);
        var newMemory := if t.onTransition.Some? then Some(t.onTransition.value(c2, m2)) else None;
        && r.fired.value < |config.transitions|
        && t.from == s && r.state == t.to
        && (r.ctx, r.memory) == Apply(OnEnterOf(HandlerOf(config, t.to)), c2, newMemory)
  {
    var (c1, m1) := AfterTick(config, s, ctx, mem);
    StepCases(config, s, mem, ctx);
    ScanFindsFirst(config.transitions, s, 0, c1, m1);
  }

  /**
   * When the state is finished and `i` is the earliest qualifying transition leaving it, the
   * step takes `i`: the record moves to its destination with the memory `onTransition` derives
   * (after `onExit`), as the destination's `onEnter` leaves it.
   */
  lemma StepTakes<S, M, C>(config: Config<S, M, C>, s: S, mem: Option<M>, ctx: C, i: nat)
    requires var (c1, m1) := AfterTick(config, s, ctx, mem);
      IsFinished(config, s, c1, m1) && FirstFrom(config.transitions, s, 0, i, c1, m1)
    ensures var r := Step(config, s, mem, ctx);
      var (c1, m1) := AfterTick(config, s, ctx, mem);
      var t := config.transitions[i];
      var (c2, m2) := Apply(OnExitOf(HandlerOf(config, s)), c1, m1);
      var newMemory := if t.onTransition.Some? then Some(t.onTransition.value(c2, m2)) else None;
      && r.fired == Some(i) && r.state == t.to
      && (r.ctx, r.memory) == Apply(OnEnterOf(HandlerOf(config, t.to)), c2, newMemory)
  {
    StepFires(config, s, mem, ctx, i);
    StepTarget(config, s, mem, ctx);
  }

  /**
   * Of two transitions leaving the same state whose guards both hold, the one declared later
   * never fires: whatever fires is declared no later than the earlier of the two.
   */
  lemma EarlierDeclaredWins<S, M, C>(config: Config<S, M, C>, s: S, mem: Option<M>, ctx: C, i: nat, j: nat)
    requires i < j < |config.transitions|
    requires config.transitions[i].from == s && config.transitions[j].from == s
    requires var (c1, m1) := AfterTick(config, s, ctx, mem);
      Qualifies(config.transitions[i], c1, m1) && Qualifies(config.transitions[j], c1, m1)
    ensures var r := Step(config, s, mem, ctx);
      r.fired != Some(j) && (r.fired.Some? ==> r.fired.value <= i)
  {
    var (c1, m1) := AfterTick(config, s, ctx, mem);
    var r := Step(config, s, mem, ctx);
    if r.fired.Some? {
      StepFires(config, s, mem, ctx, r.fired.value);
    }
  }

  /** A state without an entry counts as finished, and its context and memory are not touched before the guards run. */
  lemma UnregisteredStateFires<S, M, C>(config: Config<S, M, C>, s: S, mem: Option<M>, ctx: C, i: nat)
    requires s !in config.states
    ensures Step(config, s, mem, ctx).fired == Some(i) <==> FirstFrom(config.transitions, s, 0, i, ctx, mem)
  {
    StepFires(config, s, mem, ctx, i);
  }

  /** Two unguarded transitions X to Y and X to Z, declared in that order: the step from X always ends in Y. */
  lemma TwoUnguardedTransitions<M, C>(mem: Option<M>, ctx: C)
    ensures var config: Config<int, M, C> := Config(map[], [Transition(0, 1, None, None), Transition(0, 2, None, None)]);
      var r := Step(config, 0, mem, ctx);
      r.state == 1 && r.fired == Some(0) && r.memory == None
  {
    var config: Config<int, M, C> := Config(map[], [Transition(0, 1, None, None), Transition(0, 2, None, None)]);
    StepFires(config, 0, mem, ctx, 0);
    StepTarget(config, 0, mem, ctx);
  }

  // ---------------------------------------------------------------------------
  // The order of handler calls
  // ---------------------------------------------------------------------------

  /** The position of each kind of call in the fixed callback order. */
  function Phase<S, M>(e: Event<S, M>): (p: nat)
    ensures p <= 5
  {
    match e
    case Ticked(_, _) => 0
    case FinishedAsked(_, _) => 1
    case GuardAsked(_, _) => 2
    case Exited(_, _) => 3
    case Mapped(_, _) => 4
    case Entered(_, _) => 5
  }

  /** `a` is made before `b`: an earlier phase, or a guard of an earlier-declared transition. */
  predicate Before<S, M>(a: Event<S, M>, b: Event<S, M>)
  {
    Phase(a) < Phase(b) || (a.GuardAsked? && b.GuardAsked? && a.index < b.index)
  }

  /** Every call in `t` is made before every later call: each handler at most once, guards in declaration order. */
  ghost predicate Ordered<S, M>(t: seq<Event<S, M>>)
  {
    forall a, b :: 0 <= a < b < |t| ==> Before(t[a], t[b])
  }

  lemma OrderedAppend<S, M>(a: seq<Event<S, M>>, b: seq<Event<S, M>>)
    requires Ordered(a) && Ordered(b)
    requires forall x, y :: x in a && y in b ==> Before(x, y)
    ensures Ordered(a + b)
  {
    forall p, q | 0 <= p < q < |a + b|
      ensures Before((a + b)[p], (a + b)[q])
    {
      if q < |a| {
        assert Before(a[p], a[q]);
      } else if p >= |a| {
        assert Before(b[p - |a|], b[q - |a|]);
      } else {
        assert a[p] in a && b[q - |a|] in b;
      }
    }
  }

  /**
   * The guard calls of a scan over increasing indices: one `GuardAsked` per guarded
   * transition examined, in declaration order, each given the memory the scan was
   * given, none past the transition that is chosen, and every guarded one asked when
   * none is chosen.
   */
  lemma GuardTraceShape<S, M, C>(ts: seq<Transition<S, M, C>>, idx: seq<nat>, ctx: C, mem: Option<M>)
    requires ValidIndices(ts, idx) && Increasing(idx)
    ensures var g := GuardTrace(ts, idx, ctx, mem);
      var r := FirstQualifying(ts, idx, ctx, mem);
      && Ordered(g)
      && (forall e :: e in g ==> e.GuardAsked? && e.index in idx && e.memory == mem)
      && (r.Some? ==> forall e :: e in g ==> e.index <= r.value)
      && (r.None? ==> forall k :: 0 <= k < |idx| && ts[idx[k]].condition.Some? ==> GuardAsked(idx[k], mem) in g)
  {
    GuardTraceEvents(ts, idx, ctx, mem);
    GuardTraceOrdered(ts, idx, ctx, mem);
    GuardTraceComplete(ts, idx, ctx, mem);
  }

  /** Dropping the first index keeps the indices valid and increasing. */
  lemma RestIndices<S, M, C>(ts: seq<Transition<S, M, C>>, idx: seq<nat>)
    requires ValidIndices(ts, idx) && Increasing(idx) && idx != []
    ensures ValidIndices(ts, idx[1..]) && Increasing(idx[1..])
    ensures forall i :: i in idx[1..] ==> i in idx && idx[0] < i
  {
    var rest := idx[1..];
    forall i | i in rest ensures i in idx && idx[0] < i {
      var k :| 0 <= k < |rest| && rest[k] == i;
      assert rest[k] == idx[k + 1];
    }
    forall k, l | 0 <= k < l < |rest| ensures rest[k] < rest[l] {
      assert rest[k] == idx[k + 1] && rest[l] == idx[l + 1];
    }
  }

  /** The guard scan splits into the first guard asked and the rest of the scan. */
  lemma GuardTraceHead<S, M, C>(ts: seq<Transition<S, M, C>>, idx: seq<nat>, ctx: C, mem: Option<M>)
    requires ValidIndices(ts, idx) && Increasing(idx) && idx != []
    ensures ValidIndices(ts, idx[1..])
    ensures GuardTrace(ts, idx, ctx, mem) ==
      Called(ts[idx[0]].condition.Some?, GuardAsked(idx[0], mem))
      + (if Qualifies(ts[idx[0]], ctx, mem) then [] else GuardTrace(ts, idx[1..], ctx, mem))
    ensures FirstQualifying(ts, idx, ctx, mem) ==
      if Qualifies(ts[idx[0]], ctx, mem) then Some(idx[0]) else FirstQualifying(ts, idx[1..], ctx, mem)
  {
    RestIndices(ts, idx);
  }

  /** Every guard call of the scan is for a listed transition, no later than the one chosen, with the scan's memory. */
  lemma {:induction false} GuardTraceEvents<S, M, C>(ts: seq<Transition<S, M, C>>, idx: seq<nat>, ctx: C, mem: Option<M>)
    requires ValidIndices(ts, idx) && Increasing(idx)
    ensures var g := GuardTrace(ts, idx, ctx, mem);
      var r := FirstQualifying(ts, idx, ctx, mem);
      && (forall e :: e in g ==> e.GuardAsked? && e.index in idx && e.memory == mem)
      && (r.Some? ==> forall e :: e in g ==> e.index <= r.value)
    decreases |idx|
  {
    if idx != [] {
      RestIndices(ts, idx);
      GuardTraceHead(ts, idx, ctx, mem);
      GuardTraceEvents(ts, idx[1..], ctx, mem);
    }
  }

  /** The guard calls of the scan come in declaration order. */
  lemma {:induction false} GuardTraceOrdered<S, M, C>(ts: seq<Transition<S, M, C>>, idx: seq<nat>, ctx: C, mem: Option<M>)
    requires ValidIndices(ts, idx) && Increasing(idx)
    ensures Ordered(GuardTrace(ts, idx, ctx, mem))
    decreases |idx|
  {
    if idx != [] {
      var rest := idx[1..];
      RestIndices(ts, idx);
      GuardTraceHead(ts, idx, ctx, mem);
      GuardTraceOrdered(ts, rest, ctx, mem);
      GuardTraceEvents(ts, rest, ctx, mem);
      var head := Called(ts[idx[0]].condition.Some?, GuardAsked(idx[0], mem));
      var tail := if Qualifies(ts[idx[0]], ctx, mem) then [] else GuardTrace(ts, rest, ctx, mem);
      OrderedAppend(head, tail);
    }
  }

  /** When no transition qualifies, every guarded transition listed was asked. */
  lemma {:induction false} GuardTraceComplete<S, M, C>(ts: seq<Transition<S, M, C>>, idx: seq<nat>, ctx: C, mem: Option<M>)
    requires ValidIndices(ts, idx) && Increasing(idx)
    ensures FirstQualifying(ts, idx, ctx, mem).None? ==>
      forall k :: 0 <= k < |idx| && ts[idx[k]].condition.Some? ==> GuardAsked(idx[k], mem) in GuardTrace(ts, idx, ctx, mem)
    decreases |idx|
  {
    if idx != [] && FirstQualifying(ts, idx, ctx, mem).None? {
      var rest := idx[1..];
      RestIndices(ts, idx);
      GuardTraceHead(ts, idx, ctx, mem);
      GuardTraceComplete(ts, rest, ctx, mem);
      forall k | 0 <= k < |idx| && ts[idx[k]].condition.Some?
        ensures GuardAsked(idx[k], mem) in GuardTrace(ts, idx, ctx, mem)
      {
        if k > 0 {
          assert idx[k] == rest[k - 1];
        }
      }
    }
  }

  /** Every step's calls are in the engine's fixed order (see `CallOrder`). */
  lemma StepTraceOrdered<S, M, C>(config: Config<S, M, C>, s: S, mem: Option<M>, ctx: C)
    ensures CallOrder(config, s, AfterTick(config, s, ctx, mem).1, Step(config, s, mem, ctx))
  {
    var (c1, m1) := AfterTick(config, s, ctx, mem);
    if !IsFinished(config, s, c1, m1) {
      UnfinishedCallOrder(config, s, mem, ctx);
    } else if FirstQualifying(config.transitions, Applicable(config.transitions, s), c1, m1).None? {
      UnfiredCallOrder(config, s, mem, ctx);
    } else {
      FiredCallOrder(config, s, mem, ctx);
    }
  }

  /** The `onTick` and `isFinished` calls every step starts with. */
  lemma TickCallsOrdered<S, M, C>(config: Config<S, M, C>, s: S, mem: Option<M>, ctx: C)
    ensures var h := HandlerOf(config, s);
      var m1 := AfterTick(config, s, ctx, mem).1;
      var pre := Called(OnTickOf(h).Some?, Ticked(s, mem)) + Called(IsFinishedOf(h).Some?, FinishedAsked(s, m1));
      Ordered(pre) && forall e :: e in pre ==> Phase(e) <= 1
  {
    var h := HandlerOf(config, s);
    var m1 := AfterTick(config, s, ctx, mem).1;
    OrderedAppend(Called(OnTickOf(h).Some?, Ticked(s, mem)), Called(IsFinishedOf(h).Some?, FinishedAsked(s, m1)));
  }

  /** An unfinished state makes only the `onTick` and `isFinished` calls. */
  lemma UnfinishedCallOrder<S, M, C>(config: Config<S, M, C>, s: S, mem: Option<M>, ctx: C)
    requires var (c1, m1) := AfterTick(config, s, ctx, mem); !IsFinished(config, s, c1, m1)
    ensures CallOrder(config, s, AfterTick(config, s, ctx, mem).1, Step(config, s, mem, ctx))
  {
    TickCallsOrdered(config, s, mem, ctx);
    StepCases(config, s, mem, ctx);
  }

  /** A finished state where no transition qualifies adds only the guard calls. */
  lemma UnfiredCallOrder<S, M, C>(config: Config<S, M, C>, s: S, mem: Option<M>, ctx: C)
    requires var (c1, m1) := AfterTick(config, s, ctx, mem);
      IsFinished(config, s, c1, m1) && FirstQualifying(config.transitions, Applicable(config.transitions, s), c1, m1).None?
    ensures CallOrder(config, s, AfterTick(config, s, ctx, mem).1, Step(config, s, mem, ctx))
  {
    var h := HandlerOf(config, s);
    var (c1, m1) := AfterTick(config, s, ctx, mem);
    var pre := Called(OnTickOf(h).Some?, Ticked(s, mem)) + Called(IsFinishedOf(h).Some?, FinishedAsked(s, m1));
    TickCallsOrdered(config, s, mem, ctx);
    StepCases(config, s, mem, ctx);
    ScanPartOrdered(config.transitions, s, c1, m1, pre);
  }

  /** A firing step's calls: the scan's, then `onExit`, `onTransition` and `onEnter`. */
  lemma FiredCallOrder<S, M, C>(config: Config<S, M, C>, s: S, mem: Option<M>, ctx: C)
    requires var (c1, m1) := AfterTick(config, s, ctx, mem);
      IsFinished(config, s, c1, m1) && FirstQualifying(config.transitions, Applicable(config.transitions, s), c1, m1).Some?
    ensures CallOrder(config, s, AfterTick(config, s, ctx, mem).1, Step(config, s, mem, ctx))
  {
    var h := HandlerOf(config, s);
    var (c1, m1) := AfterTick(config, s, ctx, mem);
    var pre := Called(OnTickOf(h).Some?, Ticked(s, mem)) + Called(IsFinishedOf(h).Some?, FinishedAsked(s, m1));
    var ts := config.transitions;
    var idx := Applicable(ts, s);
    TickCallsOrdered(config, s, mem, ctx);
    StepCases(config, s, mem, ctx);
    ScanPartOrdered(ts, s, c1, m1, pre);
    FireCallOrder(config, s, FirstQualifying(ts, idx, c1, m1).value, c1, m1, pre + GuardTrace(ts, idx, c1, m1));
  }

  /**
   * The calls of one step come in the engine's fixed order: `onTick`, `isFinished`, the
   * guards in declaration order, then — only when a transition fires — `onExit`,
   * `onTransition` and the destination's `onEnter`, each at most once. Every guard asked
   * belongs to a transition leaving the current state, is given the memory `onTick`
   * left (`m1`), and is declared no later than the transition that fires.
   */
  ghost predicate CallOrder<S, M, C>(config: Config<S, M, C>, s: S, m1: Option<M>, r: Outcome<S, M, C>)
  {
    && Ordered(r.trace)
    && (forall e :: e in r.trace && e.GuardAsked? ==>
          e.index < |config.transitions| && config.transitions[e.index].from == s && e.memory == m1)
    && (r.fired.Some? ==> forall e :: e in r.trace && e.GuardAsked? ==> e.index <= r.fired.value)
    && (r.fired.None? ==> forall e :: e in r.trace ==> Phase(e) <= 2)
  }

  /** The `onTick` and `isFinished` calls followed by the guard calls of the scan. */
  lemma ScanPartOrdered<S, M, C>(ts: seq<Transition<S, M, C>>, s: S, ctx: C, mem: Option<M>, pre: seq<Event<S, M>>)
    requires Ordered(pre) && forall e :: e in pre ==> Phase(e) <= 1
    ensures var idx := Applicable(ts, s);
      var g := pre + GuardTrace(ts, idx, ctx, mem);
      var f := FirstQualifying(ts, idx, ctx, mem);
      && Ordered(g)
      && (forall e :: e in g ==> Phase(e) <= 2)
      && (forall e :: e in g && e.GuardAsked? ==> e.index < |ts| && ts[e.index].from == s && e.memory == mem)
      && (f.Some? ==> forall e :: e in g && e.GuardAsked? ==> e.index <= f.value)
  {
    var idx := Applicable(ts, s);
    var guards := GuardTrace(ts, idx, ctx, mem);
    GuardTraceShape(ts, idx, ctx, mem);
    forall e | e in guards ensures e.GuardAsked? && e.index < |ts| && ts[e.index].from == s {
      var k :| 0 <= k < |idx| && idx[k] == e.index;
    }
    OrderedAppend(pre, guards);
  }

  /** The calls of a fire keep the order of the calls made before it. */
  lemma FireCallOrder<S, M, C>(config: Config<S, M, C>, s: S, i: nat, ctx: C, mem: Option<M>, pre: seq<Event<S, M>>)
    requires i < |config.transitions|
    requires Ordered(pre) && forall e :: e in pre ==> Phase(e) <= 2
    requires forall e :: e in pre && e.GuardAsked? ==>
      e.index < |config.transitions| && config.transitions[e.index].from == s && e.memory == mem && e.index <= i
    ensures CallOrder(config, s, mem, Fire(config, s, i, ctx, mem, pre))
  {
    FirePartOrdered(config, s, i, ctx, mem, pre);
  }

  /** Firing appends `onExit`, `onTransition` and `onEnter`, each at most once, after everything before. */
  lemma FirePartOrdered<S, M, C>(config: Config<S, M, C>, s: S, i: nat, ctx: C, mem: Option<M>, pre: seq<Event<S, M>>)
    requires i < |config.transitions|
    requires Ordered(pre) && forall e :: e in pre ==> Phase(e) <= 2
    ensures var t := Fire(config, s, i, ctx, mem, pre).trace;
      Ordered(t) && forall e :: e in t ==> e in pre || Phase(e) >= 3
  {
    var tail := FireTrace(config, s, i, ctx, mem, pre);
    OrderedAppend(pre, tail);
  }

  /** The calls a fire adds after `pre`: `onExit`, `onTransition`, `onEnter`, each when present, in that order. */
  lemma FireTrace<S, M, C>(config: Config<S, M, C>, s: S, i: nat, ctx: C, mem: Option<M>, pre: seq<Event<S, M>>)
    returns (tail: seq<Event<S, M>>)
    requires i < |config.transitions|
    ensures Fire(config, s, i, ctx, mem, pre).trace == pre + tail
    ensures Ordered(tail) && forall e :: e in tail ==> Phase(e) >= 3
  {
    var t := config.transitions[i];
    var exit := OnExitOf(HandlerOf(config, s));
    var (c2, m2) := Apply(exit, ctx, mem);
    var newMemory := if t.onTransition.Some? then Some(t.onTransition.value(c2, m2)) else None;
    var enter := OnEnterOf(HandlerOf(config, t.to));
    var exited := Called(exit.Some?, Exited(s, mem));
    var mapped := Called(t.onTransition.Some?, Mapped(i, m2));
    var entered := Called(enter.Some?, Entered(t.to, newMemory));
    tail := exited + mapped + entered;
    LateCallsOrdered(exited, mapped, entered);
  }

  /** At most one call of each of the phases 3, 4 and 5, in that order, are ordered. */
  lemma LateCallsOrdered<S, M>(exited: seq<Event<S, M>>, mapped: seq<Event<S, M>>, entered: seq<Event<S, M>>)
    requires |exited| <= 1 && |mapped| <= 1 && |entered| <= 1
    requires (forall e :: e in exited ==> Phase(e) == 3) && (forall e :: e in mapped ==> Phase(e) == 4)
    requires forall e :: e in entered ==> Phase(e) == 5
    ensures var t := exited + mapped + entered; Ordered(t) && forall e :: e in t ==> Phase(e) >= 3
  {
    OrderedAppend(exited, mapped);
    OrderedAppend(exited + mapped, entered);
  }

  // ---------------------------------------------------------------------------
  // Sequences of calls
  // ---------------------------------------------------------------------------

  /** The states a record passes through when the engine is called once per context in `ctxs`. */
  function Visited<S, M, C>(config: Config<S, M, C>, s: S, mem: Option<M>, ctxs: seq<C>): (r: seq<S>)
    ensures |r| == |ctxs|
    decreases |ctxs|
  {
    if ctxs == [] then []
    else
      var o := Step(config, s, mem, ctxs[0]);
      [o.state] + Visited(config, o.state, o.memory, ctxs[1..])
  }

  /** The record can only be in a state it started in or that some transition leads to. */
  lemma StepStateOrigin<S, M, C>(config: Config<S, M, C>, s: S, mem: Option<M>, ctx: C)
    ensures var r := Step(config, s, mem, ctx);
      r.state == s || exists i :: 0 <= i < |config.transitions| && config.transitions[i].to == r.state
  {
    StepTarget(config, s, mem, ctx);
    StepStays(config, s, mem, ctx);
  }

  /** A state no transition leads to is never entered by any sequence of calls that does not start in it. */
  lemma {:induction false} NeverTargetedNeverVisited<S, M, C>(config: Config<S, M, C>, x: S, s: S, mem: Option<M>, ctxs: seq<C>)
    requires forall i :: 0 <= i < |config.transitions| ==> config.transitions[i].to != x
    requires s != x
    ensures x !in Visited(config, s, mem, ctxs)
    decreases |ctxs|
  {
    if ctxs != [] {
      var o := Step(config, s, mem, ctxs[0]);
      StepStateOrigin(config, s, mem, ctxs[0]);
      assert o.state != x;
      NeverTargetedNeverVisited(config, x, o.state, o.memory, ctxs[1..]);
      assert Visited(config, s, mem, ctxs) == [o.state] + Visited(config, o.state, o.memory, ctxs[1..]);
    }
  }
}
