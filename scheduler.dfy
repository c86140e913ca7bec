/**
 * The room task scheduler: the persisted claim ledger (task id to the claims creeps
 * have made on it), its reconciliation against the creeps still alive, the per-tick
 * priority queue, handing out portions of the queue head to creeps, creeps reporting
 * a task finished, and the registry of one scheduler per room.
 *
 * `Game.getObjectById(creepId)` is only used to ask whether a creep is still alive,
 * so it is modelled as the set `live` of the ids of living creeps. `room.find` and
 * `room.controller` are modelled as a `RoomSnapshot` passed to `Run`.
 */
module Scheduler {
  import opened Optional
  import opened RoomTasks
  import opened Sequences

  /** One creep's claim on a task: the need it saw when claiming and the energy it committed. */
  datatype Claim = Claim(creepId: string, energyInitialNeeded: int, energyNeedClaimed: int)

  /** The ledger `creepAssignedRoomTasks`: task id to the claims on it, in the order they were made. */
  type Ledger = map<string, seq<Claim>>

  /** What the live claims on one task add up to. */
  datatype Tracker = Tracker(id: string, energyInitialNeeded: int, totalEnergyNeedClaimed: int)

  /** The energy source every handed-out task names. */
  const EnergySourceId: string := "884707717df4411"

  // ---------------------------------------------------------------------------
  // Reconciliation of the ledger
  // ---------------------------------------------------------------------------

  /** The claims of creeps that are still alive, each as often as `cs` holds it (the `filter`). */
  function LiveClaims(cs: seq<Claim>, live: set<string>): (r: seq<Claim>)
    ensures forall c :: c in r <==> c in cs && c.creepId in live
    ensures |r| <= |cs|
  {
    if cs == [] then []
    else (if cs[0].creepId in live then [cs[0]] else []) + LiveClaims(cs[1..], live)
  }

  /** The filter drops every claim of a dead creep and keeps every other claim as often as it occurs. */
  lemma {:induction false} LiveClaimsCounts(cs: seq<Claim>, live: set<string>)
    ensures forall c :: multiset(LiveClaims(cs, live))[c] == if c.creepId in live then multiset(cs)[c] else 0
  {
    if cs != [] {
      LiveClaimsCounts(cs[1..], live);
      assert cs == [cs[0]] + cs[1..];
    }
  }

  lemma {:induction false} LiveClaimsIdempotent(cs: seq<Claim>, live: set<string>)
    ensures LiveClaims(LiveClaims(cs, live), live) == LiveClaims(cs, live)
  {
    if cs != [] {
      var rest := LiveClaims(cs[1..], live);
      LiveClaimsIdempotent(cs[1..], live);
      if cs[0].creepId in live {
        var r := [cs[0]] + rest;
        assert LiveClaims(cs, live) == r;
        assert r[0] == cs[0] && r[1..] == rest;
        assert LiveClaims(r, live) == [cs[0]] + LiveClaims(rest, live);
      } else {
        assert LiveClaims(cs, live) == rest;
      }
    }
  }

  /** The ledger after reconciliation: dead creeps' claims dropped, entries left without claims deleted. */
  function Pruned(ledger: Ledger, live: set<string>): Ledger
  {
    map k | k in ledger && LiveClaims(ledger[k], live) != [] :: LiveClaims(ledger[k], live)
  }

  /** After reconciliation every entry is non-empty and holds only claims by living creeps, taken from the old entry. */
  lemma PrunedOnlyLive(ledger: Ledger, live: set<string>)
    ensures var p := Pruned(ledger, live);
      forall k :: k in p ==> k in ledger && p[k] != [] && forall c :: c in p[k] ==> c.creepId in live && c in ledger[k]
  {
  }

  /** Reconciliation keeps every claim of a living creep, under its task id. */
  lemma PrunedKeepsLive(ledger: Ledger, live: set<string>, k: string, c: Claim)
    requires k in ledger && c in ledger[k] && c.creepId in live
    ensures k in Pruned(ledger, live) && c in Pruned(ledger, live)[k]
  {
    assert c in LiveClaims(ledger[k], live);
  }

  /** Reconciling twice against the same living creeps changes nothing more. */
  lemma PrunedIdempotent(ledger: Ledger, live: set<string>)
    ensures Pruned(Pruned(ledger, live), live) == Pruned(ledger, live)
  {
    var p := Pruned(ledger, live);
    forall k | k in p ensures LiveClaims(p[k], live) == p[k] {
      LiveClaimsIdempotent(ledger[k], live);
    }
  }

  /** The largest initial need among the claims, starting from 0 (the `<` update of the tracker). */
  function MaxInitial(cs: seq<Claim>): (r: int)
    ensures r >= 0
    ensures forall c :: c in cs ==> c.energyInitialNeeded <= r
    ensures r == 0 || exists c :: c in cs && c.energyInitialNeeded == r
  {
    if cs == [] then 0
    else
      var m := MaxInitial(cs[..|cs| - 1]);
      assert cs == cs[..|cs| - 1] + [cs[|cs| - 1]];
      if m < cs[|cs| - 1].energyInitialNeeded then cs[|cs| - 1].energyInitialNeeded else m
  }

  /** The total energy the claims commit. */
  function SumClaimed(cs: seq<Claim>): int
  {
    if cs == [] then 0 else SumClaimed(cs[..|cs| - 1]) + cs[|cs| - 1].energyNeedClaimed
  }

  lemma {:induction false} SumClaimedConcat(a: seq<Claim>, b: seq<Claim>)
    ensures SumClaimed(a + b) == SumClaimed(a) + SumClaimed(b)
    decreases |b|
  {
    if b == [] {
      assert a + b == a;
    } else {
      var init := b[..|b| - 1];
      SumClaimedConcat(a, init);
      assert (a + b)[..|a + b| - 1] == a + init;
    }
  }

  function TrackerOf(id: string, cs: seq<Claim>): Tracker
  {
    Tracker(id, MaxInitial(cs), SumClaimed(cs))
  }

  /** The trackers `getRoomTaskTracker` returns: one per task that still has live claims. */
  function Trackers(ledger: Ledger, live: set<string>): map<string, Tracker>
  {
    map k | k in ledger && LiveClaims(ledger[k], live) != [] :: TrackerOf(k, LiveClaims(ledger[k], live))
  }

  /** Tracked tasks are those that survive reconciliation, and each tracker sums up the surviving entry. */
  lemma TrackersOfPruned(ledger: Ledger, live: set<string>)
    ensures var p, t := Pruned(ledger, live), Trackers(ledger, live);
      && t.Keys == p.Keys
      && (forall k :: k in t ==>
            && t[k].id == k && t[k].totalEnergyNeedClaimed == SumClaimed(p[k]) && t[k].energyInitialNeeded >= 0
            && forall c :: c in p[k] ==> c.energyInitialNeeded <= t[k].energyInitialNeeded)
  {
  }

  /** The loop of `getRoomTaskTracker` that folds one entry's claims into a tracker. */
  method Track(id: string, claims: seq<Claim>) returns (track: Tracker)
    ensures track == TrackerOf(id, claims)
  {
    track := Tracker(id, 0, 0);
    var k := 0;
    while k < |claims|
      invariant 0 <= k <= |claims|
      invariant track == TrackerOf(id, claims[..k])
    {
      var c := claims[k];
      assert claims[..k + 1][..k] == claims[..k];
      if track.energyInitialNeeded < c.energyInitialNeeded {
        track := track.(energyInitialNeeded := c.energyInitialNeeded);
      }
      track := track.(totalEnergyNeedClaimed := track.totalEnergyNeedClaimed + c.energyNeedClaimed);
      k := k + 1;
    }
    assert claims[..k] == claims;
  }

  // ---------------------------------------------------------------------------
  // Building the queue
  // ---------------------------------------------------------------------------

  /** The need left after netting out a tracked task's claims, as `priorityQueueTryPush` computes it. */
  function AdjustedNeed(trackers: map<string, Tracker>, d: RoomTaskDetails): int
  {
    if d.id in trackers then
      var t := trackers[d.id];
      d.energyNeeded - (t.totalEnergyNeedClaimed - (t.energyInitialNeeded - d.energyNeeded))
    else d.energyNeeded
  }

  /** For a tracked task the adjustment is the tracked initial need minus what is claimed; untracked needs are kept. */
  lemma AdjustedNeedSimplifies(trackers: map<string, Tracker>, d: RoomTaskDetails)
    ensures d.id in trackers ==>
      AdjustedNeed(trackers, d) == trackers[d.id].energyInitialNeeded - trackers[d.id].totalEnergyNeedClaimed
    ensures d.id !in trackers ==> AdjustedNeed(trackers, d) == d.energyNeeded
  {
  }

  /** What one `priorityQueueTryPush` appends: the adjusted candidate when it still needs energy. */
  function Admit(trackers: map<string, Tracker>, d: RoomTaskDetails): seq<RoomTaskDetails>
  {
    var n := AdjustedNeed(trackers, d);
    if n > 0 then [d.(energyNeeded := n)] else []
  }

  /** The candidates that enter the queue, adjusted, in discovery order. */
  function Admitted(trackers: map<string, Tracker>, cs: seq<RoomTaskDetails>): seq<RoomTaskDetails>
  {
    if cs == [] then [] else Admitted(trackers, cs[..|cs| - 1]) + Admit(trackers, cs[|cs| - 1])
  }

  lemma {:induction false} AdmittedConcat(trackers: map<string, Tracker>, a: seq<RoomTaskDetails>, b: seq<RoomTaskDetails>)
    ensures Admitted(trackers, a + b) == Admitted(trackers, a) + Admitted(trackers, b)
    decreases |b|
  {
    if b == [] {
      assert a + b == a;
    } else {
      var init, last := b[..|b| - 1], b[|b| - 1];
      calc {
        Admitted(trackers, a + b);
        { assert (a + b)[..|a + b| - 1] == a + init && (a + b)[|a + b| - 1] == last; }
        Admitted(trackers, a + init) + Admit(trackers, last);
        { AdmittedConcat(trackers, a, init); }
        (Admitted(trackers, a) + Admitted(trackers, init)) + Admit(trackers, last);
        { ConcatAssoc(Admitted(trackers, a), Admitted(trackers, init), Admit(trackers, last)); }
        Admitted(trackers, a) + (Admitted(trackers, init) + Admit(trackers, last));
      }
    }
  }

  /**
   * The queue holds exactly the candidates whose adjusted need is positive, each with that
   * adjusted need and otherwise unchanged.
   */
  lemma {:induction false} AdmittedExactly(trackers: map<string, Tracker>, cs: seq<RoomTaskDetails>)
    ensures forall e :: e in Admitted(trackers, cs) ==>
      e.energyNeeded > 0 && exists c :: c in cs && e == c.(energyNeeded := AdjustedNeed(trackers, c))
    ensures forall c :: c in cs && AdjustedNeed(trackers, c) > 0 ==>
      c.(energyNeeded := AdjustedNeed(trackers, c)) in Admitted(trackers, cs)
  {
    if cs != [] {
      var init, last := cs[..|cs| - 1], cs[|cs| - 1];
      AdmittedExactly(trackers, init);
      assert cs == init + [last];
      forall e | e in Admitted(trackers, cs)
        ensures e.energyNeeded > 0 && exists c :: c in cs && e == c.(energyNeeded := AdjustedNeed(trackers, c))
      {
        if e in Admitted(trackers, init) {
          var c :| c in init && e == c.(energyNeeded := AdjustedNeed(trackers, c));
          assert c in cs;
        } else {
          assert e == last.(energyNeeded := AdjustedNeed(trackers, last));
        }
      }
    }
  }

  /** The queue `run` leaves: the admitted candidates of the tick, sorted stably by rank. */
  function QueueAfterRun(ledger: Ledger, live: set<string>, room: RoomSnapshot): seq<RoomTaskDetails>
  {
    SortByRank(Admitted(Trackers(ledger, live), Candidates(room)))
  }

  /**
   * After `run`, every queued task needs energy; the queue is ordered by rank and keeps
   * discovery order within a rank; and it is a reordering of the admitted candidates.
   */
  lemma QueueAfterRunProperties(ledger: Ledger, live: set<string>, room: RoomSnapshot)
    ensures var q := QueueAfterRun(ledger, live, room);
      var admitted := Admitted(Trackers(ledger, live), Candidates(room));
      && (forall e :: e in q ==> e.energyNeeded > 0)
      && SortedByRank(q)
      && multiset(q) == multiset(admitted)
      && forall k: nat :: Bucket(q, k) == Bucket(admitted, k)
  {
    var admitted := Admitted(Trackers(ledger, live), Candidates(room));
    AdmittedExactly(Trackers(ledger, live), Candidates(room));
    SortByRankSorted(admitted);
    SortByRankPermutation(admitted);
    forall k: nat ensures Bucket(QueueAfterRun(ledger, live, room), k) == Bucket(admitted, k) {
      SortByRankStable(admitted, k);
    }
    forall e | e in QueueAfterRun(ledger, live, room) ensures e.energyNeeded > 0 {
      assert e in multiset(admitted);
    }
  }

  /** A tracked candidate enters the queue only with the tracked initial need minus everything claimed on it. */
  lemma QueuedTrackedNeed(ledger: Ledger, live: set<string>, room: RoomSnapshot, e: RoomTaskDetails)
    requires e in QueueAfterRun(ledger, live, room) && e.id in Trackers(ledger, live)
    ensures var t := Trackers(ledger, live)[e.id];
      e.energyNeeded == t.energyInitialNeeded - t.totalEnergyNeedClaimed
  {
    var trackers := Trackers(ledger, live);
    var admitted := Admitted(trackers, Candidates(room));
    SortByRankPermutation(admitted);
    assert e in multiset(admitted);
    AdmittedExactly(trackers, Candidates(room));
    var c :| c in Candidates(room) && e == c.(energyNeeded := AdjustedNeed(trackers, c));
    AdjustedNeedSimplifies(trackers, c);
  }

  lemma StructuresPrefix(sts: seq<Structure>, k: nat)
    requires k < |sts|
    ensures StructuresCandidates(sts[..k + 1]) == StructuresCandidates(sts[..k]) + StructureCandidates(sts[k])
  {
    assert sts[..k + 1][..k] == sts[..k];
  }

  /** One more structure's candidates extend the queue built so far. */
  lemma PushedStructure(trackers: map<string, Tracker>, structures: seq<Structure>, k: nat,
                        start: seq<RoomTaskDetails>, before: seq<RoomTaskDetails>, after: seq<RoomTaskDetails>)
    requires k < |structures|
    requires before == start + Admitted(trackers, StructuresCandidates(structures[..k]))
    requires after == before + Admitted(trackers, StructureCandidates(structures[k]))
    ensures after == start + Admitted(trackers, StructuresCandidates(structures[..k + 1]))
  {
    var a, b := StructuresCandidates(structures[..k]), StructureCandidates(structures[k]);
    StructuresPrefix(structures, k);
    assert StructuresCandidates(structures[..k + 1]) == a + b;
    AdmittedConcat(trackers, a, b);
    ConcatAssoc(start, Admitted(trackers, a), Admitted(trackers, b));
  }

  lemma SitesPrefix(sites: seq<ConstructionSite>, k: nat)
    requires k < |sites|
    ensures SitesCandidates(sites[..k + 1])
            == SitesCandidates(sites[..k]) + [ToRoomTaskDetails(Build, sites[k].id, BuildCost(sites[k]))]
  {
    assert sites[..k + 1][..k] == sites[..k];
  }

  /** One more site's build candidate extends the queue built so far. */
  lemma PushedSite(trackers: map<string, Tracker>, sites: seq<ConstructionSite>, k: nat,
                   start: seq<RoomTaskDetails>, before: seq<RoomTaskDetails>, after: seq<RoomTaskDetails>)
    requires k < |sites|
    requires before == start + Admitted(trackers, SitesCandidates(sites[..k]))
    requires after == before + Admit(trackers, ToRoomTaskDetails(Build, sites[k].id, BuildCost(sites[k])))
    ensures after == start + Admitted(trackers, SitesCandidates(sites[..k + 1]))
  {
    var a, build := SitesCandidates(sites[..k]), ToRoomTaskDetails(Build, sites[k].id, BuildCost(sites[k]));
    SitesPrefix(sites, k);
    AdmittedConcat(trackers, a, [build]);
    AdmittedOne(trackers, build);
    ConcatAssoc(start, Admitted(trackers, a), Admit(trackers, build));
  }

  lemma AdmittedOne(trackers: map<string, Tracker>, d: RoomTaskDetails)
    ensures Admitted(trackers, [d]) == Admit(trackers, d)
  {
    assert [d][..0] == [];
  }

  /** Pushing a structure's two possible candidates, one after the other, admits its candidates in order. */
  lemma AdmittedStructure(trackers: map<string, Tracker>, st: Structure)
    ensures Admitted(trackers, StructureCandidates(st))
      == (if NeedsEnergy(st) then Admit(trackers, ToRoomTaskDetails(Transfer, st.id, TransferCost(st))) else [])
         + (if NeedsRepair(st) then Admit(trackers, ToRoomTaskDetails(Repair, st.id, RepairCost(st))) else [])
  {
    var a := if NeedsEnergy(st) then [ToRoomTaskDetails(Transfer, st.id, TransferCost(st))] else [];
    var b := if NeedsRepair(st) then [ToRoomTaskDetails(Repair, st.id, RepairCost(st))] else [];
    AdmittedConcat(trackers, a, b);
    if a != [] { AdmittedOne(trackers, a[0]); }
    if b != [] { AdmittedOne(trackers, b[0]); }
  }

  // ---------------------------------------------------------------------------
  // Handing out and finishing tasks
  // ---------------------------------------------------------------------------

  /** The ledger with `c` appended to the claims under `id` (the entry is created when missing). */
  function WithClaim(ledger: Ledger, id: string, c: Claim): (r: Ledger)
    ensures r.Keys == ledger.Keys + {id}
    ensures forall k :: k in ledger && k != id ==> r[k] == ledger[k]
    ensures id in ledger ==> r[id] == ledger[id] + [c]
    ensures id !in ledger ==> r[id] == [c]
  {
    ledger[id := (if id in ledger then ledger[id] else []) + [c]]
  }

  /** What `getRoomTask` hands out and leaves behind. `task` is `None` where the source dereferences a missing controller. */
  datatype Handout = Handout(task: Option<RoomTask>, queue: seq<RoomTaskDetails>, ledger: Ledger)

  function HandOut(queue: seq<RoomTaskDetails>, ledger: Ledger, creepId: string, capacity: int, controllerId: Option<string>): Handout
  {
    if queue == [] then
      var fallback :=
        if controllerId.Some?
        then Some(RoomTask(ToRoomTaskDetails(ControllerUpkeep, controllerId.value, capacity), EnergySourceId))
        else None;
      Handout(fallback, [], ledger)
    else
      var head := queue[0];
      var rest := if head.energyNeeded > capacity then [head.(energyNeeded := head.energyNeeded - capacity)] + queue[1..]
                  else queue[1..];
      Handout(Some(RoomTask(head.(energyNeeded := capacity), EnergySourceId)), rest,
              WithClaim(ledger, head.id, Claim(creepId, head.energyNeeded, capacity)))
  }

  /** The total energy the queued tasks still need. */
  function SumNeed(q: seq<RoomTaskDetails>): int
  {
    if q == [] then 0 else q[0].energyNeeded + SumNeed(q[1..])
  }

  function Min(a: int, b: int): (r: int)
    ensures r <= a && r <= b && (r == a || r == b)
  {
    if a <= b then a else b
  }

  /**
   * A head needing more than the capacity stays at the front with the same id and the
   * remainder `need - capacity`; otherwise it leaves the queue. Either way the queue's total
   * need drops by exactly the part the creep takes on, `min(need, capacity)`.
   */
  lemma HandOutSplits(queue: seq<RoomTaskDetails>, ledger: Ledger, creepId: string, capacity: int, controllerId: Option<string>)
    requires queue != []
    ensures var h := HandOut(queue, ledger, creepId, capacity, controllerId);
      var head := queue[0];
      && (head.energyNeeded > capacity ==>
            && |h.queue| == |queue| && h.queue[1..] == queue[1..]
            && h.queue[0].id == head.id && h.queue[0].taskType == head.taskType && h.queue[0].targetId == head.targetId
            && h.queue[0].energyNeeded == head.energyNeeded - capacity)
      && (head.energyNeeded <= capacity ==> h.queue == queue[1..])
      && SumNeed(h.queue) + Min(head.energyNeeded, capacity) == SumNeed(queue)
  {
    var h := HandOut(queue, ledger, creepId, capacity, controllerId);
    var head := queue[0];
    if head.energyNeeded > capacity {
      var q := h.queue;
      assert q[0] == head.(energyNeeded := head.energyNeeded - capacity) && q[1..] == queue[1..];
    }
  }

  /**
   * A pop hands the creep the head task sized to its whole capacity, naming the energy source,
   * and appends exactly one claim `{creep, popped need, capacity}` under the head's id;
   * the rest of the ledger is unchanged.
   */
  lemma HandOutClaims(queue: seq<RoomTaskDetails>, ledger: Ledger, creepId: string, capacity: int, controllerId: Option<string>)
    requires queue != []
    ensures var h := HandOut(queue, ledger, creepId, capacity, controllerId);
      var head := queue[0];
      var c := Claim(creepId, head.energyNeeded, capacity);
      && h.task == Some(RoomTask(head.(energyNeeded := capacity), EnergySourceId))
      && h.ledger.Keys == ledger.Keys + {head.id}
      && h.ledger[head.id] == (if head.id in ledger then ledger[head.id] else []) + [c]
      && (forall k :: k in ledger && k != head.id ==> h.ledger[k] == ledger[k])
      && SumClaimed(h.ledger[head.id]) == (if head.id in ledger then SumClaimed(ledger[head.id]) else 0) + capacity
  {
    var head := queue[0];
    var before := if head.id in ledger then ledger[head.id] else [];
    SumClaimedConcat(before, [Claim(creepId, head.energyNeeded, capacity)]);
    assert [Claim(creepId, head.energyNeeded, capacity)][..0] == [];
  }

  /** An empty queue yields the controller task sized to the full capacity, and nothing else changes. */
  lemma HandOutFallback(ledger: Ledger, creepId: string, capacity: int, controllerId: string)
    ensures var h := HandOut([], ledger, creepId, capacity, Some(controllerId));
      && h.task.Some? && h.task.value.details.taskType == ControllerUpkeep
      && h.task.value.details.energyNeeded == capacity
      && h.task.value.details.id == TaskKey(ControllerUpkeep, controllerId)
      && h.queue == [] && h.ledger == ledger
  {
  }

  /**
   * The claim records the creep's whole capacity even when the popped need is smaller, so a
   * task's claims can add up to more than the need they were made against.
   */
  lemma ClaimCanExceedNeed()
    ensures var d := ToRoomTaskDetails(Transfer, "extension", 30);
      var h := HandOut([d], map[], "creep", 50, None);
      var claims := h.ledger[d.id];
      SumClaimed(claims) > MaxInitial(claims) && h.task.value.details.energyNeeded > d.energyNeeded
  {
    var d := ToRoomTaskDetails(Transfer, "extension", 30);
    var claims := HandOut([d], map[], "creep", 50, None).ledger[d.id];
    assert claims == [Claim("creep", 30, 50)];
    assert claims[..0] == [];
  }

  /** The claims not made by `creepId` (the `filter` of `creepFinishedRoomTask`). */
  function WithoutCreep(cs: seq<Claim>, creepId: string): (r: seq<Claim>)
    ensures forall c :: c in r <==> c in cs && c.creepId != creepId
    ensures forall c :: multiset(r)[c] == if c.creepId != creepId then multiset(cs)[c] else 0
    ensures |r| <= |cs|
  {
    if cs == [] then []
    else
      assert cs == [cs[0]] + cs[1..];
      (if cs[0].creepId != creepId then [cs[0]] else []) + WithoutCreep(cs[1..], creepId)
  }

  /** What `creepFinishedRoomTask` leaves as queue and ledger. */
  datatype Books = Books(queue: seq<RoomTaskDetails>, ledger: Ledger)

  function Finish(queue: seq<RoomTaskDetails>, ledger: Ledger, creepId: string, taskId: string, forceComplete: bool): Books
  {
    if taskId !in ledger then Books(queue, ledger)
    else
      var q := if forceComplete && queue != [] && queue[0].id == taskId then queue[1..] else queue;
      var claims := ledger[taskId];
      var l := if |claims| == 1 then ledger - {taskId}
               else if |claims| > 1 then ledger[taskId := WithoutCreep(claims, creepId)]
               else ledger;
      Books(q, l)
  }

  /**
   * Finishing: an unknown id changes nothing; a single claim deletes the entry whoever made it;
   * a longer list loses just this creep's claims; other entries are untouched; the queue loses
   * its head exactly when completion is forced, the id is known and the head carries that id.
   */
  lemma FinishCases(queue: seq<RoomTaskDetails>, ledger: Ledger, creepId: string, taskId: string, forceComplete: bool)
    ensures var b := Finish(queue, ledger, creepId, taskId, forceComplete);
      && (taskId !in ledger ==> b == Books(queue, ledger))
      && (taskId in ledger && |ledger[taskId]| == 1 ==> b.ledger == ledger - {taskId})
      && (taskId in ledger && |ledger[taskId]| > 1 ==>
            taskId in b.ledger && forall c :: c in b.ledger[taskId] <==> c in ledger[taskId] && c.creepId != creepId)
      && (forall k :: k != taskId ==> (k in b.ledger <==> k in ledger) && (k in ledger ==> b.ledger[k] == ledger[k]))
      && (b.queue == if forceComplete && taskId in ledger && queue != [] && queue[0].id == taskId then queue[1..] else queue)
  {
  }

  /** Finishing can leave an empty entry behind: when a two-claim list belongs to the finishing creep alone. */
  lemma FinishCanLeaveEmptyEntry()
    ensures var ledger: Ledger := map["task" := [Claim("a", 100, 50), Claim("a", 50, 50)]];
      var b := Finish([], ledger, "a", "task", false);
      "task" in b.ledger && b.ledger["task"] == []
  {
    var cs := [Claim("a", 100, 50), Claim("a", 50, 50)];
    assert cs[1..][1..] == [];
  }

  /**
   * Part-way through `getRoomTaskTracker`: the entries still `pending` are as persisted, the
   * others are reconciled, and the trackers cover exactly the reconciled non-empty entries.
   */
  ghost predicate Reconciling(original: Ledger, live: set<string>, pending: set<string>, ledger: Ledger,
                              trackers: map<string, Tracker>)
  {
    LedgerReconciling(original, live, pending, ledger) && TrackersReconciling(original, live, pending, trackers)
  }

  ghost predicate LedgerReconciling(original: Ledger, live: set<string>, pending: set<string>, ledger: Ledger)
  {
    && (forall k :: k in ledger <==> k in original && (k in pending || LiveClaims(original[k], live) != []))
    && (forall k :: k in ledger ==> ledger[k] == if k in pending then original[k] else LiveClaims(original[k], live))
  }

  ghost predicate TrackersReconciling(original: Ledger, live: set<string>, pending: set<string>, trackers: map<string, Tracker>)
  {
    && (forall k :: k in trackers <==> k in original && k !in pending && LiveClaims(original[k], live) != [])
    && (forall k :: k in trackers ==> trackers[k] == TrackerOf(k, LiveClaims(original[k], live)))
  }

  /** Reconciling one more pending entry. */
  lemma ReconcileStep(original: Ledger, live: set<string>, pending: set<string>, ledger: Ledger,
                      trackers: map<string, Tracker>, id: string)
    requires Reconciling(original, live, pending, ledger, trackers) && id in pending && pending <= original.Keys
    ensures var valid := LiveClaims(ledger[id], live);
      var ledger' := if |valid| <= 0 then ledger[id := valid] - {id} else ledger[id := valid];
      var trackers' := if |valid| <= 0 then trackers else trackers[id := TrackerOf(id, valid)];
      Reconciling(original, live, pending - {id}, ledger', trackers')
  {
  }

  /** With nothing pending, the ledger is the reconciled one. */
  lemma ReconciledLedger(original: Ledger, live: set<string>, ledger: Ledger)
    requires LedgerReconciling(original, live, {}, ledger)
    ensures ledger == Pruned(original, live)
  {
    var p := Pruned(original, live);
    assert forall k :: k in ledger <==> k in p;
    assert forall k :: k in ledger ==> ledger[k] == p[k];
  }

  /** With nothing pending, the trackers are those of the reconciled ledger. */
  lemma ReconciledTrackers(original: Ledger, live: set<string>, trackers: map<string, Tracker>)
    requires TrackersReconciling(original, live, {}, trackers)
    ensures trackers == Trackers(original, live)
  {
    var t := Trackers(original, live);
    assert forall k :: k in trackers <==> k in t;
    assert forall k :: k in trackers ==> trackers[k] == t[k];
  }

  // ---------------------------------------------------------------------------
  // The scheduler
  // ---------------------------------------------------------------------------

  class RoomTaskScheduler {
    const roomName: string
    /** This tick's queue, rebuilt by `Run` and consumed by `GetRoomTask`. */
    var priorityQueue: seq<RoomTaskDetails>
    /** `room.memory.creepAssignedRoomTasks`, persisted across ticks. */
    var ledger: Ledger

    /** A scheduler for the room; a ledger never persisted before starts out empty. */
    constructor (roomName: string, persisted: Option<Ledger>)
      ensures this.roomName == roomName && priorityQueue == []
      ensures ledger == if persisted.Some? then persisted.value else map[]
    {
      this.roomName := roomName;
      priorityQueue := [];
      ledger := if persisted.Some? then persisted.value else map[];
    }

    /** `run`: reconcile the ledger, then rebuild and sort the queue from what the room shows this tick. */
    method Run(room: RoomSnapshot, live: set<string>)
      modifies this
      ensures ledger == Pruned(old(ledger), live)
      ensures priorityQueue == QueueAfterRun(old(ledger), live, room)
    {
      priorityQueue := [];
      var trackers := GetRoomTaskTracker(live);
      var structural, building, upkeeping :=
        StructuresCandidates(room.structures), SitesCandidates(room.sites), ControllerCandidates(room.controller);
      PushStructures(trackers, room.structures);
      assert priorityQueue == Admitted(trackers, structural);
      PushSites(trackers, room.sites);
      if ControllerNeedsUpkeep(room.controller) {
        var upkeep := ToRoomTaskDetails(ControllerUpkeep, room.controller.value.id, ControllerTaskEnergy);
        AdmittedOne(trackers, upkeep);
        PriorityQueueTryPush(trackers, upkeep);
      }
      assert priorityQueue == Admitted(trackers, structural) + Admitted(trackers, building) + Admitted(trackers, upkeeping);
      AdmittedConcat(trackers, structural, building);
      AdmittedConcat(trackers, structural + building, upkeeping);
      assert Candidates(room) == structural + building + upkeeping;
      priorityQueue := SortByRank(priorityQueue);
    }

    /** The structures loop of `run`: a transfer and then a repair candidate per structure. */
    method PushStructures(trackers: map<string, Tracker>, structures: seq<Structure>)
      modifies this
      ensures priorityQueue == old(priorityQueue) + Admitted(trackers, StructuresCandidates(structures))
      ensures ledger == old(ledger)
    {
      var k := 0;
      while k < |structures|
        invariant 0 <= k <= |structures| && ledger == old(ledger)
        invariant priorityQueue == old(priorityQueue) + Admitted(trackers, StructuresCandidates(structures[..k]))
      {
        ghost var before := priorityQueue;
        PushStructure(trackers, structures[k]);
        PushedStructure(trackers, structures, k, old(priorityQueue), before, priorityQueue);
        k := k + 1;
      }
      assert structures[..k] == structures;
    }

    /** The body of the structures loop: the transfer candidate first, then the repair candidate. */
    method PushStructure(trackers: map<string, Tracker>, st: Structure)
      modifies this
      ensures priorityQueue == old(priorityQueue) + Admitted(trackers, StructureCandidates(st))
      ensures ledger == old(ledger)
    {
      ghost var start := priorityQueue;
      ghost var transfer := if NeedsEnergy(st) then Admit(trackers, ToRoomTaskDetails(Transfer, st.id, TransferCost(st))) else [];
      ghost var repair := if NeedsRepair(st) then Admit(trackers, ToRoomTaskDetails(Repair, st.id, RepairCost(st))) else [];
      if NeedsEnergy(st) {
        PriorityQueueTryPush(trackers, ToRoomTaskDetails(Transfer, st.id, TransferCost(st)));
      } else {
        assert start + transfer == start;
      }
      ghost var middle := priorityQueue;
      if NeedsRepair(st) {
        PriorityQueueTryPush(trackers, ToRoomTaskDetails(Repair, st.id, RepairCost(st)));
      } else {
        assert middle + repair == middle;
      }
      AdmittedStructure(trackers, st);
      ConcatAssoc(start, transfer, repair);
    }

    /** The construction-sites loop of `run`: one build candidate per site. */
    method PushSites(trackers: map<string, Tracker>, sites: seq<ConstructionSite>)
      modifies this
      ensures priorityQueue == old(priorityQueue) + Admitted(trackers, SitesCandidates(sites))
      ensures ledger == old(ledger)
    {
      var k := 0;
      while k < |sites|
        invariant 0 <= k <= |sites| && ledger == old(ledger)
        invariant priorityQueue == old(priorityQueue) + Admitted(trackers, SitesCandidates(sites[..k]))
      {
        var site := sites[k];
        ghost var before := priorityQueue;
        PriorityQueueTryPush(trackers, ToRoomTaskDetails(Build, site.id, BuildCost(site)));
        PushedSite(trackers, sites, k, old(priorityQueue), before, priorityQueue);
        k := k + 1;
      }
      assert sites[..k] == sites;
    }

    /** `priorityQueueTryPush`: nets the candidate against its tracker and appends it if it still needs energy. */
    method PriorityQueueTryPush(trackers: map<string, Tracker>, details: RoomTaskDetails)
      modifies this
      ensures priorityQueue == old(priorityQueue) + Admit(trackers, details)
      ensures ledger == old(ledger)
    {
      var d := details;
      if d.id in trackers {
        var track := trackers[d.id];
        d := d.(energyNeeded := d.energyNeeded - (track.totalEnergyNeedClaimed - (track.energyInitialNeeded - d.energyNeeded)));
      }
      if d.energyNeeded > 0 {
        priorityQueue := priorityQueue + [d];
      }
    }

    /** `getRoomTaskTracker`: drops dead creeps' claims and empty entries in place, and sums up each remaining entry. */
    method GetRoomTaskTracker(live: set<string>) returns (trackers: map<string, Tracker>)
      modifies this
      ensures ledger == Pruned(old(ledger), live)
      ensures trackers == Trackers(old(ledger), live)
      ensures priorityQueue == old(priorityQueue)
    {
      ghost var original := ledger;
      trackers := map[];
      var pending := ledger.Keys;
      while pending != {}
        invariant pending <= original.Keys
        invariant Reconciling(original, live, pending, ledger, trackers)
        invariant priorityQueue == old(priorityQueue)
        decreases pending
      {
        var id :| id in pending;
        var valid := LiveClaims(ledger[id], live);
        ghost var before, beforeTrackers := ledger, trackers;
        ledger := ledger[id := valid];
        if |valid| <= 0 {
          ledger := ledger - {id};
        } else {
          var track := Track(id, valid);
          trackers := trackers[id := track];
        }
        ReconcileStep(original, live, pending, before, beforeTrackers, id);
        pending := pending - {id};
      }
      ReconciledLedger(original, live, ledger);
      ReconciledTrackers(original, live, trackers);
    }

    /** `getRoomTask`: pops the head for a creep of the given capacity, splitting it when it is larger. */
    method GetRoomTask(creepId: string, capacity: int, controllerId: Option<string>) returns (task: Option<RoomTask>)
      modifies this
      ensures var h := HandOut(old(priorityQueue), old(ledger), creepId, capacity, controllerId);
        task == h.task && priorityQueue == h.queue && ledger == h.ledger
    {
      if priorityQueue == [] {
        if controllerId.None? {
          return None;
        }
        return Some(RoomTask(ToRoomTaskDetails(ControllerUpkeep, controllerId.value, capacity), EnergySourceId));
      }
      var details := priorityQueue[0];
      priorityQueue := priorityQueue[1..];
      if details.energyNeeded > capacity {
        priorityQueue := [details.(energyNeeded := details.energyNeeded - capacity)] + priorityQueue;
      }
      AssignCreepToRoomTask(creepId, capacity, details);
      task := Some(RoomTask(details.(energyNeeded := capacity), EnergySourceId));
    }

    /** `assignCreepToRoomTask`: records the creep's claim on the task, creating the entry when needed. */
    method AssignCreepToRoomTask(creepId: string, energyNeedClaimed: int, details: RoomTaskDetails)
      modifies this
      ensures ledger == WithClaim(old(ledger), details.id, Claim(creepId, details.energyNeeded, energyNeedClaimed))
      ensures priorityQueue == old(priorityQueue)
    {
      var claim := Claim(creepId, details.energyNeeded, energyNeedClaimed);
      if details.id in ledger {
        ledger := ledger[details.id := ledger[details.id] + [claim]];
        return;
      }
      ledger := ledger[details.id := [claim]];
    }

    /** `creepFinishedRoomTask`: removes the creep's claim, and with `forceComplete` the queue head of that task. */
    method CreepFinishedRoomTask(creepId: string, roomTaskId: string, forceComplete: bool)
      modifies this
      ensures Books(priorityQueue, ledger) == Finish(old(priorityQueue), old(ledger), creepId, roomTaskId, forceComplete)
    {
      if roomTaskId !in ledger {
        return;
      }
      var claims := ledger[roomTaskId];
      if forceComplete && priorityQueue != [] && priorityQueue[0].id == roomTaskId {
        priorityQueue := priorityQueue[1..];
      }
      if |claims| == 1 {
        ledger := ledger - {roomTaskId};
      } else if |claims| > 1 {
        ledger := ledger[roomTaskId := WithoutCreep(claims, creepId)];
      }
    }
  }

  /** The registry `roomTaskSchedulerInstances`: one scheduler per room name, created on first use. */
  class SchedulerRegistry {
    var instances: map<string, RoomTaskScheduler>

    constructor ()
      ensures instances == map[]
    {
      instances := map[];
    }

    /** `forRoom`: the room's scheduler, made (with the room's persisted ledger) and remembered the first time. */
    method ForRoom(roomName: string, persisted: Option<Ledger>) returns (scheduler: RoomTaskScheduler)
      modifies this
      ensures roomName in old(instances) ==> scheduler == old(instances)[roomName] && instances == old(instances)
      ensures roomName !in old(instances) ==>
        && fresh(scheduler) && scheduler.roomName == roomName && scheduler.priorityQueue == []
        && scheduler.ledger == (if persisted.Some? then persisted.value else map[])
        && instances == old(instances)[roomName := scheduler]
    {
      if roomName in instances {
        return instances[roomName];
      }
      scheduler := new RoomTaskScheduler(roomName, persisted);
      instances := instances[roomName := scheduler];
    }
  }

  // ---------------------------------------------------------------------------
  // A worked scenario
  // ---------------------------------------------------------------------------

  /**
   * A transfer task needing 200: creep A (capacity 50) takes 50 and leaves 150 queued, creep B
   * (capacity 50) takes 50 and leaves 100. Next tick, with the candidate still needing 200, the
   * trackers net both claims out to 100. When A reports completion, only B's claim is left.
   */
  lemma TwoCreepsShareATask()
    ensures var d := ToRoomTaskDetails(Transfer, "extension", 200);
      var a := HandOut([d], map[], "A", 50, None);
      var b := HandOut(a.queue, a.ledger, "B", 50, None);
      var live := {"A", "B"};
      var done := Finish(b.queue, b.ledger, "A", d.id, false);
      && a.task.value.details.energyNeeded == 50 && a.queue == [d.(energyNeeded := 150)]
      && b.task.value.details.energyNeeded == 50 && b.queue == [d.(energyNeeded := 100)]
      && b.ledger[d.id] == [Claim("A", 200, 50), Claim("B", 150, 50)]
      && AdjustedNeed(Trackers(b.ledger, live), d) == 100
      && done.ledger[d.id] == [Claim("B", 150, 50)]
  {
    var d := ToRoomTaskDetails(Transfer, "extension", 200);
    var a := HandOut([d], map[], "A", 50, None);
    var b := HandOut(a.queue, a.ledger, "B", 50, None);
    TwoCreepsClaim();
    SharedClaims(b.ledger);
  }

  /** The hand-out half: both creeps claim 50 and the ledger holds their claims in order. */
  lemma TwoCreepsClaim()
    ensures var d := ToRoomTaskDetails(Transfer, "extension", 200);
      var a := HandOut([d], map[], "A", 50, None);
      var b := HandOut(a.queue, a.ledger, "B", 50, None);
      && a.task.value.details.energyNeeded == 50 && a.queue == [d.(energyNeeded := 150)]
      && b.task.value.details.energyNeeded == 50 && b.queue == [d.(energyNeeded := 100)]
      && d.id in b.ledger && b.ledger[d.id] == [Claim("A", 200, 50), Claim("B", 150, 50)]
  {
    var d := ToRoomTaskDetails(Transfer, "extension", 200);
    var a := HandOut([d], map[], "A", 50, None);
    assert [d.(energyNeeded := 150)][1..] == [];
    assert a.ledger == map[d.id := [Claim("A", 200, 50)]];
    var b := HandOut(a.queue, a.ledger, "B", 50, None);
    assert b.ledger[d.id] == [Claim("A", 200, 50)] + [Claim("B", 150, 50)];
  }

  /** The ledger half: the two claims net the candidate out to 100, and A's completion leaves B's claim. */
  lemma SharedClaims(ledger: Ledger)
    requires var d := ToRoomTaskDetails(Transfer, "extension", 200);
      d.id in ledger && ledger[d.id] == [Claim("A", 200, 50), Claim("B", 150, 50)]
    ensures var d := ToRoomTaskDetails(Transfer, "extension", 200);
      && AdjustedNeed(Trackers(ledger, {"A", "B"}), d) == 100
      && Finish([d.(energyNeeded := 100)], ledger, "A", d.id, false).ledger[d.id] == [Claim("B", 150, 50)]
  {
    var d := ToRoomTaskDetails(Transfer, "extension", 200);
    var claims := ledger[d.id];
    SharedClaimsSums(claims);
    var t := Trackers(ledger, {"A", "B"});
    assert d.id in t && t[d.id] == TrackerOf(d.id, claims);
    AdjustedNeedSimplifies(t, d);
  }

  /** The sums behind sharing: both claims are live, the initial need is 200, 100 is claimed, and A's claim goes. */
  lemma SharedClaimsSums(claims: seq<Claim>)
    requires claims == [Claim("A", 200, 50), Claim("B", 150, 50)]
    ensures LiveClaims(claims, {"A", "B"}) == claims
    ensures MaxInitial(claims) == 200 && SumClaimed(claims) == 100
    ensures WithoutCreep(claims, "A") == [Claim("B", 150, 50)]
  {
    assert claims[1..][1..] == [];
    assert claims[..1] == [Claim("A", 200, 50)] && claims[..1][..0] == [];
    assert SumClaimed(claims[..1]) == 50 && MaxInitial(claims[..1]) == 200;
    assert claims[..|claims| - 1] == claims[..1];
  }
}
