/**
 * The catalogue of room tasks: the four task kinds and their priority ranks, the
 * integer observations of structures, construction sites and the controller, the
 * predicates and cost functions that turn those observations into task candidates,
 * the candidates' string ids, and the stable priority sort of the queue.
 *
 * Energy amounts, hit points and progress are JavaScript numbers that only ever hold
 * integers here, so they are modelled as unbounded `int`s with exact arithmetic.
 */
module RoomTasks {
  import opened Optional

  // ---------------------------------------------------------------------------
  // Task kinds
  // ---------------------------------------------------------------------------

  datatype TaskType = Transfer | Repair | Build | ControllerUpkeep

  /** The numeric tag a task kind carries (`ROOM_TASK_TRANSFER` = 0 … `ROOM_TASK_CONTROLLER` = 3). */
  function TypeCode(t: TaskType): (r: nat)
    ensures r <= 3
    ensures TaskTypeOfCode(r) == Some(t)
  {
    match t
    case Transfer => 0
    case Repair => 1
    case Build => 2
    case ControllerUpkeep => 3
  }

  /** The task kind a numeric tag stands for, if any. */
  function TaskTypeOfCode(n: int): Option<TaskType>
  {
    if n == 0 then Some(Transfer)
    else if n == 1 then Some(Repair)
    else if n == 2 then Some(Build)
    else if n == 3 then Some(ControllerUpkeep)
    else None
  }

  /** The task kinds from the most urgent to the least: the rank of a kind is its place here. */
  const RankOrder: seq<TaskType> := [ControllerUpkeep, Transfer, Repair, Build]

  /** The priority rank from `ROOM_TASK_ORDER`: the controller first, then transfer, repair, build. */
  function Rank(t: TaskType): (r: nat)
    ensures r <= 3
    ensures t == ControllerUpkeep <==> r == 0
    ensures RankOrder[r] == t
  {
    match t
    case ControllerUpkeep => 0
    case Transfer => 1
    case Repair => 2
    case Build => 3
  }

  /** A task candidate: its stable id, kind, target object id and the energy it still needs. */
  datatype RoomTaskDetails = RoomTaskDetails(id: string, taskType: TaskType, targetId: string, energyNeeded: int)

  /** A task handed to one creep: the candidate sized to the creep, plus the source to draw energy from. */
  datatype RoomTask = RoomTask(details: RoomTaskDetails, sourceId: string)

  /** The comparator `roomTaskOrderCallback`: negative, zero or positive as `a` ranks before, with or after `b`. */
  function RoomTaskOrder(a: RoomTaskDetails, b: RoomTaskDetails): (r: int)
    ensures r < 0 <==> Rank(a.taskType) < Rank(b.taskType)
    ensures r == 0 <==> a.taskType == b.taskType
    ensures r > 0 <==> Rank(b.taskType) < Rank(a.taskType)
  {
    Rank(a.taskType) - Rank(b.taskType)
  }

  // ---------------------------------------------------------------------------
  // Task ids
  // ---------------------------------------------------------------------------

  /** The one-character decimal rendering of a task kind's tag. */
  function TypeDigit(t: TaskType): (c: char)
    ensures '0' <= c <= '3' && c as int - '0' as int == TypeCode(t)
  {
    match t
    case Transfer => '0'
    case Repair => '1'
    case Build => '2'
    case ControllerUpkeep => '3'
  }

  const KeyPrefix: string := "roomTaskKey("

  /** The id `roomTaskKey(<tag>,<targetId>)` of the task of kind `t` on target `targetId`. */
  function TaskKey(t: TaskType, targetId: string): (k: string)
    ensures |k| == |targetId| + 15
    ensures k[..12] == KeyPrefix && k[12] == TypeDigit(t) && k[13] == ',' && k[|k| - 1] == ')'
    ensures k[14..|k| - 1] == targetId
  {
    KeyPrefix + [TypeDigit(t)] + "," + targetId + ")"
  }

  /** Task ids are determined by, and determine, the kind and the target. */
  lemma TaskKeyInjective(t1: TaskType, id1: string, t2: TaskType, id2: string)
    ensures TaskKey(t1, id1) == TaskKey(t2, id2) <==> t1 == t2 && id1 == id2
  {
    if TaskKey(t1, id1) == TaskKey(t2, id2) {
      var k := TaskKey(t1, id1);
      assert TypeDigit(t1) == k[12] == TypeDigit(t2);
      assert id1 == k[14..|k| - 1] == id2;
    }
  }

  /** `toRoomTaskDetails`: the candidate of kind `t` on `targetId` needing `energyNeeded`. */
  function ToRoomTaskDetails(t: TaskType, targetId: string, energyNeeded: int): (d: RoomTaskDetails)
    ensures d.taskType == t && d.targetId == targetId && d.energyNeeded == energyNeeded
    ensures d.id == TaskKey(t, targetId)
  {
    RoomTaskDetails(TaskKey(t, targetId), t, targetId, energyNeeded)
  }

  // ---------------------------------------------------------------------------
  // World observations
  // ---------------------------------------------------------------------------

  datatype StructureKind = Extension | Spawn | Road | Container | Rampart | OtherStructure

  /** A structure as seen this tick; `storeFree` is the free energy capacity of its store, `None` when it has no store. */
  datatype Structure = Structure(id: string, kind: StructureKind, hits: int, hitsMax: int, storeFree: Option<int>)

  datatype ConstructionSite = ConstructionSite(id: string, progress: int, progressTotal: int)

  /** The room controller; `ticksToDowngrade` is absent for a controller nobody owns. */
  datatype Controller = Controller(id: string, ticksToDowngrade: Option<int>)

  /** What `room.find` and `room.controller` report this tick, in the order the game lists them. */
  datatype RoomSnapshot = RoomSnapshot(structures: seq<Structure>, sites: seq<ConstructionSite>, controller: Option<Controller>)

  const RampartRepairCeiling: int := 50000
  const DowngradeThreshold: int := 2000
  const DowngradeUnknown: int := 9999
  const ControllerTaskEnergy: int := 50

  // ---------------------------------------------------------------------------
  // Predicates and costs
  // ---------------------------------------------------------------------------

  /** `isStructureNeedingEnergy`: an extension or spawn whose store has free energy capacity. */
  predicate NeedsEnergy(st: Structure)
  {
    (st.kind == Extension || st.kind == Spawn) && st.storeFree.Some? && st.storeFree.value > 0
  }

  /**
   * `isStructureNeedingRepair`: a road or container below half of its maximum hits, or a
   * rampart below 50000 hits. The ratio test `hits / hitsMax < 0.5` is decided exactly, including
   * a zero `hitsMax` (where the floating-point quotient is an infinity or not a number).
   */
  predicate NeedsRepair(st: Structure)
  {
    match st.kind
    case Road => RatioBelowHalf(st.hits, st.hitsMax)
    case Container => RatioBelowHalf(st.hits, st.hitsMax)
    case Rampart => st.hits < RampartRepairCeiling
    case _ => false
  }

  /** Whether `hits / hitsMax < 0.5` holds for the quotient of the two integers in IEEE arithmetic. */
  predicate RatioBelowHalf(hits: int, hitsMax: int)
  {
    if hitsMax > 0 then 2 * hits < hitsMax
    else if hitsMax < 0 then 2 * hits > hitsMax
    else hits < 0
  }

  /** For a non-zero maximum, the integer test agrees with the exact quotient. */
  lemma RatioBelowHalfExact(hits: int, hitsMax: int)
    requires hitsMax != 0
    ensures RatioBelowHalf(hits, hitsMax) <==> (hits as real) / (hitsMax as real) < 0.5
  {
    var h, m := hits as real, hitsMax as real;
    if hitsMax > 0 {
      QuotientBelowHalf(h, m);
    } else {
      assert h / m == (-h) / (-m);
      QuotientBelowHalf(-h, -m);
    }
  }

  /** Over a positive divisor, `h / m < 0.5` exactly when `2h < m`. */
  lemma QuotientBelowHalf(h: real, m: real)
    requires m > 0.0
    ensures h / m < 0.5 <==> 2.0 * h < m
  {
    var q := h / m;
    assert q * m == h;
    if q < 0.5 {
      MulStrict(q, 0.5, m);
    } else {
      MulWeak(0.5, q, m);
    }
  }

  lemma MulStrict(x: real, y: real, z: real)
    requires x < y && z > 0.0
    ensures x * z < y * z
  {
  }

  lemma MulWeak(x: real, y: real, z: real)
    requires x <= y && z > 0.0
    ensures x * z <= y * z
  {
  }

  /** `Math.ceil(a / 100)` on an integer `a`. */
  function CeilDiv100(a: int): (r: int)
    ensures 100 * (r - 1) < a <= 100 * r
  {
    -((-a) / 100)
  }

  /** The hits a repair should restore: up to the maximum, and for ramparts no further than 50000. */
  function RepairHits(st: Structure): (r: int)
    ensures r <= st.hitsMax - st.hits
    ensures st.kind == Rampart ==> r <= RampartRepairCeiling - st.hits
    ensures r == st.hitsMax - st.hits || (st.kind == Rampart && r == RampartRepairCeiling - st.hits)
  {
    var toRepair := st.hitsMax - st.hits;
    if st.kind == Rampart && RampartRepairCeiling - st.hits < toRepair then RampartRepairCeiling - st.hits
    else toRepair
  }

  /** `calculateRepairCost`: one unit of energy per 100 hits to restore, rounded up. */
  function RepairCost(st: Structure): (r: int)
    ensures 100 * (r - 1) < RepairHits(st) <= 100 * r
  {
    CeilDiv100(RepairHits(st))
  }

  /** A structure that needs repair has a positive repair cost when it is a rampart or has a positive maximum. */
  lemma RepairCostPositive(st: Structure)
    requires NeedsRepair(st) && st.hits < st.hitsMax
    ensures RepairCost(st) > 0
  {
  }

  /** `calculateBuildCost`: the progress still missing. */
  function BuildCost(site: ConstructionSite): (r: int)
    ensures site.progress + r == site.progressTotal
  {
    site.progressTotal - site.progress
  }

  /** `calculateTransferCost`: the free energy capacity of the store, or 0 without a store. */
  function TransferCost(st: Structure): (r: int)
    ensures st.storeFree.Some? ==> r == st.storeFree.value
    ensures st.storeFree.None? ==> r == 0
  {
    if st.storeFree.Some? then st.storeFree.value else 0
  }

  /** A structure that needs energy advertises a positive transfer cost. */
  lemma TransferCostPositive(st: Structure)
    requires NeedsEnergy(st)
    ensures TransferCost(st) > 0
  {
  }

  // ---------------------------------------------------------------------------
  // Discovery: the candidates of one tick, in the order `run` finds them
  // ---------------------------------------------------------------------------

  /** The candidates one structure yields: a transfer task first, then a repair task. */
  function StructureCandidates(st: Structure): (r: seq<RoomTaskDetails>)
    ensures |r| <= 2
    ensures forall d :: d in r ==> d.targetId == st.id && d.id == TaskKey(d.taskType, st.id)
    ensures ToRoomTaskDetails(Transfer, st.id, TransferCost(st)) in r <==> NeedsEnergy(st)
    ensures ToRoomTaskDetails(Repair, st.id, RepairCost(st)) in r <==> NeedsRepair(st)
    ensures forall d :: d in r ==> d.taskType == Transfer || d.taskType == Repair
  {
    (if NeedsEnergy(st) then [ToRoomTaskDetails(Transfer, st.id, TransferCost(st))] else [])
    + (if NeedsRepair(st) then [ToRoomTaskDetails(Repair, st.id, RepairCost(st))] else [])
  }

  /** The structure candidates of a list of structures, structure by structure. */
  function StructuresCandidates(sts: seq<Structure>): seq<RoomTaskDetails>
  {
    if sts == [] then [] else StructuresCandidates(sts[..|sts| - 1]) + StructureCandidates(sts[|sts| - 1])
  }

  /** The build candidates of a list of construction sites: one per site. */
  function SitesCandidates(sites: seq<ConstructionSite>): (r: seq<RoomTaskDetails>)
    ensures |r| == |sites|
  {
    if sites == [] then []
    else
      var site := sites[|sites| - 1];
      SitesCandidates(sites[..|sites| - 1]) + [ToRoomTaskDetails(Build, site.id, BuildCost(site))]
  }

  /** Whether the controller is close enough to downgrading to ask for upkeep (an absent value counts as 9999 ticks). */
  predicate ControllerNeedsUpkeep(controller: Option<Controller>)
  {
    controller.Some?
    && (if controller.value.ticksToDowngrade.Some? then controller.value.ticksToDowngrade.value else DowngradeUnknown)
       <= DowngradeThreshold
  }

  /** The controller upkeep candidate, needing 50 energy, when the controller is about to downgrade. */
  function ControllerCandidates(controller: Option<Controller>): (r: seq<RoomTaskDetails>)
    ensures |r| <= 1
    ensures r != [] <==> ControllerNeedsUpkeep(controller)
    ensures r != [] ==> r[0] == ToRoomTaskDetails(ControllerUpkeep, controller.value.id, ControllerTaskEnergy)
  {
    if ControllerNeedsUpkeep(controller) then [ToRoomTaskDetails(ControllerUpkeep, controller.value.id, ControllerTaskEnergy)]
    else []
  }

  /** All candidates of one tick: structures (transfer before repair each), then sites, then the controller. */
  function Candidates(room: RoomSnapshot): seq<RoomTaskDetails>
  {
    StructuresCandidates(room.structures) + SitesCandidates(room.sites) + ControllerCandidates(room.controller)
  }

  /** Only the controller yields a controller-upkeep candidate, and only structures yield transfer and repair. */
  lemma {:induction false} StructuresCandidatesKinds(sts: seq<Structure>)
    ensures forall d :: d in StructuresCandidates(sts) ==>
      (d.taskType == Transfer || d.taskType == Repair) && exists st :: st in sts && d in StructureCandidates(st)
  {
    if sts != [] {
      var init := sts[..|sts| - 1];
      StructuresCandidatesKinds(init);
      forall d | d in StructuresCandidates(sts)
        ensures (d.taskType == Transfer || d.taskType == Repair) && exists st :: st in sts && d in StructureCandidates(st)
      {
        if d in StructuresCandidates(init) {
          var st :| st in init && d in StructureCandidates(st);
          assert st in sts;
        } else {
          assert sts[|sts| - 1] in sts;
        }
      }
    }
  }

  /** Every site candidate is a build task on one of the sites. */
  lemma {:induction false} SitesCandidatesKinds(sites: seq<ConstructionSite>)
    ensures forall d :: d in SitesCandidates(sites) ==>
      d.taskType == Build && exists site :: site in sites && d == ToRoomTaskDetails(Build, site.id, BuildCost(site))
  {
    if sites != [] {
      var init := sites[..|sites| - 1];
      SitesCandidatesKinds(init);
      forall d | d in SitesCandidates(sites)
        ensures d.taskType == Build && exists site :: site in sites && d == ToRoomTaskDetails(Build, site.id, BuildCost(site))
      {
        if d in SitesCandidates(init) {
          var site :| site in init && d == ToRoomTaskDetails(Build, site.id, BuildCost(site));
          assert site in sites;
        } else {
          assert sites[|sites| - 1] in sites;
        }
      }
    }
  }

  // ---------------------------------------------------------------------------
  // The stable priority sort
  // ---------------------------------------------------------------------------

  /** The entries of `q` of rank `k`, in their order in `q`. */
  function Bucket(q: seq<RoomTaskDetails>, k: nat): (r: seq<RoomTaskDetails>)
    ensures forall d :: d in r ==> d in q && Rank(d.taskType) == k
    ensures |r| <= |q|
  {
    if q == [] then []
    else (if Rank(q[0].taskType) == k then [q[0]] else []) + Bucket(q[1..], k)
  }

  /**
   * `priorityQueue.sort(roomTaskOrderCallback)`. The sort is stable (ECMAScript 2019 and later),
   * so it is the entries of rank 0, then of rank 1, 2 and 3, each in their original order.
   */
  function SortByRank(q: seq<RoomTaskDetails>): seq<RoomTaskDetails>
  {
    Bucket(q, 0) + Bucket(q, 1) + Bucket(q, 2) + Bucket(q, 3)
  }

  ghost predicate SortedByRank(q: seq<RoomTaskDetails>)
  {
    forall i, j :: 0 <= i < j < |q| ==> Rank(q[i].taskType) <= Rank(q[j].taskType)
  }

  lemma SortedConcat(a: seq<RoomTaskDetails>, b: seq<RoomTaskDetails>)
    requires SortedByRank(a) && SortedByRank(b)
    requires forall x, y :: x in a && y in b ==> Rank(x.taskType) <= Rank(y.taskType)
    ensures SortedByRank(a + b)
  {
    forall i, j | 0 <= i < j < |a + b|
      ensures Rank((a + b)[i].taskType) <= Rank((a + b)[j].taskType)
    {
      if j < |a| {
        assert (a + b)[i] == a[i] && (a + b)[j] == a[j];
      } else if i >= |a| {
        assert (a + b)[i] == b[i - |a|] && (a + b)[j] == b[j - |a|];
      } else {
        assert (a + b)[i] in a && (a + b)[j] in b;
      }
    }
  }

  lemma BucketSorted(q: seq<RoomTaskDetails>, k: nat)
    ensures SortedByRank(Bucket(q, k))
  {
    var b := Bucket(q, k);
    forall i, j | 0 <= i < j < |b| ensures Rank(b[i].taskType) <= Rank(b[j].taskType) {
      assert b[i] in b && b[j] in b;
    }
  }

  /** After the sort, ranks never decrease along the queue. */
  lemma SortByRankSorted(q: seq<RoomTaskDetails>)
    ensures SortedByRank(SortByRank(q))
  {
    var b0, b1, b2, b3 := Bucket(q, 0), Bucket(q, 1), Bucket(q, 2), Bucket(q, 3);
    BucketSorted(q, 0);
    BucketSorted(q, 1);
    BucketSorted(q, 2);
    BucketSorted(q, 3);
    SortedConcat(b0, b1);
    SortedConcat(b0 + b1, b2);
    SortedConcat(b0 + b1 + b2, b3);
  }

  /** The split into the four rank buckets neither loses nor adds an entry. */
  lemma {:induction false} BucketsCover(q: seq<RoomTaskDetails>)
    ensures multiset(Bucket(q, 0)) + multiset(Bucket(q, 1)) + multiset(Bucket(q, 2)) + multiset(Bucket(q, 3))
            == multiset(q)
  {
    if q != [] {
      var x, rest := q[0], q[1..];
      BucketsCover(rest);
      assert q == [x] + rest;
      BucketHead(q, 0);
      BucketHead(q, 1);
      BucketHead(q, 2);
      BucketHead(q, 3);
      AddToOne(multiset(Bucket(q, 0)), multiset(Bucket(q, 1)), multiset(Bucket(q, 2)), multiset(Bucket(q, 3)),
               multiset(Bucket(rest, 0)), multiset(Bucket(rest, 1)), multiset(Bucket(rest, 2)), multiset(Bucket(rest, 3)),
               x, Rank(x.taskType));
    }
  }

  /** One step of `Bucket`, seen as multisets. */
  lemma BucketHead(q: seq<RoomTaskDetails>, k: nat)
    requires q != []
    ensures multiset(Bucket(q, k))
            == (if Rank(q[0].taskType) == k then multiset{q[0]} else multiset{}) + multiset(Bucket(q[1..], k))
  {
    var head := if Rank(q[0].taskType) == k then [q[0]] else [];
    assert Bucket(q, k) == head + Bucket(q[1..], k);
  }

  /** Adding one element to exactly one of four multisets adds it to their sum. */
  lemma AddToOne(m0: multiset<RoomTaskDetails>, m1: multiset<RoomTaskDetails>, m2: multiset<RoomTaskDetails>,
                 m3: multiset<RoomTaskDetails>, r0: multiset<RoomTaskDetails>, r1: multiset<RoomTaskDetails>,
                 r2: multiset<RoomTaskDetails>, r3: multiset<RoomTaskDetails>, x: RoomTaskDetails, k: nat)
    requires k <= 3
    requires m0 == (if k == 0 then multiset{x} else multiset{}) + r0
    requires m1 == (if k == 1 then multiset{x} else multiset{}) + r1
    requires m2 == (if k == 2 then multiset{x} else multiset{}) + r2
    requires m3 == (if k == 3 then multiset{x} else multiset{}) + r3
    ensures m0 + m1 + m2 + m3 == multiset{x} + (r0 + r1 + r2 + r3)
  {
  }

  /** The sort only reorders the queue. */
  lemma SortByRankPermutation(q: seq<RoomTaskDetails>)
    ensures multiset(SortByRank(q)) == multiset(q)
    ensures |SortByRank(q)| == |q|
  {
    BucketsCover(q);
    assert multiset(SortByRank(q)) == multiset(q);
    assert |multiset(SortByRank(q))| == |SortByRank(q)|;
  }

  lemma {:induction false} BucketConcat(a: seq<RoomTaskDetails>, b: seq<RoomTaskDetails>, k: nat)
    ensures Bucket(a + b, k) == Bucket(a, k) + Bucket(b, k)
  {
    if a == [] {
      assert a + b == b;
    } else {
      var x, a' := a[0], a[1..];
      var head := if Rank(x.taskType) == k then [x] else [];
      calc {
        Bucket(a + b, k);
        { assert a + b == [x] + (a' + b); }
        Bucket([x] + (a' + b), k);
        { BucketCons(x, a' + b, k); }
        head + Bucket(a' + b, k);
        { BucketConcat(a', b, k); }
        head + (Bucket(a', k) + Bucket(b, k));
        (head + Bucket(a', k)) + Bucket(b, k);
        { assert a == [x] + a'; BucketCons(x, a', k); }
        Bucket(a, k) + Bucket(b, k);
      }
    }
  }

  /** `Bucket` on a queue with a known head. */
  lemma BucketCons(x: RoomTaskDetails, r: seq<RoomTaskDetails>, k: nat)
    ensures Bucket([x] + r, k) == (if Rank(x.taskType) == k then [x] else []) + Bucket(r, k)
  {
    assert ([x] + r)[0] == x && ([x] + r)[1..] == r;
  }

  /** A queue whose entries all have rank `k` is its own bucket `k`. */
  lemma {:induction false} BucketKeepsAll(q: seq<RoomTaskDetails>, k: nat)
    requires forall d :: d in q ==> Rank(d.taskType) == k
    ensures Bucket(q, k) == q
  {
    if q != [] {
      assert q[0] in q;
      assert forall d :: d in q[1..] ==> d in q;
      BucketKeepsAll(q[1..], k);
      assert q == [q[0]] + q[1..];
    }
  }

  /** A queue without entries of rank `k` has an empty bucket `k`. */
  lemma {:induction false} BucketDropsAll(q: seq<RoomTaskDetails>, k: nat)
    requires forall d :: d in q ==> Rank(d.taskType) != k
    ensures Bucket(q, k) == []
  {
    if q != [] {
      assert q[0] in q;
      assert forall d :: d in q[1..] ==> d in q;
      BucketDropsAll(q[1..], k);
    }
  }

  /** Entries of equal rank keep their relative order: the sort is stable. */
  lemma SortByRankStable(q: seq<RoomTaskDetails>, k: nat)
    ensures Bucket(SortByRank(q), k) == Bucket(q, k)
  {
    if k > 3 {
      BucketEmptyAboveThree(q, k);
      BucketEmptyAboveThree(SortByRank(q), k);
    } else {
      var b0, b1, b2, b3 := Bucket(q, 0), Bucket(q, 1), Bucket(q, 2), Bucket(q, 3);
      assert Bucket(SortByRank(q), k) == Bucket(b0, k) + Bucket(b1, k) + Bucket(b2, k) + Bucket(b3, k) by {
        BucketConcat(b0 + b1 + b2, b3, k);
        BucketConcat(b0 + b1, b2, k);
        BucketConcat(b0, b1, k);
      }
      BucketsOfBuckets(q, k);
    }
  }

  /** Picking rank `k` out of the four buckets leaves only bucket `k`. */
  lemma BucketsOfBuckets(q: seq<RoomTaskDetails>, k: nat)
    requires k <= 3
    ensures Bucket(Bucket(q, 0), k) + Bucket(Bucket(q, 1), k) + Bucket(Bucket(q, 2), k) + Bucket(Bucket(q, 3), k)
            == Bucket(q, k)
  {
    BucketOfBucket(q, 0, k);
    BucketOfBucket(q, 1, k);
    BucketOfBucket(q, 2, k);
    BucketOfBucket(q, 3, k);
    OnlyOneNonEmpty(Bucket(Bucket(q, 0), k), Bucket(Bucket(q, 1), k), Bucket(Bucket(q, 2), k),
                    Bucket(Bucket(q, 3), k), Bucket(q, k), k);
  }

  /** Bucket `k` of bucket `j` is bucket `k` itself when `j == k`, and empty otherwise. */
  lemma BucketOfBucket(q: seq<RoomTaskDetails>, j: nat, k: nat)
    ensures Bucket(Bucket(q, j), k) == if j == k then Bucket(q, k) else []
  {
    if j == k {
      BucketKeepsAll(Bucket(q, k), k);
    } else {
      BucketDropsAll(Bucket(q, j), k);
    }
  }

  lemma OnlyOneNonEmpty(a0: seq<RoomTaskDetails>, a1: seq<RoomTaskDetails>, a2: seq<RoomTaskDetails>,
                        a3: seq<RoomTaskDetails>, x: seq<RoomTaskDetails>, k: nat)
    requires k <= 3
    requires a0 == (if k == 0 then x else []) && a1 == (if k == 1 then x else [])
    requires a2 == (if k == 2 then x else []) && a3 == (if k == 3 then x else [])
    ensures a0 + a1 + a2 + a3 == x
  {
    if k == 0 {
      assert a0 + a1 + a2 + a3 == x + [] + [] + [];
    } else if k == 1 {
      assert a0 + a1 + a2 + a3 == [] + x + [] + [];
    } else if k == 2 {
      assert a0 + a1 + a2 + a3 == [] + [] + x + [];
    } else {
      assert a0 + a1 + a2 + a3 == [] + [] + [] + x;
    }
  }

  lemma {:induction false} BucketEmptyAboveThree(q: seq<RoomTaskDetails>, k: nat)
    requires k > 3
    ensures Bucket(q, k) == []
  {
    if q != [] {
      BucketEmptyAboveThree(q[1..], k);
    }
  }

  /** A controller-upkeep task is sorted before every task of another kind, wherever it was found. */
  lemma ControllerFirst(q: seq<RoomTaskDetails>, i: nat, j: nat)
    requires i < |SortByRank(q)| && j < |SortByRank(q)|
    requires SortByRank(q)[i].taskType == ControllerUpkeep && SortByRank(q)[j].taskType != ControllerUpkeep
    ensures i < j
  {
    SortByRankSorted(q);
  }
}
