/**
 * The room planner: the room's level machine (UNKNOWN, LEVEL_0, LEVEL_1, LEVEL_2), its
 * per-tick entry point with the initialisation of an undefined state, and the two position
 * helpers the road planning of LEVEL_0 uses: the scan of a look-at matrix and the
 * de-duplication of positions by their packed `(x << 6) | y` key.
 */
module RoomPlanner {
  import opened Optional
  import opened Positions
  import opened StateMachine
  import opened StateMachineProperties

  // ---------------------------------------------------------------------------
  // Scanning a look-at matrix
  // ---------------------------------------------------------------------------

  datatype Terrain = Plain | Swamp | Wall

  /** One entry of `lookAt`: a terrain entry or any other kind of object at that tile. */
  datatype LookAtResult = TerrainLook(terrain: Terrain) | OtherLook(kind: string)

  /** A tile of the matrix: its x key and what is found there. */
  datatype MatrixCell = MatrixCell(x: int, results: seq<LookAtResult>)

  /** A row of the matrix: its y key and its tiles, in the order `for … in` visits them. */
  datatype MatrixRow = MatrixRow(y: int, cells: seq<MatrixCell>)

  type LookAtMatrix = seq<MatrixRow>

  /** The positions of the tiles of one row that the callback accepts, in visit order. */
  function RowMatches(roomName: string, row: MatrixRow, callback: seq<LookAtResult> -> bool, n: nat): (r: seq<RoomPosition>)
    requires n <= |row.cells|
    decreases n
  {
    if n == 0 then []
    else
      var c := row.cells[n - 1];
      RowMatches(roomName, row, callback, n - 1) + (if callback(c.results) then [RoomPosition(c.x, row.y, roomName)] else [])
  }

  /** The positions of the tiles of the first `n` rows that the callback accepts, row after row. */
  function MatrixMatches(roomName: string, matrix: LookAtMatrix, callback: seq<LookAtResult> -> bool, n: nat): (r: seq<RoomPosition>)
    requires n <= |matrix|
    decreases n
  {
    if n == 0 then []
    else MatrixMatches(roomName, matrix, callback, n - 1) + RowMatches(roomName, matrix[n - 1], callback, |matrix[n - 1].cells|)
  }

  /** `scanMatrixForRoomPositions`: walks every row and every tile, keeping the accepted tiles' positions. */
  method ScanMatrixForRoomPositions(roomName: string, matrix: LookAtMatrix, callback: seq<LookAtResult> -> bool)
    returns (result: seq<RoomPosition>)
    ensures result == MatrixMatches(roomName, matrix, callback, |matrix|)
  {
    result := [];
    for i := 0 to |matrix|
      invariant result == MatrixMatches(roomName, matrix, callback, i)
    {
      var row := matrix[i];
      ghost var before := result;
      for j := 0 to |row.cells|
        invariant result == before + RowMatches(roomName, row, callback, j)
      {
        var cell := row.cells[j];
        if callback(cell.results) {
          result := result + [RoomPosition(cell.x, row.y, roomName)];
        }
      }
    }
  }

  /** A position is in a row's matches exactly when it is an accepted tile of that row, tagged with the room's name. */
  lemma {:induction false} RowMatchesMembership(roomName: string, row: MatrixRow, callback: seq<LookAtResult> -> bool, n: nat, p: RoomPosition)
    requires n <= |row.cells|
    ensures p in RowMatches(roomName, row, callback, n) <==>
      exists j :: 0 <= j < n && callback(row.cells[j].results) && p == RoomPosition(row.cells[j].x, row.y, roomName)
    decreases n
  {
    if n > 0 {
      RowMatchesMembership(roomName, row, callback, n - 1, p);
    }
  }

  /**
   * The scan returns exactly the tiles of the matrix the callback accepts, each as a position
   * with the tile's x and y in the given room.
   */
  lemma {:induction false} MatrixMatchesMembership(roomName: string, matrix: LookAtMatrix, callback: seq<LookAtResult> -> bool, n: nat, p: RoomPosition)
    requires n <= |matrix|
    ensures p in MatrixMatches(roomName, matrix, callback, n) <==>
      exists i, j :: 0 <= i < n && 0 <= j < |matrix[i].cells| && callback(matrix[i].cells[j].results)
        && p == RoomPosition(matrix[i].cells[j].x, matrix[i].y, roomName)
    decreases n
  {
    if n > 0 {
      MatrixMatchesMembership(roomName, matrix, callback, n - 1, p);
      RowMatchesMembership(roomName, matrix[n - 1], callback, |matrix[n - 1].cells|, p);
    }
  }

  /** The callback LEVEL_0 scans the spawn's surroundings with: some terrain entry that is not a wall. */
  function Roadable(results: seq<LookAtResult>): (r: bool)
    ensures r <==> exists i :: 0 <= i < |results| && results[i].TerrainLook? && results[i].terrain != Wall
    decreases |results|
  {
    if results == [] then false
    else (results[0].TerrainLook? && results[0].terrain != Wall) || Roadable(results[1..])
  }

  // ---------------------------------------------------------------------------
  // De-duplicating positions
  // ---------------------------------------------------------------------------

  /** `2^k`. */
  function Pow2(k: nat): (r: nat)
    ensures r >= 1
  {
    if k == 0 then 1 else 2 * Pow2(k - 1)
  }

  /** `2^32`, the modulus of JavaScript's 32-bit integer operators. */
  const Two32: nat := 0x1_0000_0000

  /** The 32-bit pattern JavaScript's bitwise operators work on (`ToUint32` of an integral number). */
  function Uint32(n: int): (r: nat)
    ensures r < Two32
  {
    n % Two32
  }

  /** Bitwise OR of two non-negative numbers. */
  function BitOr(a: nat, b: nat): nat
    decreases a + b
  {
    if a == 0 then b
    else if b == 0 then a
    else 2 * BitOr(a / 2, b / 2) + (if a % 2 == 1 || b % 2 == 1 then 1 else 0)
  }

  /** OR of a multiple of `2^k` and a number below `2^k` is their sum: the bits do not overlap. */
  lemma {:induction false} BitOrDisjoint(m: nat, b: nat, k: nat)
    requires b < Pow2(k)
    ensures BitOr(m * Pow2(k), b) == m * Pow2(k) + b
    decreases k
  {
    var a := m * Pow2(k);
    if k > 0 && a != 0 && b != 0 {
      var h := Pow2(k - 1);
      assert a == 2 * (m * h) by { assert Pow2(k) == 2 * h; }
      assert a / 2 == m * h && a % 2 == 0;
      BitOrDisjoint(m, b / 2, k - 1);
      assert BitOr(a, b) == 2 * (m * h + b / 2) + b % 2;
    }
  }

  /**
   * The map key `(x << 6) | y` as a 32-bit pattern: `<<` shifts the 32-bit pattern of `x` and
   * drops the bits that leave it, `|` combines it with the pattern of `y`. (The number JavaScript
   * reads the pattern as is signed, which does not change which keys are equal.)
   */
  function PositionKey(p: RoomPosition): nat
  {
    BitOr(Uint32(Uint32(p.x) * 64), Uint32(p.y))
  }

  /** A coordinate on which the key is injective: `0 <= x < 2^26` and `0 <= y < 2^6`. */
  predicate KeyRange(p: RoomPosition)
  {
    0 <= p.x < 0x400_0000 && 0 <= p.y < 64
  }

  /** Within the key range the key packs the coordinates side by side: it is `64 * x + y`. */
  lemma KeyPacks(p: RoomPosition)
    requires KeyRange(p)
    ensures PositionKey(p) == 64 * p.x + p.y
  {
    assert Pow2(6) == 64;
    assert Uint32(p.x) == p.x && Uint32(p.y) == p.y;
    assert Uint32(p.x * 64) == p.x * 64;
    BitOrDisjoint(p.x, p.y, 6);
  }

  /** Within the key range, two positions share a key exactly when they share their coordinates. */
  lemma KeyInjective(p: RoomPosition, q: RoomPosition)
    requires KeyRange(p) && KeyRange(q)
    ensures PositionKey(p) == PositionKey(q) <==> p.x == q.x && p.y == q.y
  {
    KeyPacks(p);
    KeyPacks(q);
  }

  /** Outside the range the key collides: (0, 64) and (1, 0) share the key 64. */
  lemma KeyCollidesAboveRange(roomName: string)
    ensures PositionKey(RoomPosition(0, 64, roomName)) == PositionKey(RoomPosition(1, 0, roomName)) == 64
  {
    assert Pow2(7) == 128 && Pow2(0) == 1;
    BitOrDisjoint(0, 64, 7);
    BitOrDisjoint(64, 0, 0);
  }

  /** The index of the entry with key `k`, if any. */
  function IndexOfKey(es: seq<RoomPosition>, k: nat): (r: Option<nat>)
    ensures r.Some? ==> r.value < |es| && PositionKey(es[r.value]) == k
    ensures r.None? <==> forall i :: 0 <= i < |es| ==> PositionKey(es[i]) != k
    decreases |es|
  {
    if es == [] then None
    else if PositionKey(es[0]) == k then Some(0)
    else match IndexOfKey(es[1..], k)
      case None => None
      case Some(i) => Some(i + 1)
  }

  /**
   * The values of the `Map` after `set(key(p), p)` for every position in turn: a new key is
   * appended, an existing key keeps its place and takes the new position.
   */
  function Deduplicated(ps: seq<RoomPosition>): (r: seq<RoomPosition>)
    decreases |ps|
  {
    if ps == [] then []
    else
      var es := Deduplicated(ps[..|ps| - 1]);
      var p := ps[|ps| - 1];
      match IndexOfKey(es, PositionKey(p))
      case None => es + [p]
      case Some(i) => es[i := p]
  }

  /** No two kept positions share a key. */
  predicate DistinctKeys(es: seq<RoomPosition>)
  {
    forall i, j :: 0 <= i < j < |es| ==> PositionKey(es[i]) != PositionKey(es[j])
  }

  /** The output holds at most one position per key, and never more positions than the input. */
  lemma {:induction false} DeduplicatedDistinct(ps: seq<RoomPosition>)
    ensures DistinctKeys(Deduplicated(ps)) && |Deduplicated(ps)| <= |ps|
    decreases |ps|
  {
    if ps != [] {
      var es := Deduplicated(ps[..|ps| - 1]);
      DeduplicatedDistinct(ps[..|ps| - 1]);
      var p := ps[|ps| - 1];
      match IndexOfKey(es, PositionKey(p))
      case None =>
      case Some(k) =>
        var r := es[k := p];
        forall i, j | 0 <= i < j < |r| ensures PositionKey(r[i]) != PositionKey(r[j]) {
          assert PositionKey(r[i]) == PositionKey(es[i]) && PositionKey(r[j]) == PositionKey(es[j]);
        }
    }
  }

  /** No two kept positions share their coordinates, whatever the input. */
  lemma DeduplicatedUniqueCoordinates(ps: seq<RoomPosition>)
    ensures var r := Deduplicated(ps);
      forall i, j :: 0 <= i < j < |r| ==> r[i].x != r[j].x || r[i].y != r[j].y
  {
    DeduplicatedDistinct(ps);
  }

  /** A kept position is the new input or was kept before at the same place. */
  lemma DeduplicatedStep(ps: seq<RoomPosition>, i: nat)
    requires ps != [] && i < |Deduplicated(ps)|
    ensures var es := Deduplicated(ps[..|ps| - 1]);
      var r := Deduplicated(ps);
      r[i] == ps[|ps| - 1] || (i < |es| && r[i] == es[i])
  {
  }

  /** Every input's key has a kept position. */
  lemma {:induction false} DeduplicatedCoversKeys(ps: seq<RoomPosition>)
    ensures forall j :: 0 <= j < |ps| ==> IndexOfKey(Deduplicated(ps), PositionKey(ps[j])).Some?
    decreases |ps|
  {
    if ps != [] {
      var front := ps[..|ps| - 1];
      var es := Deduplicated(front);
      DeduplicatedCoversKeys(front);
      var p := ps[|ps| - 1];
      var r := Deduplicated(ps);
      forall j | 0 <= j < |ps| ensures IndexOfKey(r, PositionKey(ps[j])).Some? {
        if j < |ps| - 1 {
          assert ps[j] == front[j];
          var k := IndexOfKey(es, PositionKey(ps[j])).value;
          assert PositionKey(r[k]) == PositionKey(ps[j]);
        } else {
          var k := if IndexOfKey(es, PositionKey(p)).Some? then IndexOfKey(es, PositionKey(p)).value else |es|;
          assert r[k] == p;
        }
      }
    }
  }

  /** Every kept position is one of the inputs. */
  lemma {:induction false} DeduplicatedFromInput(ps: seq<RoomPosition>)
    ensures forall i :: 0 <= i < |Deduplicated(ps)| ==> Deduplicated(ps)[i] in ps
    decreases |ps|
  {
    if ps != [] {
      var front := ps[..|ps| - 1];
      DeduplicatedFromInput(front);
      var r := Deduplicated(ps);
      forall i | 0 <= i < |r| ensures r[i] in ps {
        DeduplicatedStep(ps, i);
        if r[i] != ps[|ps| - 1] {
          assert r[i] in front;
        }
      }
    }
  }

  /** Within the key range, every input's coordinates appear among the kept positions. */
  lemma DeduplicatedCoversCoordinates(ps: seq<RoomPosition>)
    requires forall j :: 0 <= j < |ps| ==> KeyRange(ps[j])
    ensures CoordinatesKept(ps, Deduplicated(ps))
  {
    DeduplicatedCoversKeys(ps);
    DeduplicatedFromInput(ps);
    var r := Deduplicated(ps);
    forall j | 0 <= j < |ps| ensures exists i :: 0 <= i < |r| && r[i].x == ps[j].x && r[i].y == ps[j].y {
      var i := IndexOfKey(r, PositionKey(ps[j])).value;
      SameCoordinates(ps, r[i], ps[j]);
    }
  }

  /** Every position of `ps` has a position of `r` with the same coordinates. */
  predicate CoordinatesKept(ps: seq<RoomPosition>, r: seq<RoomPosition>)
  {
    forall j :: 0 <= j < |ps| ==> exists i :: 0 <= i < |r| && r[i].x == ps[j].x && r[i].y == ps[j].y
  }

  /** Two inputs within the key range with the same key have the same coordinates. */
  lemma SameCoordinates(ps: seq<RoomPosition>, p: RoomPosition, q: RoomPosition)
    requires forall j :: 0 <= j < |ps| ==> KeyRange(ps[j])
    requires p in ps && q in ps && PositionKey(p) == PositionKey(q)
    ensures p.x == q.x && p.y == q.y
  {
    KeyInjective(p, q);
  }

  /** The last input with key `k`, if any. */
  function LastWithKey(ps: seq<RoomPosition>, k: nat): Option<RoomPosition>
    decreases |ps|
  {
    if ps == [] then None
    else if PositionKey(ps[|ps| - 1]) == k then Some(ps[|ps| - 1])
    else LastWithKey(ps[..|ps| - 1], k)
  }

  /** The position kept for a key is the last input with that key: a later `set` overwrites an earlier one. */
  lemma {:induction false} DeduplicatedLastWins(ps: seq<RoomPosition>)
    ensures var r := Deduplicated(ps);
      forall i :: 0 <= i < |r| ==> LastWithKey(ps, PositionKey(r[i])) == Some(r[i])
    decreases |ps|
  {
    if ps != [] {
      var front := ps[..|ps| - 1];
      var es := Deduplicated(front);
      DeduplicatedLastWins(front);
      DeduplicatedDistinct(front);
      var p := ps[|ps| - 1];
      var r := Deduplicated(ps);
      forall i | 0 <= i < |r| ensures LastWithKey(ps, PositionKey(r[i])) == Some(r[i]) {
        if r[i] != p {
          assert i < |es| && r[i] == es[i];
          assert PositionKey(p) != PositionKey(es[i]);
        }
      }
    }
  }

  /** The key ignores the room: positions of two rooms with the same coordinates collapse into the later one. */
  lemma KeyIgnoresRoom()
    ensures Deduplicated([RoomPosition(1, 1, "W1N1"), RoomPosition(1, 1, "W2N2")]) == [RoomPosition(1, 1, "W2N2")]
  {
    var ps := [RoomPosition(1, 1, "W1N1"), RoomPosition(1, 1, "W2N2")];
    assert ps[..1] == [RoomPosition(1, 1, "W1N1")];
    assert [RoomPosition(1, 1, "W1N1")][..0] == [];
  }

  // The `Map<number, RoomPosition>` the function fills: keys in insertion order and the value of each.

  /** The map's keys are distinct, are exactly its domain, and each is the key of its value. */
  ghost predicate MapShape(order: seq<nat>, values: map<nat, RoomPosition>)
  {
    && (forall i, j :: 0 <= i < j < |order| ==> order[i] != order[j])
    && (forall i :: 0 <= i < |order| ==> order[i] in values)
    && (forall k :: k in values ==> k in order)
    && (forall k :: k in values ==> PositionKey(values[k]) == k)
  }

  /** `Array.from(map.values())`: the values in key insertion order. */
  function MapValues(order: seq<nat>, values: map<nat, RoomPosition>): (r: seq<RoomPosition>)
    requires forall i :: 0 <= i < |order| ==> order[i] in values
    ensures |r| == |order| && forall i :: 0 <= i < |order| ==> r[i] == values[order[i]]
  {
    seq(|order|, i requires 0 <= i < |order| => values[order[i]])
  }

  /** `set` on a key the map holds replaces that key's value in place. */
  lemma MapSetExisting(order: seq<nat>, values: map<nat, RoomPosition>, p: RoomPosition)
    requires MapShape(order, values) && PositionKey(p) in values
    ensures var es := MapValues(order, values);
      var r := IndexOfKey(es, PositionKey(p));
      && MapShape(order, values[PositionKey(p) := p])
      && r.Some? && MapValues(order, values[PositionKey(p) := p]) == es[r.value := p]
  {
    MapShapeReplace(order, values, p);
    var i := IndexOfHeldKey(order, values, PositionKey(p));
    MapValuesReplace(order, values, i, p);
  }

  /** A held key sits at one place of the order, and that is where its value appears. */
  lemma IndexOfHeldKey(order: seq<nat>, values: map<nat, RoomPosition>, key: nat) returns (i: nat)
    requires MapShape(order, values) && key in values
    ensures i < |order| && order[i] == key && IndexOfKey(MapValues(order, values), key) == Some(i)
  {
    var es := MapValues(order, values);
    i :| 0 <= i < |order| && order[i] == key;
    var r := IndexOfKey(es, key);
    assert r.Some? by { assert PositionKey(es[i]) == key; }
    assert order[r.value] == key;
  }

  /** Replacing the value at the `i`-th key changes the `i`-th value only. */
  lemma MapValuesReplace(order: seq<nat>, values: map<nat, RoomPosition>, i: nat, p: RoomPosition)
    requires MapShape(order, values) && i < |order| && order[i] == PositionKey(p)
    ensures MapValues(order, values[PositionKey(p) := p]) == MapValues(order, values)[i := p]
  {
    var key, es := PositionKey(p), MapValues(order, values);
    var values' := values[key := p];
    forall j | 0 <= j < |order| ensures MapValues(order, values')[j] == es[i := p][j] {
      if j != i {
        assert order[j] != key;
      }
    }
  }

  /** Replacing the value of a held key by a position with that key keeps the shape. */
  lemma MapShapeReplace(order: seq<nat>, values: map<nat, RoomPosition>, p: RoomPosition)
    requires MapShape(order, values) && PositionKey(p) in values
    ensures MapShape(order, values[PositionKey(p) := p])
  {
  }

  /** `set` on a new key appends the key and its value. */
  lemma MapSetNew(order: seq<nat>, values: map<nat, RoomPosition>, p: RoomPosition)
    requires MapShape(order, values) && PositionKey(p) !in values
    ensures var es := MapValues(order, values);
      var key := PositionKey(p);
      && MapShape(order + [key], values[key := p])
      && IndexOfKey(es, key).None? && MapValues(order + [key], values[key := p]) == es + [p]
  {
    var key := PositionKey(p);
    var es := MapValues(order, values);
    var values' := values[key := p];
    assert IndexOfKey(es, key).None? by {
      forall i | 0 <= i < |es| ensures PositionKey(es[i]) != key {
        assert order[i] in values;
      }
    }
    var order' := order + [key];
    assert forall i :: 0 <= i < |order| ==> order[i] != key;
    assert MapShape(order', values') by {
      forall i, j | 0 <= i < j < |order'| ensures order'[i] != order'[j] {
        if j < |order| {
          assert order'[i] == order[i] && order'[j] == order[j];
        }
      }
      forall k | k in values' ensures k in order' {
        if k != key {
          assert k in order;
        }
      }
    }
    assert MapValues(order', values') == es + [p] by {
      forall j | 0 <= j < |order'| ensures MapValues(order', values')[j] == (es + [p])[j] {
        if j < |order| {
          assert order'[j] == order[j] != key;
        }
      }
    }
  }

  /** `getUniquePositionsInRoom`: one position per key, the last one given, in first-seen key order. */
  method GetUniquePositionsInRoom(positions: seq<RoomPosition>) returns (unique: seq<RoomPosition>)
    ensures unique == Deduplicated(positions)
  {
    var order: seq<nat> := [];
    var values: map<nat, RoomPosition> := map[];
    for i := 0 to |positions|
      invariant MapShape(order, values)
      invariant MapValues(order, values) == Deduplicated(positions[..i])
    {
      var position := positions[i];
      var key := PositionKey(position);
      assert positions[..i + 1][..i] == positions[..i];
      if key !in values {
        MapSetNew(order, values, position);
        order := order + [key];
      } else {
        MapSetExisting(order, values, position);
      }
      values := values[key := position];
    }
    assert positions[..|positions|] == positions;
    unique := MapValues(order, values);
  }

  // ---------------------------------------------------------------------------
  // The level machine
  // ---------------------------------------------------------------------------

  datatype RoomState = Unknown | Level0 | Level1 | Level2

  /**
   * The numeric ids `ROOM_STATE_UNKNOWN` = -1 … `ROOM_STATE_LEVEL_2` = 2. The room's memory
   * persists the state as this number, so each id names one state.
   */
  function RoomStateCode(s: RoomState): (r: int)
    ensures -1 <= r <= 2
    ensures RoomStateOfCode(r) == Some(s)
  {
    match s
    case Unknown => -1
    case Level0 => 0
    case Level1 => 1
    case Level2 => 2
  }

  /** The room state a persisted numeric id stands for, if any. */
  function RoomStateOfCode(n: int): Option<RoomState>
  {
    if n == -1 then Some(Unknown)
    else if n == 0 then Some(Level0)
    else if n == 1 then Some(Level1)
    else if n == 2 then Some(Level2)
    else None
  }

  /** The context `{room}`, reduced to what the guards read: the controller's level. */
  datatype RoomContext = RoomContext(controllerLevel: int)

  /** The machine carries no memory (`never`): the record's memory is always absent. */
  type NoMemory = ()

  /** The `onEnter` handlers; their road planning acts on the world only, so context and memory stay. */
  function EnterLevel(ctx: RoomContext, mem: Option<NoMemory>): (RoomContext, Option<NoMemory>)
  {
    (ctx, mem)
  }

  predicate ReachedLevel1(ctx: RoomContext, mem: Option<NoMemory>)
  {
    ctx.controllerLevel >= RoomStateCode(Level1)
  }

  /** The guard of LEVEL_1 → LEVEL_2 is switched off. */
  predicate Never(ctx: RoomContext, mem: Option<NoMemory>)
  {
    false
  }

  function LevelHandlers(): StateHandler<NoMemory, RoomContext>
  {
    StateHandler(Some(EnterLevel), None, None, None)
  }

  /** `roomStateMachine`: the three levels and the transitions between them, in declaration order. */
  function RoomMachine(): Config<RoomState, NoMemory, RoomContext>
  {
    Config(map[Level0 := LevelHandlers(), Level1 := LevelHandlers(), Level2 := LevelHandlers()],
           [ Transition(Unknown, Level0, None, None),
             Transition(Level0, Level1, Some(ReachedLevel1), None),
             Transition(Level1, Level2, Some(Never), None) ])
  }

  /** The builder chain that defines the machine produces exactly `RoomMachine()`. */
  method BuildRoomMachine() returns (config: Config<RoomState, NoMemory, RoomContext>)
    ensures config.states == RoomMachine().states && config.transitions == RoomMachine().transitions
  {
    var b := new StateMachineBuilder<RoomState, NoMemory, RoomContext>();
    b := b.AddState(Level0, LevelHandlers());
    b := b.AddState(Level1, LevelHandlers());
    b := b.AddState(Level2, LevelHandlers());
    b := b.AddTransition(Unknown, Level0, None, None);
    b := b.AddTransition(Level0, Level1, Some(ReachedLevel1), None);
    b := b.AddTransition(Level1, Level2, Some(Never), None);
    config := b.Build();
  }

  /** No state has `onTick` or `isFinished`, so every state counts as finished and nothing but `onEnter` changes. */
  lemma RoomAfterTick(s: RoomState, ctx: RoomContext, mem: Option<NoMemory>)
    ensures AfterTick(RoomMachine(), s, ctx, mem) == (ctx, mem) && IsFinished(RoomMachine(), s, ctx, mem)
  {
  }

  /** UNKNOWN moves to LEVEL_0 unconditionally. */
  lemma UnknownToLevel0(mem: Option<NoMemory>, ctx: RoomContext)
    ensures var r := Step(RoomMachine(), Unknown, mem, ctx); r.fired == Some(0) && r.state == Level0
  {
    RoomAfterTick(Unknown, ctx, mem);
    StepFires(RoomMachine(), Unknown, mem, ctx, 0);
    StepTarget(RoomMachine(), Unknown, mem, ctx);
  }

  /** LEVEL_0 moves to LEVEL_1 once the controller has reached level 1. */
  lemma Level0Rises(mem: Option<NoMemory>, ctx: RoomContext)
    requires ctx.controllerLevel >= 1
    ensures var r := Step(RoomMachine(), Level0, mem, ctx); r.fired == Some(1) && r.state == Level1
  {
    var config := RoomMachine();
    var ts := config.transitions;
    RoomAfterTick(Level0, ctx, mem);
    assert FirstFrom(ts, Level0, 0, 1, ctx, mem) by {
      assert ts[0].from == Unknown;
    }
    StepTakes(config, Level0, mem, ctx, 1);
  }

  /** LEVEL_0 stays put while the controller is below level 1. */
  lemma Level0Waits(mem: Option<NoMemory>, ctx: RoomContext)
    requires ctx.controllerLevel < 1
    ensures var r := Step(RoomMachine(), Level0, mem, ctx); r.fired.None? && r.state == Level0 && r.memory == mem
  {
    var config := RoomMachine();
    var ts := config.transitions;
    RoomAfterTick(Level0, ctx, mem);
    assert NoneQualifies(ts, Level0, 0, ctx, mem) by {
      assert ts[0].from == Unknown && ts[2].from == Level1;
      assert !Qualifies(ts[1], ctx, mem);
    }
    StepStays(config, Level0, mem, ctx);
  }

  /** LEVEL_0 moves to LEVEL_1 exactly when the controller has reached level 1, and otherwise stays. */
  lemma Level0Step(mem: Option<NoMemory>, ctx: RoomContext)
    ensures var r := Step(RoomMachine(), Level0, mem, ctx);
      && (r.state == Level1 <==> ctx.controllerLevel >= 1)
      && (ctx.controllerLevel < 1 ==> r.state == Level0 && r.fired.None?)
  {
    if ctx.controllerLevel >= 1 {
      Level0Rises(mem, ctx);
    } else {
      Level0Waits(mem, ctx);
    }
  }

  /** LEVEL_1 → LEVEL_2 never fires, and nothing leaves LEVEL_2: both stay put. */
  lemma UpperLevelsStay(s: RoomState, mem: Option<NoMemory>, ctx: RoomContext)
    requires s == Level1 || s == Level2
    ensures var r := Step(RoomMachine(), s, mem, ctx); r.fired.None? && r.state == s && r.memory == mem
  {
    var config := RoomMachine();
    var ts := config.transitions;
    RoomAfterTick(s, ctx, mem);
    assert NoneQualifies(ts, s, 0, ctx, mem) by {
      assert ts[0].from == Unknown && ts[1].from == Level0;
      assert ts[2].from == Level1 && !Qualifies(ts[2], ctx, mem);
    }
    StepStays(config, s, mem, ctx);
  }

  /** A room's level never goes down. */
  lemma LevelNeverDecreases(s: RoomState, mem: Option<NoMemory>, ctx: RoomContext)
    ensures RoomStateCode(s) <= RoomStateCode(Step(RoomMachine(), s, mem, ctx).state)
  {
    match s
    case Unknown => UnknownToLevel0(mem, ctx);
    case Level0 => Level0Step(mem, ctx);
    case Level1 => UpperLevelsStay(s, mem, ctx);
    case Level2 => UpperLevelsStay(s, mem, ctx);
  }

  /** One tick never takes a room that is not in LEVEL_2 into it. */
  lemma StepAvoidsLevel2(s: RoomState, mem: Option<NoMemory>, ctx: RoomContext)
    requires s != Level2
    ensures Step(RoomMachine(), s, mem, ctx).state != Level2
  {
    match s
    case Unknown => UnknownToLevel0(mem, ctx);
    case Level0 => Level0Step(mem, ctx);
    case Level1 => UpperLevelsStay(s, mem, ctx);
  }

  /** A room that does not start in LEVEL_2 never reaches it, over any sequence of ticks. */
  lemma {:induction false} Level2Unreachable(s: RoomState, mem: Option<NoMemory>, ctxs: seq<RoomContext>)
    requires s != Level2
    ensures Level2 !in Visited(RoomMachine(), s, mem, ctxs)
    decreases |ctxs|
  {
    if ctxs != [] {
      var o := Step(RoomMachine(), s, mem, ctxs[0]);
      StepAvoidsLevel2(s, mem, ctxs[0]);
      Level2Unreachable(o.state, o.memory, ctxs[1..]);
      assert Visited(RoomMachine(), s, mem, ctxs) == [o.state] + Visited(RoomMachine(), o.state, o.memory, ctxs[1..]);
    }
  }

  /** `room.memory`: the machine's state, undefined until the first run, and its (always absent) memory. */
  class RoomMemory {
    var state: Option<RoomState>
    var memory: Option<NoMemory>

    constructor ()
      ensures state.None? && memory.None?
    {
      state := None;
      memory := None;
    }
  }

  /**
   * `runRoomStateMachine`: an undefined state becomes UNKNOWN, then the engine takes one step
   * on the room's memory.
   */
  method RunRoomStateMachine(roomMemory: RoomMemory, ctx: RoomContext)
    modifies roomMemory
    ensures var start := if old(roomMemory.state).Some? then old(roomMemory.state).value else Unknown;
      var r := Step(RoomMachine(), start, old(roomMemory.memory), ctx);
      roomMemory.state == Some(r.state) && roomMemory.memory == r.memory
  {
    if roomMemory.state.None? {
      roomMemory.state := Some(Unknown);
    }
    var record := new StateMachineContext<RoomState, NoMemory>(roomMemory.state.value, roomMemory.memory);
    var _, _ := RunStateMachine(RoomMachine(), record, ctx);
    roomMemory.state := Some(record.state);
    roomMemory.memory := record.memory;
  }

  /** A new room's first run initialises it to UNKNOWN and moves it straight on to LEVEL_0. */
  method FirstRoomRun(ctx: RoomContext) returns (roomMemory: RoomMemory)
    ensures roomMemory.state == Some(Level0)
  {
    roomMemory := new RoomMemory();
    RunRoomStateMachine(roomMemory, ctx);
    UnknownToLevel0(None, ctx);
  }
}
