/** Room positions as the game engine exposes them. */
module Positions {

  /** A tile of a room: column x, row y and the room's name. */
  datatype RoomPosition = RoomPosition(x: int, y: int, roomName: string)

  function Abs(n: int): (r: nat)
    ensures r == n || r == -n
  {
    if n < 0 then -n else n
  }

  /** `pos.inRangeTo(target, range)`: same room and at most `range` tiles away along both axes. */
  predicate InRangeTo(pos: RoomPosition, target: RoomPosition, range: int)
  {
    pos.roomName == target.roomName && Abs(pos.x - target.x) <= range && Abs(pos.y - target.y) <= range
  }
}
