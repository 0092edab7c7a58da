/** The shapes shared by every engine: grid points, the four unit moves and the game snapshot. */
module Types {
  /** A grid cell or a step between cells; the game uses one `{x, y}` record for both. */
  datatype Point = Point(x: int, y: int)

  type Position = Point
  type Direction = Point

  datatype MapSize = MapSize(width: int, height: int)

  const UP: Direction := Point(0, -1)
  const DOWN: Direction := Point(0, 1)
  const LEFT: Direction := Point(-1, 0)
  const RIGHT: Direction := Point(1, 0)

  /** The "no move" answer an engine gives when it has nowhere to go. */
  const STAY: Direction := Point(0, 0)

  /** The four unit moves, in the order in which the game enumerates them. */
  const DIRECTIONS: seq<Direction> := [UP, DOWN, LEFT, RIGHT]

  datatype GameState = GameState(players: seq<Position>, ghostPos: Position, mapSize: MapSize, walls: seq<Position>)

  /** A bounded list of recently visited cells, oldest first. */
  datatype MovementHistory = MovementHistory(positions: seq<Position>, maxHistory: nat)

  function Abs(n: int): (a: nat)
    ensures a == n || a == -n
  {
    if n < 0 then -n else n
  }

  /** The cell reached from `p` by one step `d`. */
  function Add(p: Position, d: Direction): (q: Position)
    ensures q.x - p.x == d.x && q.y - p.y == d.y
  {
    Point(p.x + d.x, p.y + d.y)
  }

  lemma DirectionsInOrder()
    ensures |DIRECTIONS| == 4
    ensures DIRECTIONS[0] == Point(0, -1) && DIRECTIONS[1] == Point(0, 1)
    ensures DIRECTIONS[2] == Point(-1, 0) && DIRECTIONS[3] == Point(1, 0)
  {
  }

  lemma DirectionsAreUnitSteps(d: Direction)
    requires d in DIRECTIONS
    ensures Abs(d.x) + Abs(d.y) == 1
    ensures d != STAY
  {
  }

  lemma DirectionsDistinct(i: nat, j: nat)
    requires i < j < |DIRECTIONS|
    ensures DIRECTIONS[i] != DIRECTIONS[j]
  {
  }

  lemma DirectionsClosedUnderNegation(d: Direction)
    requires d in DIRECTIONS
    ensures Point(-d.x, -d.y) in DIRECTIONS
    ensures d == UP <==> Point(-d.x, -d.y) == DOWN
    ensures d == LEFT <==> Point(-d.x, -d.y) == RIGHT
  {
  }
}
