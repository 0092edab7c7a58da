/** Grid helpers: distance, cell validity and the enumeration of legal moves. */
module Utils {
  import opened Wrappers
  import opened Types

  /** `|dx| + |dy|`, the only distance the engines use. */
  function ManhattanDistance(a: Position, b: Position): (d: nat)
    ensures d == 0 <==> a == b
  {
    Abs(a.x - b.x) + Abs(a.y - b.y)
  }

  lemma ManhattanSymmetric(a: Position, b: Position)
    ensures ManhattanDistance(a, b) == ManhattanDistance(b, a)
  {
  }

  /** One unit step changes the distance to any fixed cell by exactly one. */
  lemma StepChangesDistanceByOne(p: Position, d: Direction, target: Position)
    requires d in DIRECTIONS
    ensures ManhattanDistance(Add(p, d), target) == ManhattanDistance(p, target) + 1
         || ManhattanDistance(Add(p, d), target) + 1 == ManhattanDistance(p, target)
  {
  }

  predicate InBounds(pos: Position, size: MapSize) {
    0 <= pos.x < size.width && 0 <= pos.y < size.height
  }

  /** Whether some cell of `cells` has the coordinates of `pos` (the source's `.some(...)` test). */
  predicate Occupies(cells: seq<Position>, pos: Position) {
    exists i :: 0 <= i < |cells| && cells[i].x == pos.x && cells[i].y == pos.y
  }

  /** A cell an agent may enter: inside the map, not a wall and, when a list of
      occupied cells is supplied, not one of those. */
  predicate IsValidPosition(pos: Position, size: MapSize, walls: seq<Position>, occupied: Option<seq<Position>>)
    ensures !InBounds(pos, size) ==> !IsValidPosition(pos, size, walls, occupied)
    ensures pos in walls ==> !IsValidPosition(pos, size, walls, occupied)
    ensures occupied.Some? && pos in occupied.value ==> !IsValidPosition(pos, size, walls, occupied)
    ensures (InBounds(pos, size) && pos !in walls && (occupied.None? || pos !in occupied.value))
      ==> IsValidPosition(pos, size, walls, occupied)
  {
    if pos.x < 0 || pos.x >= size.width || pos.y < 0 || pos.y >= size.height then false
    else if Occupies(walls, pos) then false
    else if occupied.Some? && Occupies(occupied.value, pos) then false
    else true
  }

  /** `a` can be obtained from `b` by deleting elements: the order of `b` is kept. */
  predicate IsSubsequence<T(==)>(a: seq<T>, b: seq<T>)
    decreases |b|
  {
    a == [] || (b != [] && ((a[0] == b[0] && IsSubsequence(a[1..], b[1..])) || IsSubsequence(a, b[1..])))
  }

  lemma {:induction false} SubsequenceLength<T>(a: seq<T>, b: seq<T>)
    requires IsSubsequence(a, b)
    ensures |a| <= |b|
    decreases |b|
  {
    if a != [] {
      if a[0] == b[0] && IsSubsequence(a[1..], b[1..]) {
        SubsequenceLength(a[1..], b[1..]);
      } else {
        SubsequenceLength(a, b[1..]);
      }
    }
  }

  /** The candidates whose neighbouring cell is valid, in candidate order. */
  function FilterValid(cands: seq<Direction>, pos: Position, size: MapSize, walls: seq<Position>,
                       occupied: Option<seq<Position>>): (r: seq<Direction>)
    ensures IsSubsequence(r, cands) && |r| <= |cands|
    ensures forall d :: d in r <==> d in cands && IsValidPosition(Add(pos, d), size, walls, occupied)
    decreases |cands|
  {
    if cands == [] then []
    else
      var rest := FilterValid(cands[1..], pos, size, walls, occupied);
      assert forall d :: d in cands <==> d == cands[0] || d in cands[1..];
      if IsValidPosition(Add(pos, cands[0]), size, walls, occupied) then [cands[0]] + rest else rest
  }

  /** The directions among UP, DOWN, LEFT, RIGHT (in that order) whose neighbour is valid. */
  function ValidDirections(pos: Position, size: MapSize, walls: seq<Position>, occupied: Option<seq<Position>>)
    : (r: seq<Direction>)
    ensures IsSubsequence(r, DIRECTIONS) && |r| <= 4
    ensures forall d :: d in r <==> d in DIRECTIONS && IsValidPosition(Add(pos, d), size, walls, occupied)
  {
    FilterValid(DIRECTIONS, pos, size, walls, occupied)
  }

  /** Supplying occupied cells can only remove candidates, never add or reorder them. */
  lemma {:induction false} OccupiedOnlyShrinks(cands: seq<Direction>, pos: Position, size: MapSize,
                                               walls: seq<Position>, occupied: seq<Position>)
    ensures IsSubsequence(FilterValid(cands, pos, size, walls, Some(occupied)),
                          FilterValid(cands, pos, size, walls, None))
    decreases |cands|
  {
    if cands != [] {
      OccupiedOnlyShrinks(cands[1..], pos, size, walls, occupied);
    }
  }

  lemma ValidDirectionsShrinkWithOccupied(pos: Position, size: MapSize, walls: seq<Position>, occupied: seq<Position>)
    ensures IsSubsequence(ValidDirections(pos, size, walls, Some(occupied)), ValidDirections(pos, size, walls, None))
  {
    OccupiedOnlyShrinks(DIRECTIONS, pos, size, walls, occupied);
  }

  function OppositeDirection(d: Direction): (r: Direction)
    ensures Add(Add(Point(0, 0), d), r) == Point(0, 0)
  {
    Point(-d.x, -d.y)
  }

  lemma OppositeIsInvolution(d: Direction)
    ensures OppositeDirection(OppositeDirection(d)) == d
    ensures d in DIRECTIONS ==> OppositeDirection(d) in DIRECTIONS && OppositeDirection(d) != d
  {
  }

  predicate IsSameDirection(a: Direction, b: Direction)
    ensures IsSameDirection(a, b) <==> a == b
  {
    a.x == b.x && a.y == b.y
  }

  /** Whether `pos` is one of the recently visited cells. */
  predicate WasRecentPosition(pos: Position, history: seq<Position>)
    ensures WasRecentPosition(pos, history) <==> pos in history
    ensures history == [] ==> !WasRecentPosition(pos, history)
  {
    Occupies(history, pos)
  }
}
