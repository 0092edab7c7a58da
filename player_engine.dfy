/** The runner's move policy: base direction weights, fleeing a nearby ghost,
    avoiding recent cells and other runners, and a one-in-four purely random move. */
module Player {
  import opened Wrappers
  import opened Types
  import opened Utils
  import opened Movement

  const RANDOM_MOVE_CHANCE: real := 0.25
  const FLEE_RADIUS: nat := 3
  const FLEE_BONUS: real := 5.0
  const TOWARD_GHOST_FACTOR: real := 0.3
  const RECENT_FACTOR: real := 0.5
  const CROWD_FACTOR: real := 0.2

  /** The weight of `d` once a ghost at distance three or less is taken into account. */
  function FleeAdjust(pos: Position, ghostPos: Position, d: Direction, w: real): real {
    if ManhattanDistance(Add(pos, d), ghostPos) > ManhattanDistance(pos, ghostPos) then OrOne(w) + FLEE_BONUS
    else OrOne(w) * TOWARD_GHOST_FACTOR
  }

  function FleeStep(pos: Position, ghostPos: Position): (nat, Direction, real) -> real {
    (i: nat, d: Direction, w: real) => FleeAdjust(pos, ghostPos, d, w)
  }

  predicate GhostNear(pos: Position, ghostPos: Option<Position>) {
    ghostPos.Some? && ManhattanDistance(pos, ghostPos.value) <= FLEE_RADIUS
  }

  function FleeWeights(ws: Weights, pos: Position, ghostPos: Option<Position>): Weights {
    if GhostNear(pos, ghostPos) then Adjust(ws, FleeStep(pos, ghostPos.value)) else ws
  }

  /** The weight of `d` after halving it for a recently visited target cell and
      multiplying by 0.2 for a cell another runner stands on. */
  function AvoidAdjust(pos: Position, recent: seq<Position>, others: Option<seq<Position>>, d: Direction, w: real): real {
    var target := Add(pos, d);
    var w1 := if WasRecentPosition(target, recent) then OrOne(w) * RECENT_FACTOR else w;
    if others.Some? && Occupies(others.value, target) then OrOne(w1) * CROWD_FACTOR else w1
  }

  function AvoidStep(pos: Position, recent: seq<Position>, others: Option<seq<Position>>): (nat, Direction, real) -> real {
    (i: nat, d: Direction, w: real) => AvoidAdjust(pos, recent, others, d, w)
  }

  /** Every weight the runner's policy gives its valid directions, in their order. */
  function PlayerWeights(valid: seq<Direction>, last: Option<Direction>, recent: seq<Position>, pos: Position,
                         ghostPos: Option<Position>, others: Option<seq<Position>>): Weights
  {
    Adjust(FleeWeights(DirectionWeights(valid, last), pos, ghostPos), AvoidStep(pos, recent, others))
  }

  /** The runner's next direction, given the previous move, the recent cells and two draws in [0, 1). */
  function PlayerMove(last: Option<Direction>, recent: seq<Position>, pos: Position, size: MapSize, walls: seq<Position>,
                      ghostPos: Option<Position>, others: Option<seq<Position>>, r1: real, r2: real): Direction
    requires 0.0 <= r1 < 1.0 && 0.0 <= r2 < 1.0
  {
    var valid := ValidDirections(pos, size, walls, None);
    if |valid| == 0 then STAY
    else if r1 < RANDOM_MOVE_CHANCE then valid[RandomIndex(|valid|, r2)]
    else
      var ws := PlayerWeights(valid, last, recent, pos, ghostPos, others);
      ws[SelectIndex(ws, r2)].0
  }

  /** Fleeing and avoiding never make a weight zero or negative, and keep the directions. */
  lemma PlayerWeightsPositive(valid: seq<Direction>, last: Option<Direction>, recent: seq<Position>, pos: Position,
                              ghostPos: Option<Position>, others: Option<seq<Position>>)
    ensures Keys(PlayerWeights(valid, last, recent, pos, ghostPos, others)) == valid
    ensures AllPositive(PlayerWeights(valid, last, recent, pos, ghostPos, others))
  {
    var base := DirectionWeights(valid, last);
    var fled := FleeWeights(base, pos, ghostPos);
    assert Keys(fled) == valid;
    assert AllPositive(fled) by {
      if GhostNear(pos, ghostPos) {
        forall i | 0 <= i < |fled| ensures fled[i].1 > 0.0 {
          assert fled[i].1 == FleeAdjust(pos, ghostPos.value, base[i].0, base[i].1);
        }
      }
    }
    var ws := PlayerWeights(valid, last, recent, pos, ghostPos, others);
    forall i | 0 <= i < |ws| ensures ws[i].1 > 0.0 {
      assert ws[i].1 == AvoidAdjust(pos, recent, others, fled[i].0, fled[i].1);
    }
  }

  /** The runner stays put exactly when no neighbouring cell is inside the map and free of walls;
      otherwise it moves to such a cell. */
  lemma PlayerMoveIsValid(last: Option<Direction>, recent: seq<Position>, pos: Position, size: MapSize, walls: seq<Position>,
                          ghostPos: Option<Position>, others: Option<seq<Position>>, r1: real, r2: real)
    requires 0.0 <= r1 < 1.0 && 0.0 <= r2 < 1.0
    ensures var d := PlayerMove(last, recent, pos, size, walls, ghostPos, others, r1, r2);
      (ValidDirections(pos, size, walls, None) == [] ==> d == STAY) &&
      (ValidDirections(pos, size, walls, None) != [] ==>
         d in DIRECTIONS && IsValidPosition(Add(pos, d), size, walls, None))
  {
    var valid := ValidDirections(pos, size, walls, None);
    if |valid| > 0 && r1 >= RANDOM_MOVE_CHANCE {
      PlayerWeightsPositive(valid, last, recent, pos, ghostPos, others);
      var ws := PlayerWeights(valid, last, recent, pos, ghostPos, others);
      assert ws[SelectIndex(ws, r2)].0 == Keys(ws)[SelectIndex(ws, r2)];
    }
  }

  /** Every valid direction has some pair of draws under which the runner takes it,
      through the weighted draw and through the random move alike. */
  lemma EveryValidDirectionReachable(last: Option<Direction>, recent: seq<Position>, pos: Position, size: MapSize,
                                     walls: seq<Position>, ghostPos: Option<Position>, others: Option<seq<Position>>, d: Direction)
    requires d in DIRECTIONS && IsValidPosition(Add(pos, d), size, walls, None)
    ensures exists r2: real :: 0.0 <= r2 < 1.0 && PlayerMove(last, recent, pos, size, walls, ghostPos, others, 0.5, r2) == d
    ensures exists r2: real :: 0.0 <= r2 < 1.0 && PlayerMove(last, recent, pos, size, walls, ghostPos, others, 0.0, r2) == d
  {
    var valid := ValidDirections(pos, size, walls, None);
    assert d in valid;
    var k :| 0 <= k < |valid| && valid[k] == d;
    var r := WeightedPickOf(last, recent, pos, size, walls, ghostPos, others, k);
    var q := RandomPickOf(last, recent, pos, size, walls, ghostPos, others, k);
  }

  /** A draw under which the weighted branch picks the `k`-th valid direction. */
  lemma WeightedPickOf(last: Option<Direction>, recent: seq<Position>, pos: Position, size: MapSize,
                       walls: seq<Position>, ghostPos: Option<Position>, others: Option<seq<Position>>, k: nat)
    returns (r: real)
    requires k < |ValidDirections(pos, size, walls, None)|
    ensures 0.0 <= r < 1.0
    ensures PlayerMove(last, recent, pos, size, walls, ghostPos, others, 0.5, r) == ValidDirections(pos, size, walls, None)[k]
  {
    var valid := ValidDirections(pos, size, walls, None);
    PlayerWeightsPositive(valid, last, recent, pos, ghostPos, others);
    var ws := PlayerWeights(valid, last, recent, pos, ghostPos, others);
    EveryEntrySelectable(ws, k);
    r :| 0.0 <= r < 1.0 && SelectIndex(ws, r) == k;
    assert ws[k].0 == Keys(ws)[k];
  }

  /** A draw under which the random branch picks the `k`-th valid direction. */
  lemma RandomPickOf(last: Option<Direction>, recent: seq<Position>, pos: Position, size: MapSize,
                     walls: seq<Position>, ghostPos: Option<Position>, others: Option<seq<Position>>, k: nat)
    returns (q: real)
    requires k < |ValidDirections(pos, size, walls, None)|
    ensures 0.0 <= q < 1.0
    ensures PlayerMove(last, recent, pos, size, walls, ghostPos, others, 0.0, q) == ValidDirections(pos, size, walls, None)[k]
  {
    var n := |ValidDirections(pos, size, walls, None)|;
    q := (k as real + 0.5) / n as real;
    RandomIndexHits(n, k);
  }

  /** With the ghost three cells away or closer, a direction leading away from it
      outweighs one that does not, before the recent-cell and other-runner penalties. */
  lemma FleeFavoursEscape(valid: seq<Direction>, last: Option<Direction>, pos: Position, ghostPos: Position, i: nat, j: nat)
    requires i < |valid| && j < |valid|
    requires ManhattanDistance(pos, ghostPos) <= FLEE_RADIUS
    requires ManhattanDistance(Add(pos, valid[i]), ghostPos) > ManhattanDistance(pos, ghostPos)
    requires ManhattanDistance(Add(pos, valid[j]), ghostPos) <= ManhattanDistance(pos, ghostPos)
    ensures FleeWeights(DirectionWeights(valid, last), pos, Some(ghostPos))[i].1
          > FleeWeights(DirectionWeights(valid, last), pos, Some(ghostPos))[j].1
  {
    var base := DirectionWeights(valid, last);
    var fled := FleeWeights(base, pos, Some(ghostPos));
    assert fled[i].1 == FleeAdjust(pos, ghostPos, valid[i], WeightOf(valid[i], last));
    assert fled[j].1 == FleeAdjust(pos, ghostPos, valid[j], WeightOf(valid[j], last));
    WeightAtMostFour(valid[j], last);
  }

  lemma WeightAtMostFour(d: Direction, last: Option<Direction>)
    ensures WeightOf(d, last) <= 4.0
  {
  }

  /** The recent-cell and other-runner penalties only ever lower a positive weight,
      and lower it strictly when the target cell is recent or taken. */
  lemma AvoidanceOnlyLowers(pos: Position, recent: seq<Position>, others: Option<seq<Position>>, d: Direction, w: real)
    requires w > 0.0
    ensures 0.0 < AvoidAdjust(pos, recent, others, d, w) <= w
    ensures (Add(pos, d) in recent || (others.Some? && Occupies(others.value, Add(pos, d))))
        <==> AvoidAdjust(pos, recent, others, d, w) < w
  {
  }

  /** The runner's weights, built as the engine builds them: the base weights, then
      the flee adjustment when the ghost is near, then the avoidance penalties. */
  method WeighDirections(valid: seq<Direction>, last: Option<Direction>, recent: seq<Position>, pos: Position,
                         ghostPos: Option<Position>, others: Option<seq<Position>>) returns (ws: Weights)
    ensures ws == PlayerWeights(valid, last, recent, pos, ghostPos, others)
  {
    ws := DirectionWeights(valid, last);
    if ghostPos.Some? && ManhattanDistance(pos, ghostPos.value) <= FLEE_RADIUS {
      ws := AdjustWeights(ws, FleeStep(pos, ghostPos.value));
    }
    ws := AdjustWeights(ws, AvoidStep(pos, recent, others));
  }

  /** A runner that, through composition, owns the shared movement state. */
  class PlayerEngine {
    const movement: MovementEngine

    constructor(maxHistory: nat)
      ensures fresh(movement) && movement.Valid()
      ensures movement.history == MovementHistory([], maxHistory) && movement.lastDirection == None
    {
      movement := new MovementEngine(maxHistory);
    }

    method GetNextMove(pos: Position, size: MapSize, walls: seq<Position>, ghostPos: Option<Position>,
                       others: Option<seq<Position>>, r1: real, r2: real) returns (d: Direction)
      requires movement.Valid()
      requires 0.0 <= r1 < 1.0 && 0.0 <= r2 < 1.0
      modifies movement
      ensures movement.Valid()
      ensures d == PlayerMove(old(movement.lastDirection), old(movement.history.positions), pos, size, walls, ghostPos, others, r1, r2)
      ensures ValidDirections(pos, size, walls, None) == [] ==> unchanged(movement)
      ensures ValidDirections(pos, size, walls, None) != [] ==>
        movement.lastDirection == Some(d) &&
        movement.history == old(movement.history).(positions := PushBounded(old(movement.history.positions), pos, old(movement.history.maxHistory)))
    {
      var valid := ValidDirections(pos, size, walls, None);
      if |valid| == 0 {
        return STAY;
      }
      var ws := WeighDirections(valid, movement.lastDirection, movement.history.positions, pos, ghostPos, others);
      if r1 < RANDOM_MOVE_CHANCE {
        d := valid[RandomIndex(|valid|, r2)];
      } else {
        d := SelectWeightedDirection(ws, r2);
      }
      movement.lastDirection := Some(d);
      movement.UpdateHistory(pos);
    }
  }
}
