/** The ghost's pursuit policy: pick the closest runner, remember its recent
    cells, and weight the valid directions by one of four chase levels. */
module Ghost {
  import opened Wrappers
  import opened Types
  import opened Utils
  import opened Movement

  const MIN_LEVEL: real := 1.0
  const MAX_LEVEL: real := 4.0
  const PLAYER_HISTORY_LIMIT: nat := 5
  const CHASE_BONUS: real := 3.0
  const OPTIMAL_BONUS: real := 4.0
  const PATTERN_STEP: real := 0.5
  const NEARBY_RADIUS: nat := 4
  const BACKOFF_CHANCE: real := 0.1
  const BACKOFF_RADIUS: nat := 3
  const BACKOFF_FACTOR: real := 0.3

  /** `Math.max(1, Math.min(4, level))`. */
  function ClampLevel(level: real): (l: real)
    ensures MIN_LEVEL <= l <= MAX_LEVEL
    ensures MIN_LEVEL <= level <= MAX_LEVEL ==> l == level
    ensures level < MIN_LEVEL ==> l == MIN_LEVEL
    ensures level > MAX_LEVEL ==> l == MAX_LEVEL
  {
    var capped := if level < MAX_LEVEL then level else MAX_LEVEL;
    if capped > MIN_LEVEL then capped else MIN_LEVEL
  }

  /** The runners the ghost considers: the whole list when one is given (even an
      empty one), else the single runner, else none. */
  function Targets(playerPos: Option<Position>, allPlayers: Option<seq<Position>>): (ps: seq<Position>)
    ensures allPlayers.Some? ==> ps == allPlayers.value
    ensures allPlayers.None? && playerPos.Some? ==> ps == [playerPos.value]
    ensures allPlayers.None? && playerPos.None? ==> ps == []
  {
    if allPlayers.Some? then allPlayers.value
    else if playerPos.Some? then [playerPos.value]
    else []
  }

  /** The index of the closest of the first `n` runners, the earliest one on ties. */
  function ClosestIndex(pos: Position, ps: seq<Position>, n: nat): (k: nat)
    requires 1 <= n <= |ps|
    ensures k < n
    ensures forall j :: 0 <= j < n ==> ManhattanDistance(pos, ps[k]) <= ManhattanDistance(pos, ps[j])
    ensures forall j :: 0 <= j < k ==> ManhattanDistance(pos, ps[j]) > ManhattanDistance(pos, ps[k])
    decreases n
  {
    if n == 1 then 0
    else
      var k := ClosestIndex(pos, ps, n - 1);
      if ManhattanDistance(pos, ps[n - 1]) < ManhattanDistance(pos, ps[k]) then n - 1 else k
  }

  function ClosestPlayer(pos: Position, ps: seq<Position>): Position
    requires |ps| > 0
  {
    ps[ClosestIndex(pos, ps, |ps|)]
  }

  /** No runner listed before index `k` is as near as runner `k`. */
  predicate IsEarliestAt(pos: Position, ps: seq<Position>, k: nat) {
    k < |ps| && forall j :: 0 <= j < k ==> ManhattanDistance(pos, ps[j]) > ManhattanDistance(pos, ps[k])
  }

  /** The closest runner is at least as near as every runner, and strictly nearer
      than every runner listed before it. */
  lemma ClosestPlayerIsEarliestNearest(pos: Position, ps: seq<Position>)
    requires |ps| > 0
    ensures ClosestPlayer(pos, ps) in ps
    ensures forall p :: p in ps ==> ManhattanDistance(pos, ClosestPlayer(pos, ps)) <= ManhattanDistance(pos, p)
    ensures exists k: nat :: IsEarliestAt(pos, ps, k) && ps[k] == ClosestPlayer(pos, ps)
  {
    var k := ClosestIndex(pos, ps, |ps|);
    forall p | p in ps
      ensures ManhattanDistance(pos, ClosestPlayer(pos, ps)) <= ManhattanDistance(pos, p)
    {
      var j :| 0 <= j < |ps| && ps[j] == p;
    }
  }

  /** The target's next cell, extrapolated from its last move when two cells are remembered. */
  function PredictPlayerPosition(hist: seq<Position>, current: Position): Position {
    if |hist| < 2 then current
    else
      var a := hist[|hist| - 2];
      var b := hist[|hist| - 1];
      Point(current.x + (b.x - a.x), current.y + (b.y - a.y))
  }

  /** Once the target has been pushed onto a non-empty history, the prediction is the
      target moved once more by the step it just made. */
  lemma PredictionExtrapolatesLastStep(hist: seq<Position>, target: Position)
    requires 1 <= |hist| <= PLAYER_HISTORY_LIMIT
    ensures var prev := hist[|hist| - 1];
      PredictPlayerPosition(PushBounded(hist, target, PLAYER_HISTORY_LIMIT), target)
        == Add(target, Point(target.x - prev.x, target.y - prev.y))
  {
    PushBoundedKeepsNewest(hist, target, PLAYER_HISTORY_LIMIT);
  }

  /** With a single remembered cell or none, the prediction is the target's own cell. */
  lemma PredictionWithoutMotionIsCurrent(hist: seq<Position>, current: Position)
    requires |hist| < 2
    ensures PredictPlayerPosition(hist, current) == current
  {
  }

  /** One unit step along the axis on which the target is further away, the vertical one on ties. */
  function FindOptimalDirection(pos: Position, target: Position): Direction {
    var dx := target.x - pos.x;
    var dy := target.y - pos.y;
    if Abs(dx) > Abs(dy) then (if dx > 0 then RIGHT else LEFT)
    else (if dy > 0 then DOWN else UP)
  }

  /** The optimal direction is one of the four moves and brings the ghost one cell
      closer to any target it is not already on; on the target it is UP. */
  lemma OptimalDirectionApproaches(pos: Position, target: Position)
    ensures FindOptimalDirection(pos, target) in DIRECTIONS
    ensures pos != target ==>
      ManhattanDistance(Add(pos, FindOptimalDirection(pos, target)), target) + 1 == ManhattanDistance(pos, target)
    ensures pos == target ==> FindOptimalDirection(pos, target) == UP
    ensures Abs(target.x - pos.x) > Abs(target.y - pos.y) ==> FindOptimalDirection(pos, target).y == 0
    ensures Abs(target.x - pos.x) <= Abs(target.y - pos.y) ==> FindOptimalDirection(pos, target).x == 0
  {
  }

  /** The step between remembered cells `i - 1` and `i`. */
  function MoveAt(hist: seq<Position>, i: nat): Direction
    requires 1 <= i < |hist|
  {
    Point(hist[i].x - hist[i - 1].x, hist[i].y - hist[i - 1].y)
  }

  function Half(b: bool): real {
    if b then PATTERN_STEP else 0.0
  }

  /** Half a point for each of the target's last two steps that went in direction `dir`. */
  function PatternScore(hist: seq<Position>, dir: Direction): real {
    if |hist| < 3 then 0.0
    else Half(MoveAt(hist, |hist| - 2) == dir) + Half(MoveAt(hist, |hist| - 1) == dir)
  }

  /** The score is 0, 0.5 or 1; it is 1 exactly when both of the last two steps went
      in `dir`, and 0 whenever fewer than three cells are remembered. */
  lemma PatternScoreRange(hist: seq<Position>, dir: Direction)
    ensures PatternScore(hist, dir) in {0.0, 0.5, 1.0}
    ensures |hist| < 3 ==> PatternScore(hist, dir) == 0.0
    ensures PatternScore(hist, dir) == 1.0
        <==> |hist| >= 3 && MoveAt(hist, |hist| - 2) == dir && MoveAt(hist, |hist| - 1) == dir
  {
  }

  /** The number of runners within four cells of `pos`. */
  function CountNearby(pos: Position, ps: seq<Position>): (n: nat)
    ensures n <= |ps|
  {
    if ps == [] then 0
    else CountNearby(pos, ps[..|ps| - 1]) + (if ManhattanDistance(pos, ps[|ps| - 1]) <= NEARBY_RADIUS then 1 else 0)
  }

  /** The indices of the runners within four cells of `pos`. */
  ghost function NearbyIndices(pos: Position, ps: seq<Position>): set<nat> {
    set k: nat | k < |ps| && ManhattanDistance(pos, ps[k]) <= NEARBY_RADIUS
  }

  /** The count is the number of runners within four cells, each counted once per entry. */
  lemma {:induction false} CountNearbyIsCount(pos: Position, ps: seq<Position>)
    ensures CountNearby(pos, ps) == |NearbyIndices(pos, ps)|
  {
    if ps != [] {
      var n := |ps| - 1;
      CountNearbyIsCount(pos, ps[..n]);
      assert NearbyIndices(pos, ps[..n]) == set k: nat | k < n && ManhattanDistance(pos, ps[k]) <= NEARBY_RADIUS;
      if ManhattanDistance(pos, ps[n]) <= NEARBY_RADIUS {
        assert NearbyIndices(pos, ps) == NearbyIndices(pos, ps[..n]) + {n};
      } else {
        assert NearbyIndices(pos, ps) == NearbyIndices(pos, ps[..n]);
      }
    }
  }

  /** Level 1: +3 for every direction that strictly shortens the distance to the target. */
  function BasicStep(pos: Position, target: Position): (nat, Direction, real) -> real {
    (i: nat, d: Direction, w: real) =>
      if ManhattanDistance(Add(pos, d), target) < ManhattanDistance(pos, target) then OrOne(w) + CHASE_BONUS else w
  }

  function Inverse(n: nat): (v: real)
    ensures v > 0.0
  {
    1.0 / (n as real + 1.0)
  }

  /** Level 2: closeness to the target and, at 0.7 of the weight, to its predicted cell. */
  function PredictiveStep(pos: Position, target: Position, predicted: Position): (nat, Direction, real) -> real {
    (i: nat, d: Direction, w: real) =>
      var next := Add(pos, d);
      OrOne(w) + (Inverse(ManhattanDistance(next, target)) + 0.7 * Inverse(ManhattanDistance(next, predicted))) * 3.0
  }

  /** Whether the target has at most two ways out of its cell. */
  predicate Cornered(target: Position, size: MapSize, walls: seq<Position>) {
    |ValidDirections(target, size, walls, None)| <= 2
  }

  /** Level 3: closeness to the target, plus two when the target is nearly cornered. */
  function StrategicStep(pos: Position, target: Position, cornered: bool): (nat, Direction, real) -> real {
    (i: nat, d: Direction, w: real) =>
      OrOne(w) + (Inverse(ManhattanDistance(Add(pos, d), target)) + (if cornered then 2.0 else 0.0)) * 3.0
  }

  /** The level-4 score of direction `d`, given the draw that decides whether the ghost backs off. */
  function AdvancedScore(pos: Position, target: Position, hist: seq<Position>, ps: seq<Position>, d: Direction, draw: real): real {
    var optimal := if d == FindOptimalDirection(pos, target) then OPTIMAL_BONUS else 0.0;
    var nearby := CountNearby(pos, ps);
    var crowd := if nearby > 1 then nearby as real * 0.5 else 0.0;
    var score := optimal + PatternScore(hist, d) + crowd;
    if draw < BACKOFF_CHANCE && ManhattanDistance(pos, target) < BACKOFF_RADIUS then score * BACKOFF_FACTOR else score
  }

  /** The backoff draw of the `i`-th direction; a missing draw never backs off. */
  function DrawAt(backoff: seq<real>, i: nat): real {
    if i < |backoff| then backoff[i] else 1.0
  }

  /** Level 4: the optimal axis, the target's habits and a crowd of runners, damped
      when the ghost decides to back off. */
  function AdvancedStep(pos: Position, target: Position, hist: seq<Position>, ps: seq<Position>, backoff: seq<real>): (nat, Direction, real) -> real {
    (i: nat, d: Direction, w: real) => OrOne(w) + AdvancedScore(pos, target, hist, ps, d, DrawAt(backoff, i))
  }

  function BasicWeights(last: Option<Direction>, pos: Position, target: Position, valid: seq<Direction>): Weights {
    Adjust(DirectionWeights(valid, last), BasicStep(pos, target))
  }

  function PredictiveWeights(last: Option<Direction>, hist: seq<Position>, pos: Position, target: Position, valid: seq<Direction>): Weights {
    Adjust(DirectionWeights(valid, last), PredictiveStep(pos, target, PredictPlayerPosition(hist, target)))
  }

  function StrategicWeights(last: Option<Direction>, pos: Position, target: Position, valid: seq<Direction>,
                            size: MapSize, walls: seq<Position>): Weights
  {
    Adjust(DirectionWeights(valid, last), StrategicStep(pos, target, Cornered(target, size, walls)))
  }

  function AdvancedWeights(last: Option<Direction>, hist: seq<Position>, pos: Position, target: Position, valid: seq<Direction>,
                           ps: seq<Position>, backoff: seq<real>): Weights
  {
    Adjust(DirectionWeights(valid, last), AdvancedStep(pos, target, hist, ps, backoff))
  }

  /** The direction weights of the chase at `level` (any level other than 2, 3 or 4 chases as level 1). */
  function ChaseWeights(level: real, last: Option<Direction>, hist: seq<Position>, pos: Position, target: Position,
                        valid: seq<Direction>, size: MapSize, walls: seq<Position>, ps: seq<Position>, backoff: seq<real>): Weights
  {
    if level == 2.0 then PredictiveWeights(last, hist, pos, target, valid)
    else if level == 3.0 then StrategicWeights(last, pos, target, valid, size, walls)
    else if level == 4.0 then AdvancedWeights(last, hist, pos, target, valid, ps, backoff)
    else BasicWeights(last, pos, target, valid)
  }

  lemma AdvancedScoreNonNegative(pos: Position, target: Position, hist: seq<Position>, ps: seq<Position>, d: Direction, draw: real)
    ensures AdvancedScore(pos, target, hist, ps, d, draw) >= 0.0
  {
    PatternScoreRange(hist, d);
  }

  /** Every chase keeps the valid directions in order and gives each a positive weight. */
  lemma ChaseWeightsPositive(level: real, last: Option<Direction>, hist: seq<Position>, pos: Position, target: Position,
                             valid: seq<Direction>, size: MapSize, walls: seq<Position>, ps: seq<Position>, backoff: seq<real>)
    ensures Keys(ChaseWeights(level, last, hist, pos, target, valid, size, walls, ps, backoff)) == valid
    ensures AllPositive(ChaseWeights(level, last, hist, pos, target, valid, size, walls, ps, backoff))
  {
    var base := DirectionWeights(valid, last);
    if level == 2.0 {
      var ws := PredictiveWeights(last, hist, pos, target, valid);
      forall i | 0 <= i < |ws| ensures ws[i].1 > 0.0 {
        var next := Add(pos, base[i].0);
        var a := Inverse(ManhattanDistance(next, target));
        var b := Inverse(ManhattanDistance(next, PredictPlayerPosition(hist, target)));
        assert ws[i].1 == OrOne(base[i].1) + (a + 0.7 * b) * 3.0;
      }
    } else if level == 3.0 {
      var ws := StrategicWeights(last, pos, target, valid, size, walls);
      forall i | 0 <= i < |ws| ensures ws[i].1 > 0.0 {
        var a := Inverse(ManhattanDistance(Add(pos, base[i].0), target));
        assert ws[i].1 == OrOne(base[i].1) + (a + (if Cornered(target, size, walls) then 2.0 else 0.0)) * 3.0;
      }
    } else if level == 4.0 {
      var ws := AdvancedWeights(last, hist, pos, target, valid, ps, backoff);
      forall i | 0 <= i < |ws| ensures ws[i].1 > 0.0 {
        AdvancedScoreNonNegative(pos, target, hist, ps, base[i].0, DrawAt(backoff, i));
        assert ws[i].1 == OrOne(base[i].1) + AdvancedScore(pos, target, hist, ps, base[i].0, DrawAt(backoff, i));
      }
    } else {
      var ws := BasicWeights(last, pos, target, valid);
      forall i | 0 <= i < |ws| ensures ws[i].1 > 0.0 {
        var w := base[i].1;
        assert w > 0.0;
        assert ws[i].1 == if ManhattanDistance(Add(pos, base[i].0), target) < ManhattanDistance(pos, target)
                          then OrOne(w) + CHASE_BONUS else w;
      }
    }
  }

  /** At level 1 a direction gains exactly three when it shortens the distance to the
      target and nothing otherwise. */
  lemma BasicChaseRewardsApproach(last: Option<Direction>, hist: seq<Position>, pos: Position, target: Position,
                                  valid: seq<Direction>, size: MapSize, walls: seq<Position>, ps: seq<Position>,
                                  backoff: seq<real>, i: nat)
    requires i < |valid|
    ensures var w := ChaseWeights(1.0, last, hist, pos, target, valid, size, walls, ps, backoff)[i].1;
      (ManhattanDistance(Add(pos, valid[i]), target) < ManhattanDistance(pos, target) ==> w == WeightOf(valid[i], last) + 3.0) &&
      (ManhattanDistance(Add(pos, valid[i]), target) >= ManhattanDistance(pos, target) ==> w == WeightOf(valid[i], last))
  {
  }

  /** At level 4, unless the ghost backs off, the optimal direction gains at least four. */
  lemma AdvancedChaseFavoursOptimal(last: Option<Direction>, hist: seq<Position>, pos: Position, target: Position,
                                    valid: seq<Direction>, size: MapSize, walls: seq<Position>, ps: seq<Position>,
                                    backoff: seq<real>, i: nat)
    requires i < |valid| && valid[i] == FindOptimalDirection(pos, target)
    requires DrawAt(backoff, i) >= BACKOFF_CHANCE || ManhattanDistance(pos, target) >= BACKOFF_RADIUS
    ensures ChaseWeights(4.0, last, hist, pos, target, valid, size, walls, ps, backoff)[i].1 >= WeightOf(valid[i], last) + 4.0
  {
    PatternScoreRange(hist, valid[i]);
    var base := DirectionWeights(valid, last);
    var ws := AdvancedWeights(last, hist, pos, target, valid, ps, backoff);
    assert ws[i].1 == OrOne(base[i].1) + AdvancedScore(pos, target, hist, ps, valid[i], DrawAt(backoff, i));
  }

  /** A valid direction chosen by index with no runners to chase. */
  function RandomMove(pos: Position, size: MapSize, walls: seq<Position>, r: real): Direction
    requires 0.0 <= r < 1.0
  {
    var valid := ValidDirections(pos, size, walls, None);
    if |valid| == 0 then STAY else valid[RandomIndex(|valid|, r)]
  }

  /** The ghost's next direction, given its level, previous move and remembered target
      cells, a draw in [0, 1) for the choice and the per-direction backoff draws. */
  function GhostMove(level: real, last: Option<Direction>, hist: seq<Position>, pos: Position, size: MapSize,
                     walls: seq<Position>, playerPos: Option<Position>, allPlayers: Option<seq<Position>>,
                     r: real, backoff: seq<real>): Direction
    requires 0.0 <= r < 1.0
  {
    var ps := Targets(playerPos, allPlayers);
    if |ps| == 0 then RandomMove(pos, size, walls, r)
    else
      var target := ClosestPlayer(pos, ps);
      var valid := ValidDirections(pos, size, walls, None);
      if |valid| == 0 then STAY
      else
        var ws := ChaseWeights(level, last, PushBounded(hist, target, PLAYER_HISTORY_LIMIT), pos, target, valid, size, walls, ps, backoff);
        ws[SelectIndex(ws, r)].0
  }

  /** The ghost stays put exactly when no neighbouring cell is inside the map and free
      of walls; otherwise it moves to such a cell, with or without runners to chase. */
  lemma GhostMoveIsValid(level: real, last: Option<Direction>, hist: seq<Position>, pos: Position, size: MapSize,
                         walls: seq<Position>, playerPos: Option<Position>, allPlayers: Option<seq<Position>>,
                         r: real, backoff: seq<real>)
    requires 0.0 <= r < 1.0
    ensures var d := GhostMove(level, last, hist, pos, size, walls, playerPos, allPlayers, r, backoff);
      (ValidDirections(pos, size, walls, None) == [] ==> d == STAY) &&
      (ValidDirections(pos, size, walls, None) != [] ==>
         d in DIRECTIONS && IsValidPosition(Add(pos, d), size, walls, None))
  {
    var ps := Targets(playerPos, allPlayers);
    var valid := ValidDirections(pos, size, walls, None);
    if |ps| > 0 && |valid| > 0 {
      var target := ClosestPlayer(pos, ps);
      var h := PushBounded(hist, target, PLAYER_HISTORY_LIMIT);
      ChaseWeightsPositive(level, last, h, pos, target, valid, size, walls, ps, backoff);
      var ws := ChaseWeights(level, last, h, pos, target, valid, size, walls, ps, backoff);
      assert ws[SelectIndex(ws, r)].0 == Keys(ws)[SelectIndex(ws, r)];
    }
  }

  /** Whatever the level, every valid direction is taken under some draw. */
  lemma EveryValidDirectionChaseable(level: real, last: Option<Direction>, hist: seq<Position>, pos: Position, size: MapSize,
                                     walls: seq<Position>, ps: seq<Position>, backoff: seq<real>, d: Direction)
    requires |ps| > 0
    requires d in DIRECTIONS && IsValidPosition(Add(pos, d), size, walls, None)
    ensures exists r: real :: 0.0 <= r < 1.0 && GhostMove(level, last, hist, pos, size, walls, None, Some(ps), r, backoff) == d
  {
    var valid := ValidDirections(pos, size, walls, None);
    assert d in valid;
    var k :| 0 <= k < |valid| && valid[k] == d;
    var target := ClosestPlayer(pos, ps);
    var h := PushBounded(hist, target, PLAYER_HISTORY_LIMIT);
    ChaseWeightsPositive(level, last, h, pos, target, valid, size, walls, ps, backoff);
    var ws := ChaseWeights(level, last, h, pos, target, valid, size, walls, ps, backoff);
    EveryEntrySelectable(ws, k);
    var r :| 0.0 <= r < 1.0 && SelectIndex(ws, r) == k;
    assert ws[k].0 == Keys(ws)[k] == d;
    assert GhostMove(level, last, hist, pos, size, walls, None, Some(ps), r, backoff) == d;
  }

  class GhostEngine {
    const movement: MovementEngine
    var level: real
    var playerHistory: seq<Position>
    /** The cells the ghost has planned from. */
    var mapKnowledge: set<Position>

    ghost predicate Valid()
      reads this, movement
    {
      movement.Valid() && |playerHistory| <= PLAYER_HISTORY_LIMIT
    }

    constructor(maxHistory: nat)
      ensures fresh(movement) && Valid()
      ensures movement.history == MovementHistory([], maxHistory) && movement.lastDirection == None
      ensures level == 1.0 && playerHistory == [] && mapKnowledge == {}
    {
      movement := new MovementEngine(maxHistory);
      level := 1.0;
      playerHistory := [];
      mapKnowledge := {};
    }

    method SetLevel(newLevel: real)
      modifies this
      ensures level == ClampLevel(newLevel)
      ensures playerHistory == old(playerHistory) && mapKnowledge == old(mapKnowledge)
    {
      var capped := if newLevel < MAX_LEVEL then newLevel else MAX_LEVEL;
      level := if capped > MIN_LEVEL then capped else MIN_LEVEL;
    }

    method UpdatePlayerHistory(target: Position)
      requires Valid()
      modifies this
      ensures Valid()
      ensures playerHistory == PushBounded(old(playerHistory), target, PLAYER_HISTORY_LIMIT)
      ensures level == old(level) && mapKnowledge == old(mapKnowledge)
    {
      playerHistory := playerHistory + [target];
      if |playerHistory| > PLAYER_HISTORY_LIMIT {
        playerHistory := playerHistory[1..];
      }
    }

    method UpdateMapKnowledge(pos: Position)
      modifies this
      ensures mapKnowledge == old(mapKnowledge) + {pos}
      ensures level == old(level) && playerHistory == old(playerHistory)
    {
      mapKnowledge := mapKnowledge + {pos};
    }

    /** The running-minimum scan over the runners. */
    method FindClosestPlayer(pos: Position, ps: seq<Position>) returns (closest: Position)
      requires |ps| > 0
      ensures closest == ClosestPlayer(pos, ps)
    {
      var k := 0;
      var minDistance := ManhattanDistance(pos, ps[0]);
      var i := 0;
      while i < |ps|
        invariant 0 <= i <= |ps|
        invariant k == ClosestIndex(pos, ps, if i == 0 then 1 else i)
        invariant minDistance == ManhattanDistance(pos, ps[k])
      {
        var distance := ManhattanDistance(pos, ps[i]);
        if distance < minDistance {
          minDistance := distance;
          k := i;
        }
        i := i + 1;
      }
      closest := ps[k];
    }

    /** Counts how often the target's last two steps went in `dir`. */
    method AnalyzePlayerPattern(dir: Direction) returns (score: real)
      ensures score == PatternScore(playerHistory, dir)
    {
      if |playerHistory| < 3 {
        return 0.0;
      }
      var recent := playerHistory[|playerHistory| - 3..];
      score := 0.0;
      var i := 1;
      while i < |recent|
        invariant 1 <= i <= 3
        invariant score == (if i > 1 then Half(MoveAt(recent, 1) == dir) else 0.0)
                         + (if i > 2 then Half(MoveAt(recent, 2) == dir) else 0.0)
      {
        var moveDir := Point(recent[i].x - recent[i - 1].x, recent[i].y - recent[i - 1].y);
        if moveDir.x == dir.x && moveDir.y == dir.y {
          score := score + PATTERN_STEP;
        }
        i := i + 1;
      }
      assert MoveAt(recent, 1) == MoveAt(playerHistory, |playerHistory| - 2);
      assert MoveAt(recent, 2) == MoveAt(playerHistory, |playerHistory| - 1);
    }

    /** Draws from the weights, records the choice as the last direction and pushes `pos`. */
    method Commit(ws: Weights, pos: Position, r: real) returns (d: Direction)
      requires movement.Valid() && |ws| > 0
      modifies movement
      ensures movement.Valid()
      ensures d == ws[SelectIndex(ws, r)].0
      ensures movement.lastDirection == Some(d)
      ensures movement.history == old(movement.history).(positions := PushBounded(old(movement.history.positions), pos, old(movement.history.maxHistory)))
    {
      d := SelectWeightedDirection(ws, r);
      movement.lastDirection := Some(d);
      movement.UpdateHistory(pos);
    }

    method BasicChase(pos: Position, target: Position, valid: seq<Direction>, r: real) returns (d: Direction)
      requires movement.Valid() && |valid| > 0
      modifies movement
      ensures movement.Valid()
      ensures var ws := Adjust(DirectionWeights(valid, old(movement.lastDirection)), BasicStep(pos, target));
        d == ws[SelectIndex(ws, r)].0
      ensures movement.lastDirection == Some(d)
      ensures movement.history == old(movement.history).(positions := PushBounded(old(movement.history.positions), pos, old(movement.history.maxHistory)))
    {
      var ws := AdjustWeights(DirectionWeights(valid, movement.lastDirection), BasicStep(pos, target));
      d := Commit(ws, pos, r);
    }

    method PredictiveChase(pos: Position, target: Position, valid: seq<Direction>, r: real) returns (d: Direction)
      requires movement.Valid() && |valid| > 0
      modifies movement
      ensures movement.Valid()
      ensures var ws := Adjust(DirectionWeights(valid, old(movement.lastDirection)),
                               PredictiveStep(pos, target, PredictPlayerPosition(playerHistory, target)));
        d == ws[SelectIndex(ws, r)].0
      ensures movement.lastDirection == Some(d)
      ensures movement.history == old(movement.history).(positions := PushBounded(old(movement.history.positions), pos, old(movement.history.maxHistory)))
    {
      var predicted := PredictPlayerPosition(playerHistory, target);
      var ws := AdjustWeights(DirectionWeights(valid, movement.lastDirection), PredictiveStep(pos, target, predicted));
      d := Commit(ws, pos, r);
    }

    method StrategicChase(pos: Position, target: Position, valid: seq<Direction>, size: MapSize, walls: seq<Position>, r: real)
      returns (d: Direction)
      requires movement.Valid() && |valid| > 0
      modifies movement
      ensures movement.Valid()
      ensures var ws := Adjust(DirectionWeights(valid, old(movement.lastDirection)),
                               StrategicStep(pos, target, Cornered(target, size, walls)));
        d == ws[SelectIndex(ws, r)].0
      ensures movement.lastDirection == Some(d)
      ensures movement.history == old(movement.history).(positions := PushBounded(old(movement.history.positions), pos, old(movement.history.maxHistory)))
    {
      var escapes := ValidDirections(target, size, walls, None);
      var ws := AdjustWeights(DirectionWeights(valid, movement.lastDirection), StrategicStep(pos, target, |escapes| <= 2));
      d := Commit(ws, pos, r);
    }

    /** The level-4 score of one direction: optimal axis, the target's pattern, a crowd, a backoff. */
    method ScoreDirection(pos: Position, target: Position, dir: Direction, ps: seq<Position>, draw: real) returns (score: real)
      ensures score == AdvancedScore(pos, target, playerHistory, ps, dir, draw)
    {
      var pattern := AnalyzePlayerPattern(dir);
      score := (if dir == FindOptimalDirection(pos, target) then OPTIMAL_BONUS else 0.0) + pattern;
      var nearby := CountNearby(pos, ps);
      if nearby > 1 {
        score := score + nearby as real * 0.5;
      }
      if draw < BACKOFF_CHANCE && ManhattanDistance(pos, target) < BACKOFF_RADIUS {
        score := score * BACKOFF_FACTOR;
      }
    }

    /** Scores each valid direction in turn, drawing its backoff as it goes. */
    method AdvancedChase(pos: Position, target: Position, valid: seq<Direction>, ps: seq<Position>, r: real, backoff: seq<real>)
      returns (d: Direction)
      requires movement.Valid() && |valid| > 0
      modifies movement
      ensures movement.Valid()
      ensures var ws := Adjust(DirectionWeights(valid, old(movement.lastDirection)),
                               AdvancedStep(pos, target, playerHistory, ps, backoff));
        d == ws[SelectIndex(ws, r)].0
      ensures movement.lastDirection == Some(d)
      ensures movement.history == old(movement.history).(positions := PushBounded(old(movement.history.positions), pos, old(movement.history.maxHistory)))
    {
      var base := DirectionWeights(valid, movement.lastDirection);
      ghost var spec := Adjust(base, AdvancedStep(pos, target, playerHistory, ps, backoff));
      var ws := base;
      var i := 0;
      while i < |ws|
        invariant 0 <= i <= |ws| == |base|
        invariant forall j :: 0 <= j < i ==> ws[j] == spec[j]
        invariant forall j :: i <= j < |ws| ==> ws[j] == base[j]
        invariant movement.Valid() && movement.history == old(movement.history)
        invariant movement.lastDirection == old(movement.lastDirection)
      {
        var dir := ws[i].0;
        var score := ScoreDirection(pos, target, dir, ps, DrawAt(backoff, i));
        ws := ws[i := (dir, OrOne(ws[i].1) + score)];
        i := i + 1;
      }
      assert ws == spec;
      d := Commit(ws, pos, r);
    }

    method GetNextMove(pos: Position, size: MapSize, walls: seq<Position>, playerPos: Option<Position>,
                       allPlayers: Option<seq<Position>>, r: real, backoff: seq<real>) returns (d: Direction)
      requires Valid()
      requires 0.0 <= r < 1.0
      modifies this, movement
      ensures Valid()
      ensures d == GhostMove(old(level), old(movement.lastDirection), old(playerHistory), pos, size, walls, playerPos, allPlayers, r, backoff)
      ensures level == old(level)
      ensures Targets(playerPos, allPlayers) == [] ==>
        playerHistory == old(playerHistory) && mapKnowledge == old(mapKnowledge) && unchanged(movement)
      ensures Targets(playerPos, allPlayers) != [] ==>
        playerHistory == PushBounded(old(playerHistory), ClosestPlayer(pos, Targets(playerPos, allPlayers)), PLAYER_HISTORY_LIMIT) &&
        mapKnowledge == old(mapKnowledge) + {pos}
      ensures Targets(playerPos, allPlayers) != [] && ValidDirections(pos, size, walls, None) == [] ==> unchanged(movement)
      ensures Targets(playerPos, allPlayers) != [] && ValidDirections(pos, size, walls, None) != [] ==>
        movement.lastDirection == Some(d) &&
        movement.history == old(movement.history).(positions := PushBounded(old(movement.history.positions), pos, old(movement.history.maxHistory)))
    {
      var ps := Targets(playerPos, allPlayers);
      if |ps| == 0 {
        return RandomMove(pos, size, walls, r);
      }
      var target := FindClosestPlayer(pos, ps);
      UpdatePlayerHistory(target);
      UpdateMapKnowledge(pos);
      var valid := ValidDirections(pos, size, walls, None);
      if |valid| == 0 {
        return STAY;
      }
      if level == 1.0 {
        d := BasicChase(pos, target, valid, r);
      } else if level == 2.0 {
        d := PredictiveChase(pos, target, valid, r);
      } else if level == 3.0 {
        d := StrategicChase(pos, target, valid, size, walls, r);
      } else if level == 4.0 {
        d := AdvancedChase(pos, target, valid, ps, r, backoff);
      } else {
        d := BasicChase(pos, target, valid, r);
      }
    }
  }
}
