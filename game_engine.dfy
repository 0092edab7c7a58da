/** The tick engine: every runner moves against the positions at the start of the
    tick, then the ghost moves against the new ones; a runner on the ghost's cell is caught. */
module Engine {
  import opened Wrappers
  import opened Types
  import opened Utils
  import opened Movement
  import opened Player
  import opened Ghost

  /** The cell an agent ends on: the planned neighbour when it is inside the map and
      not a wall (other agents are no obstacle), otherwise the cell it stood on. */
  function Advance(pos: Position, d: Direction, size: MapSize, walls: seq<Position>): Position {
    var next := Add(pos, d);
    if IsValidPosition(next, size, walls, None) then next else pos
  }

  /** Every runner but the `i`-th, in order. */
  function Others(ps: seq<Position>, i: nat): (r: seq<Position>)
    requires i < |ps|
    ensures |r| == |ps| - 1
    ensures forall k :: 0 <= k < |r| ==> r[k] == (if k < i then ps[k] else ps[k + 1])
    ensures multiset(r) + multiset{ps[i]} == multiset(ps)
  {
    assert ps == ps[..i] + [ps[i]] + ps[i + 1..];
    ps[..i] + ps[i + 1..]
  }

  /** Where runner `i` ends a tick, planning with its engine's previous move and recent
      cells against the ghost and the other runners as they stood when the tick began. */
  function PlayerStep(last: Option<Direction>, recent: seq<Position>, ps: seq<Position>, i: nat, size: MapSize,
                      walls: seq<Position>, ghostPos: Position, draws: (real, real)): Position
    requires i < |ps| && 0.0 <= draws.0 < 1.0 && 0.0 <= draws.1 < 1.0
  {
    Advance(ps[i], PlayerMove(last, recent, ps[i], size, walls, Some(ghostPos), Some(Others(ps, i)), draws.0, draws.1), size, walls)
  }

  /** A move planned by either policy lands on a free neighbour exactly when one exists,
      and otherwise leaves the agent where it was. */
  lemma AdvanceFollowsPlan(pos: Position, d: Direction, size: MapSize, walls: seq<Position>)
    requires ValidDirections(pos, size, walls, None) == [] ==> d == STAY
    requires ValidDirections(pos, size, walls, None) != [] ==> d in DIRECTIONS && IsValidPosition(Add(pos, d), size, walls, None)
    ensures Advance(pos, d, size, walls) != pos <==> ValidDirections(pos, size, walls, None) != []
    ensures Advance(pos, d, size, walls) != pos ==>
      ManhattanDistance(pos, Advance(pos, d, size, walls)) == 1 && IsValidPosition(Advance(pos, d, size, walls), size, walls, None)
  {
    if ValidDirections(pos, size, walls, None) != [] {
      DirectionsAreUnitSteps(d);
    }
  }

  /** A runner moves in a tick exactly when one of its neighbours is inside the map
      and free of walls, and then it moves one cell onto such a neighbour. */
  lemma RunnerMovesIffFreeNeighbour(last: Option<Direction>, recent: seq<Position>, pos: Position, size: MapSize,
                                    walls: seq<Position>, ghostPos: Option<Position>, others: Option<seq<Position>>, r1: real, r2: real)
    requires 0.0 <= r1 < 1.0 && 0.0 <= r2 < 1.0
    ensures var next := Advance(pos, PlayerMove(last, recent, pos, size, walls, ghostPos, others, r1, r2), size, walls);
      (next != pos <==> ValidDirections(pos, size, walls, None) != []) &&
      (next != pos ==> ManhattanDistance(pos, next) == 1 && IsValidPosition(next, size, walls, None))
  {
    PlayerMoveIsValid(last, recent, pos, size, walls, ghostPos, others, r1, r2);
    AdvanceFollowsPlan(pos, PlayerMove(last, recent, pos, size, walls, ghostPos, others, r1, r2), size, walls);
  }

  /** The ghost moves in a tick exactly when one of its neighbours is inside the map
      and free of walls, and then it moves one cell onto such a neighbour. */
  lemma GhostMovesIffFreeNeighbour(level: real, last: Option<Direction>, hist: seq<Position>, pos: Position, size: MapSize,
                                   walls: seq<Position>, players: seq<Position>, r: real, backoff: seq<real>)
    requires 0.0 <= r < 1.0
    ensures var next := Advance(pos, GhostMove(level, last, hist, pos, size, walls, None, Some(players), r, backoff), size, walls);
      (next != pos <==> ValidDirections(pos, size, walls, None) != []) &&
      (next != pos ==> ManhattanDistance(pos, next) == 1 && IsValidPosition(next, size, walls, None))
  {
    GhostMoveIsValid(level, last, hist, pos, size, walls, None, Some(players), r, backoff);
    AdvanceFollowsPlan(pos, GhostMove(level, last, hist, pos, size, walls, None, Some(players), r, backoff), size, walls);
  }

  /** The indices of the runners standing on the ghost's cell, in ascending order. */
  function CaughtPlayers(ps: seq<Position>, ghostPos: Position): (r: seq<nat>)
    ensures forall k :: 0 <= k < |r| ==> r[k] < |ps| && ps[r[k]] == ghostPos
    ensures forall i :: 0 <= i < |ps| && ps[i] == ghostPos ==> i in r
    ensures forall k, l :: 0 <= k < l < |r| ==> r[k] < r[l]
  {
    if ps == [] then []
    else
      var n := |ps| - 1;
      var front := CaughtPlayers(ps[..n], ghostPos);
      assert forall i :: 0 <= i < n ==> ps[..n][i] == ps[i];
      front + (if ps[n] == ghostPos then [n] else [])
  }

  /** The game is over exactly when some runner stands on the ghost's cell. */
  lemma GameOverIffCaught(ps: seq<Position>, ghostPos: Position)
    ensures |CaughtPlayers(ps, ghostPos)| > 0 <==> exists i :: 0 <= i < |ps| && ps[i] == ghostPos
  {
    if exists i :: 0 <= i < |ps| && ps[i] == ghostPos {
      var i :| 0 <= i < |ps| && ps[i] == ghostPos;
      assert i in CaughtPlayers(ps, ghostPos);
    }
  }

  /** What runner `i`'s engine remembers once it has planned its move of a tick: with
      no free neighbour nothing changes, otherwise the planned move becomes the last
      direction and the cell it left is pushed on its bounded history. */
  function RunnerMemory(last: Option<Direction>, hist: MovementHistory, ps: seq<Position>, i: nat, size: MapSize,
                        walls: seq<Position>, ghostPos: Position, draws: (real, real)): (Option<Direction>, MovementHistory)
    requires i < |ps| && 0.0 <= draws.0 < 1.0 && 0.0 <= draws.1 < 1.0
  {
    if ValidDirections(ps[i], size, walls, None) == [] then (last, hist)
    else
      (Some(PlayerMove(last, hist.positions, ps[i], size, walls, Some(ghostPos), Some(Others(ps, i)), draws.0, draws.1)),
       hist.(positions := PushBounded(hist.positions, ps[i], hist.maxHistory)))
  }

  /** The runner's memory agrees with where it went: when it moves, the remembered
      direction leads from its old cell to its new one and the old cell is the newest
      entry of a history that stays within its cap; when it cannot move, nothing changes. */
  lemma RunnerMemoryRecordsMove(last: Option<Direction>, hist: MovementHistory, ps: seq<Position>, i: nat, size: MapSize,
                                walls: seq<Position>, ghostPos: Position, draws: (real, real))
    requires i < |ps| && 0.0 <= draws.0 < 1.0 && 0.0 <= draws.1 < 1.0
    requires |hist.positions| <= hist.maxHistory
    ensures var m := RunnerMemory(last, hist, ps, i, size, walls, ghostPos, draws);
      var next := PlayerStep(last, hist.positions, ps, i, size, walls, ghostPos, draws);
      m.1.maxHistory == hist.maxHistory && |m.1.positions| <= hist.maxHistory &&
      (next == ps[i] ==> m == (last, hist)) &&
      (next != ps[i] ==>
        m.0.Some? && next == Add(ps[i], m.0.value) && ManhattanDistance(ps[i], next) == 1 &&
        (hist.maxHistory > 0 ==> m.1.positions[|m.1.positions| - 1] == ps[i]))
  {
    var d := PlayerMove(last, hist.positions, ps[i], size, walls, Some(ghostPos), Some(Others(ps, i)), draws.0, draws.1);
    RunnerMovesIffFreeNeighbour(last, hist.positions, ps[i], size, walls, Some(ghostPos), Some(Others(ps, i)), draws.0, draws.1);
    PushBoundedKeepsNewest(hist.positions, ps[i], hist.maxHistory);
    if ValidDirections(ps[i], size, walls, None) != [] {
      PlayerMoveIsValid(last, hist.positions, ps[i], size, walls, Some(ghostPos), Some(Others(ps, i)), draws.0, draws.1);
      assert RunnerMemory(last, hist, ps, i, size, walls, ghostPos, draws).0 == Some(d);
    }
  }

  /** The ghost engine's memory: its last direction and own history, the targets it
      chased and the cells it planned from. */
  datatype GhostMemory = GhostMemory(last: Option<Direction>, moves: MovementHistory, targets: seq<Position>, known: set<Position>)

  function MemoryOf(g: GhostEngine): GhostMemory
    reads g, g.movement
  {
    GhostMemory(g.movement.lastDirection, g.movement.history, g.playerHistory, g.mapKnowledge)
  }

  /** The ghost's memory once it has chased `target` from `pos`: the target is pushed
      on the bounded targets and the cell becomes known; a planned move `d`, when there
      is one, becomes the last direction and the cell is pushed on its own history. */
  function Chased(mem: GhostMemory, pos: Position, target: Position, d: Option<Direction>): GhostMemory {
    var chased := mem.(targets := PushBounded(mem.targets, target, PLAYER_HISTORY_LIMIT), known := mem.known + {pos});
    match d
    case None => chased
    case Some(dir) => chased.(last := Some(dir), moves := mem.moves.(positions := PushBounded(mem.moves.positions, pos, mem.moves.maxHistory)))
  }

  lemma ChasedTargets(mem: GhostMemory, pos: Position, target: Position, d: Option<Direction>)
    requires |mem.targets| <= PLAYER_HISTORY_LIMIT
    ensures |Chased(mem, pos, target, d).targets| <= PLAYER_HISTORY_LIMIT
    ensures var t := Chased(mem, pos, target, d).targets; t[|t| - 1] == target
    ensures Chased(mem, pos, target, d).known == mem.known + {pos}
  {
    PushBoundedKeepsNewest(mem.targets, target, PLAYER_HISTORY_LIMIT);
  }

  lemma ChasedMoves(mem: GhostMemory, pos: Position, target: Position, d: Option<Direction>)
    requires |mem.moves.positions| <= mem.moves.maxHistory
    ensures var m := Chased(mem, pos, target, d); m.moves.maxHistory == mem.moves.maxHistory && |m.moves.positions| <= mem.moves.maxHistory
    ensures var m := Chased(mem, pos, target, d); d.None? ==> m.last == mem.last && m.moves == mem.moves
    ensures var m := Chased(mem, pos, target, d); d.Some? ==> m.last == d && (mem.moves.maxHistory > 0 ==> m.moves.positions[|m.moves.positions| - 1] == pos)
  {
    PushBoundedKeepsNewest(mem.moves.positions, pos, mem.moves.maxHistory);
  }

  /** What the ghost remembers once it has planned its move of a tick against the
      runners `ps`: with no runner nothing changes; otherwise it has chased the closest
      runner, with the planned move when it has a free neighbour. */
  function GhostAfter(level: real, mem: GhostMemory, pos: Position, size: MapSize, walls: seq<Position>,
                      ps: seq<Position>, r: real, backoff: seq<real>): GhostMemory
    requires 0.0 <= r < 1.0
  {
    if ps == [] then mem
    else
      Chased(mem, pos, ClosestPlayer(pos, ps),
             if ValidDirections(pos, size, walls, None) == [] then None
             else Some(GhostMove(level, mem.last, mem.targets, pos, size, walls, None, Some(ps), r, backoff)))
  }

  /** The ghost's targets and knowledge agree with the chase: with runners about, the
      newest target is a runner nearest to the ghost and the cell is known from then
      on; with none nothing changes; the targets stay within their cap and the known
      cells only grow. */
  lemma GhostMemoryRecordsChase(level: real, mem: GhostMemory, pos: Position, size: MapSize, walls: seq<Position>,
                                ps: seq<Position>, r: real, backoff: seq<real>)
    requires 0.0 <= r < 1.0
    requires |mem.targets| <= PLAYER_HISTORY_LIMIT
    ensures var m := GhostAfter(level, mem, pos, size, walls, ps, r, backoff);
      |m.targets| <= PLAYER_HISTORY_LIMIT && mem.known <= m.known
    ensures ps == [] ==> GhostAfter(level, mem, pos, size, walls, ps, r, backoff) == mem
    ensures var m := GhostAfter(level, mem, pos, size, walls, ps, r, backoff);
      ps != [] ==> pos in m.known && m.targets[|m.targets| - 1] in ps
    ensures var m := GhostAfter(level, mem, pos, size, walls, ps, r, backoff);
      ps != [] ==> forall p :: p in ps ==> ManhattanDistance(pos, m.targets[|m.targets| - 1]) <= ManhattanDistance(pos, p)
  {
    if ps != [] {
      var plan := if ValidDirections(pos, size, walls, None) == [] then None
                  else Some(GhostMove(level, mem.last, mem.targets, pos, size, walls, None, Some(ps), r, backoff));
      ClosestPlayerIsEarliestNearest(pos, ps);
      ChasedTargets(mem, pos, ClosestPlayer(pos, ps), plan);
    }
  }

  /** The ghost's own movement memory agrees with where it went: a ghost that moves
      remembers the direction that took it to its new cell and pushes the cell it
      left; one that stays keeps its last direction and history; the history keeps
      its cap. */
  lemma GhostMemoryRecordsMove(level: real, mem: GhostMemory, pos: Position, size: MapSize, walls: seq<Position>,
                               ps: seq<Position>, r: real, backoff: seq<real>)
    requires 0.0 <= r < 1.0
    requires |mem.moves.positions| <= mem.moves.maxHistory
    ensures var m := GhostAfter(level, mem, pos, size, walls, ps, r, backoff);
      m.moves.maxHistory == mem.moves.maxHistory && |m.moves.positions| <= mem.moves.maxHistory
    ensures var m := GhostAfter(level, mem, pos, size, walls, ps, r, backoff);
      var next := Advance(pos, GhostMove(level, mem.last, mem.targets, pos, size, walls, None, Some(ps), r, backoff), size, walls);
      next == pos ==> m.last == mem.last && m.moves == mem.moves
    ensures var m := GhostAfter(level, mem, pos, size, walls, ps, r, backoff);
      var next := Advance(pos, GhostMove(level, mem.last, mem.targets, pos, size, walls, None, Some(ps), r, backoff), size, walls);
      ps != [] && next != pos ==>
        m.last.Some? && next == Add(pos, m.last.value) &&
        (mem.moves.maxHistory > 0 ==> m.moves.positions[|m.moves.positions| - 1] == pos)
  {
    var d := GhostMove(level, mem.last, mem.targets, pos, size, walls, None, Some(ps), r, backoff);
    GhostMoveIsValid(level, mem.last, mem.targets, pos, size, walls, None, Some(ps), r, backoff);
    AdvanceFollowsPlan(pos, d, size, walls);
    if ps != [] {
      var plan := if ValidDirections(pos, size, walls, None) == [] then None else Some(d);
      ChasedMoves(mem, pos, ClosestPlayer(pos, ps), plan);
    }
  }

  class GameEngine {
    var players: seq<Position>
    var ghostPos: Position
    var mapSize: MapSize
    var walls: seq<Position>
    var playerEngines: seq<PlayerEngine>
    var ghostEngine: GhostEngine

    /** The movement states of the runners' engines. */
    function Movements(): set<MovementEngine>
      reads this
    {
      set i | 0 <= i < |playerEngines| :: playerEngines[i].movement
    }

    ghost predicate Valid()
      reads this, ghostEngine, ghostEngine.movement, Movements()
    {
      |playerEngines| == |players|
      && ghostEngine.Valid()
      && (forall i :: 0 <= i < |playerEngines| ==> playerEngines[i].movement.Valid())
      && (forall i, j :: 0 <= i < j < |playerEngines| ==> playerEngines[i].movement != playerEngines[j].movement)
      && (forall i :: 0 <= i < |playerEngines| ==> playerEngines[i].movement != ghostEngine.movement)
    }

    /** One fresh runner engine per runner. */
    static method NewPlayerEngines(n: nat) returns (es: seq<PlayerEngine>)
      ensures |es| == n
      ensures forall i :: 0 <= i < n ==> fresh(es[i].movement) && es[i].movement.Valid()
      ensures forall i :: 0 <= i < n ==>
        es[i].movement.history == MovementHistory([], DEFAULT_MAX_HISTORY) && es[i].movement.lastDirection == None
      ensures forall i, j :: 0 <= i < j < n ==> es[i].movement != es[j].movement
    {
      es := [];
      while |es| < n
        invariant |es| <= n
        invariant forall i :: 0 <= i < |es| ==> fresh(es[i].movement) && es[i].movement.Valid()
        invariant forall i :: 0 <= i < |es| ==>
          es[i].movement.history == MovementHistory([], DEFAULT_MAX_HISTORY) && es[i].movement.lastDirection == None
        invariant forall i, j :: 0 <= i < j < |es| ==> es[i].movement != es[j].movement
      {
        var e := new PlayerEngine(DEFAULT_MAX_HISTORY);
        es := es + [e];
      }
    }

    constructor(initial: GameState)
      ensures Valid()
      ensures players == initial.players && ghostPos == initial.ghostPos
      ensures mapSize == initial.mapSize && walls == initial.walls
      ensures fresh(ghostEngine) && fresh(ghostEngine.movement) && fresh(Movements())
      ensures forall i :: 0 <= i < |playerEngines| ==>
        playerEngines[i].movement.history == MovementHistory([], DEFAULT_MAX_HISTORY) && playerEngines[i].movement.lastDirection == None
      ensures ghostEngine.level == 1.0 && MemoryOf(ghostEngine) == GhostMemory(None, MovementHistory([], DEFAULT_MAX_HISTORY), [], {})
    {
      var es := NewPlayerEngines(|initial.players|);
      var g := new GhostEngine(DEFAULT_MAX_HISTORY);
      players := initial.players;
      ghostPos := initial.ghostPos;
      mapSize := initial.mapSize;
      walls := initial.walls;
      playerEngines := es;
      ghostEngine := g;
    }

    /** Moves every runner against the positions at the start of the tick: for runner
        `i` the draws are its choice draw and its pick draw. */
    method MovePlayers(playerDraws: seq<(real, real)>) returns (moved: seq<Position>)
      requires Valid()
      requires |playerDraws| == |players|
      requires forall i :: 0 <= i < |playerDraws| ==> 0.0 <= playerDraws[i].0 < 1.0 && 0.0 <= playerDraws[i].1 < 1.0
      modifies Movements()
      ensures Valid()
      ensures |moved| == |players|
      ensures forall j :: 0 <= j < |players| ==>
        moved[j] == PlayerStep(old(playerEngines[j].movement.lastDirection), old(playerEngines[j].movement.history.positions),
                               players, j, mapSize, walls, ghostPos, playerDraws[j])
      ensures forall j :: 0 <= j < |players| ==>
        (playerEngines[j].movement.lastDirection, playerEngines[j].movement.history) ==
        RunnerMemory(old(playerEngines[j].movement.lastDirection), old(playerEngines[j].movement.history),
                     players, j, mapSize, walls, ghostPos, playerDraws[j])
      ensures unchanged(ghostEngine.movement)
    {
      moved := [];
      var i := 0;
      while i < |players|
        invariant 0 <= i <= |players| && |moved| == i
        invariant ghostEngine.Valid()
        invariant forall j :: 0 <= j < |players| ==>
          playerEngines[j].movement.Valid() &&
          if j < i then
            moved[j] == PlayerStep(old(playerEngines[j].movement.lastDirection), old(playerEngines[j].movement.history.positions),
                                   players, j, mapSize, walls, ghostPos, playerDraws[j]) &&
            (playerEngines[j].movement.lastDirection, playerEngines[j].movement.history) ==
            RunnerMemory(old(playerEngines[j].movement.lastDirection), old(playerEngines[j].movement.history),
                         players, j, mapSize, walls, ghostPos, playerDraws[j])
          else
            playerEngines[j].movement.lastDirection == old(playerEngines[j].movement.lastDirection) &&
            playerEngines[j].movement.history == old(playerEngines[j].movement.history)
        invariant unchanged(ghostEngine.movement)
      {
        assert forall j :: 0 <= j < |players| && j != i ==> playerEngines[j].movement != playerEngines[i].movement;
        var next := MoveRunner(i, playerDraws[i]);
        moved := moved + [next];
        i := i + 1;
      }
    }

    /** Runner `i`'s turn: its engine plans against the others as they stand, and the
        runner's new cell is returned. */
    method MoveRunner(i: nat, draws: (real, real)) returns (next: Position)
      requires i < |players| && i < |playerEngines| && playerEngines[i].movement.Valid()
      requires 0.0 <= draws.0 < 1.0 && 0.0 <= draws.1 < 1.0
      modifies playerEngines[i].movement
      ensures playerEngines[i].movement.Valid()
      ensures next == PlayerStep(old(playerEngines[i].movement.lastDirection), old(playerEngines[i].movement.history.positions),
                                 players, i, mapSize, walls, ghostPos, draws)
      ensures (playerEngines[i].movement.lastDirection, playerEngines[i].movement.history) ==
        RunnerMemory(old(playerEngines[i].movement.lastDirection), old(playerEngines[i].movement.history),
                     players, i, mapSize, walls, ghostPos, draws)
    {
      var d := playerEngines[i].GetNextMove(players[i], mapSize, walls, Some(ghostPos), Some(Others(players, i)), draws.0, draws.1);
      next := Advance(players[i], d, mapSize, walls);
    }

    /** Moves every runner, then the ghost, with the given draws: for runner `i` the
        choice draw and the pick draw, for the ghost its pick draw and one backoff draw
        per direction. */
    method UpdateGame(playerDraws: seq<(real, real)>, ghostDraw: real, backoff: seq<real>) returns (state: GameState)
      requires Valid()
      requires |playerDraws| == |players|
      requires forall i :: 0 <= i < |playerDraws| ==> 0.0 <= playerDraws[i].0 < 1.0 && 0.0 <= playerDraws[i].1 < 1.0
      requires 0.0 <= ghostDraw < 1.0
      modifies this, ghostEngine, ghostEngine.movement, Movements()
      ensures Valid()
      ensures playerEngines == old(playerEngines) && ghostEngine == old(ghostEngine)
      ensures mapSize == old(mapSize) && walls == old(walls)
      ensures |players| == |old(players)|
      ensures forall i :: 0 <= i < |players| ==>
        players[i] == PlayerStep(old(playerEngines[i].movement.lastDirection), old(playerEngines[i].movement.history.positions),
                                 old(players), i, mapSize, walls, old(ghostPos), playerDraws[i])
      ensures ghostPos == Advance(old(ghostPos),
        GhostMove(old(ghostEngine.level), old(ghostEngine.movement.lastDirection), old(ghostEngine.playerHistory),
                  old(ghostPos), mapSize, walls, None, Some(players), ghostDraw, backoff),
        mapSize, walls)
      ensures forall i :: 0 <= i < |players| ==>
        (playerEngines[i].movement.lastDirection, playerEngines[i].movement.history) ==
        RunnerMemory(old(playerEngines[i].movement.lastDirection), old(playerEngines[i].movement.history),
                     old(players), i, mapSize, walls, old(ghostPos), playerDraws[i])
      ensures ghostEngine.level == old(ghostEngine.level)
      ensures MemoryOf(ghostEngine) ==
        GhostAfter(old(ghostEngine.level), old(MemoryOf(ghostEngine)), old(ghostPos), mapSize, walls, players, ghostDraw, backoff)
      ensures state == GameState(players, ghostPos, mapSize, walls)
    {
      ghost var ghostMemory, level := MemoryOf(ghostEngine), ghostEngine.level;
      var moved := MovePlayers(playerDraws);
      assert MemoryOf(ghostEngine) == ghostMemory && ghostEngine.level == level;
      players := moved;
      MoveGhost(ghostDraw, backoff);
      state := GameState(players, ghostPos, mapSize, walls);
    }

    /** The ghost's half of a tick: it moves against the runners' current positions,
        and only onto a valid cell. */
    method MoveGhost(ghostDraw: real, backoff: seq<real>)
      requires Valid()
      requires 0.0 <= ghostDraw < 1.0
      modifies this`ghostPos, ghostEngine, ghostEngine.movement
      ensures Valid()
      ensures ghostPos == Advance(old(ghostPos),
        GhostMove(old(ghostEngine.level), old(ghostEngine.movement.lastDirection), old(ghostEngine.playerHistory),
                  old(ghostPos), mapSize, walls, None, Some(players), ghostDraw, backoff),
        mapSize, walls)
      ensures ghostEngine.level == old(ghostEngine.level)
      ensures MemoryOf(ghostEngine) ==
        GhostAfter(old(ghostEngine.level), old(MemoryOf(ghostEngine)), old(ghostPos), mapSize, walls, players, ghostDraw, backoff)
      ensures forall j :: 0 <= j < |playerEngines| ==>
        playerEngines[j].movement.lastDirection == old(playerEngines[j].movement.lastDirection) &&
        playerEngines[j].movement.history == old(playerEngines[j].movement.history)
    {
      var g := ghostEngine.GetNextMove(ghostPos, mapSize, walls, None, Some(players), ghostDraw, backoff);
      var next := Add(ghostPos, g);
      if IsValidPosition(next, mapSize, walls, None) {
        ghostPos := next;
      }
    }

    method SetGhostLevel(level: real)
      requires Valid()
      modifies ghostEngine
      ensures Valid()
      ensures ghostEngine.level == ClampLevel(level)
      ensures ghostEngine.playerHistory == old(ghostEngine.playerHistory) && ghostEngine.mapKnowledge == old(ghostEngine.mapKnowledge)
    {
      ghostEngine.SetLevel(level);
    }

    /** Whether some runner is caught, and the indices of the caught runners. */
    function IsGameOver(): (r: (bool, seq<nat>))
      reads this
      ensures r.1 == CaughtPlayers(players, ghostPos)
      ensures r.0 <==> exists i :: 0 <= i < |players| && players[i] == ghostPos
    {
      GameOverIffCaught(players, ghostPos);
      var caught := CaughtPlayers(players, ghostPos);
      (|caught| > 0, caught)
    }

    method ResetGame(newState: GameState)
      modifies this
      ensures Valid()
      ensures players == newState.players && ghostPos == newState.ghostPos
      ensures mapSize == newState.mapSize && walls == newState.walls
      ensures fresh(ghostEngine) && fresh(ghostEngine.movement) && fresh(Movements())
      ensures forall i :: 0 <= i < |playerEngines| ==>
        playerEngines[i].movement.history == MovementHistory([], DEFAULT_MAX_HISTORY) && playerEngines[i].movement.lastDirection == None
      ensures ghostEngine.level == 1.0 && MemoryOf(ghostEngine) == GhostMemory(None, MovementHistory([], DEFAULT_MAX_HISTORY), [], {})
    {
      var es := NewPlayerEngines(|newState.players|);
      var g := new GhostEngine(DEFAULT_MAX_HISTORY);
      players := newState.players;
      ghostPos := newState.ghostPos;
      mapSize := newState.mapSize;
      walls := newState.walls;
      playerEngines := es;
      ghostEngine := g;
    }

    /** Appends a runner, unchecked, with a fresh engine of its own. */
    method AddPlayer(position: Position)
      requires Valid()
      modifies this
      ensures Valid()
      ensures players == old(players) + [position]
      ensures |playerEngines| == |old(playerEngines)| + 1 && playerEngines[..|old(playerEngines)|] == old(playerEngines)
      ensures fresh(playerEngines[|playerEngines| - 1].movement)
      ensures playerEngines[|playerEngines| - 1].movement.history == MovementHistory([], DEFAULT_MAX_HISTORY)
      ensures playerEngines[|playerEngines| - 1].movement.lastDirection == None
      ensures ghostPos == old(ghostPos) && ghostEngine == old(ghostEngine) && mapSize == old(mapSize) && walls == old(walls)
    {
      var e := new PlayerEngine(DEFAULT_MAX_HISTORY);
      players := players + [position];
      playerEngines := playerEngines + [e];
    }

    /** Deletes the runner at an in-range index together with its engine; any other index changes nothing. */
    method RemovePlayer(index: int)
      requires Valid()
      modifies this
      ensures Valid()
      ensures 0 <= index < |old(players)| ==>
        players == old(players)[..index] + old(players)[index + 1..] &&
        playerEngines == old(playerEngines)[..index] + old(playerEngines)[index + 1..]
      ensures !(0 <= index < |old(players)|) ==> players == old(players) && playerEngines == old(playerEngines)
      ensures ghostPos == old(ghostPos) && ghostEngine == old(ghostEngine) && mapSize == old(mapSize) && walls == old(walls)
    {
      if 0 <= index < |players| {
        players := players[..index] + players[index + 1..];
        playerEngines := playerEngines[..index] + playerEngines[index + 1..];
      }
    }
  }
}
