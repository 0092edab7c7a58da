# Grid chase engine in Dafny

This project models the simulation core of a grid chase game. Runners and one ghost move on a walled rectangular grid, one cell per tick, in the four unit directions. The model covers these parts of the engine:

- **Grid helpers**: Manhattan distance, cell validity, the ordered list of valid directions, and opposite and equal directions.
- **Shared movement base**: a bounded history of visited cells, per-direction weights that favour going straight on, and a cumulative-weight draw.
- **Direction-streak counter**: counts consecutive moves in one direction and derives a capped bonus.
- **Runner policy**:
  - flees a nearby ghost;
  - penalises recent cells and cells held by other runners;
  - makes a random move one time in four.
- **Ghost policy**, with four chase levels:
  - basic: approach the target;
  - predictive: extrapolate the target's last step;
  - strategic: favour a cornered target;
  - advanced: the optimal axis, the target's habits, a crowd bonus, and an occasional back-off.
- **Smooth movement**: an idle/moving state machine. It commits the logical cell at once and eases the drawn position towards it over time.
- **Tick engine**:
  - runners plan against the positions at the start of the tick;
  - the ghost plans against their new positions;
  - a runner on the ghost's cell is caught.
- **Roster layer**:
  - external string ids mapped to player slots;
  - a capacity limit;
  - a corner-seeking placement search;
  - index compaction on removal.
- **Map builders**: a border, text patterns, randomised interiors, and the fixed 20 by 13 Pac-Man board.

Every `Math.random()` call becomes an explicit draw parameter in [0, 1). Weights, easing and progress are exact reals. Each file is one module, and each module models one source file:

| file | module | source file |
|---|---|---|
| `types.dfy` | `Types` | `apps/game/src/game/types.ts` |
| `utils.dfy` | `Utils` | `apps/game/src/game/utils.ts` |
| `movement_engine.dfy` | `Movement` | `packages/game/src/game/MovementEngine.ts` |
| `path_continuity.dfy` | `Continuity` | `packages/game/src/game/PathContinuity.ts` |
| `player_engine.dfy` | `Player` | `apps/game/src/game/PlayerEngine.ts` |
| `ghost_engine.dfy` | `Ghost` | `packages/game/src/game/GhostEngine.ts` |
| `smooth_movement.dfy` | `Smooth` | `packages/game/src/game/SmoothMovement.ts` |
| `game_engine.dfy` | `Engine` | `apps/game/src/game/GameEngine.ts` |
| `external_game_engine.dfy` | `External` | `packages/game/src/game/ExternalGameEngine.ts` |
| `map_generator.dfy` | `Maps` | `packages/game/src/game/MapGenerator.ts` |

`wrappers.dfy` (module `Wrappers`) holds `Option` and `Result`.

Classes that update their fields in place stay classes: `MovementEngine`, `PathContinuity`, `PlayerEngine`, `GhostEngine`, `SmoothMovement`, `GameEngine` and `ExternalGameEngine`.

Each state-changing method is tied by its `ensures` to a pure function of the old state. Examples are `PlayerMove`, `GhostMove`, `UpdateSpec`, `AddSpec` and `NearestFree`. The lemmas state what the source promises about those functions.

Inheritance is modelled by composition. `PlayerEngine` and `GhostEngine` each own a `MovementEngine` named `movement`.

`packages/game/src/game/GameEngine.ts`, the base class of `ExternalGameEngine`, is not part of this model. The roster layer keeps its own `players` sequence, and its `removePlayer` is an in-range splice, as in `apps/game/src/game/GameEngine.ts:105-110`.

Two behaviours of the code are worth stating plainly:

- **Runners and occupied cells.** `apps/game/src/game/PlayerEngine.ts:13` computes the valid directions without an occupied list, so a runner may plan into a cell another runner holds. Lines 46-50 only multiply such a move's weight by 0.2.
- **The corner search.** `packages/game/src/game/ExternalGameEngine.ts:378-397` scans square rings around the corner. Within the first ring that holds a free cell, it keeps the smallest Manhattan offset, taking the earliest in dx-then-dy order on ties.

## Model

| member | source | states |
|---|---|---|
| Types.DirectionsInOrder | apps/game/src/game/types.ts:11-16 | exactly four moves, in the order UP (0,-1), DOWN (0,1), LEFT (-1,0), RIGHT (1,0) |
| Types.DirectionsAreUnitSteps | apps/game/src/game/types.ts:11-16 | every move has \|x\|+\|y\| = 1, so none is the zero vector |
| Types.DirectionsDistinct | apps/game/src/game/types.ts:11-16 | the four moves are pairwise distinct |
| Types.DirectionsClosedUnderNegation | apps/game/src/game/types.ts:11-16 | the negation of a move is a move; UP and DOWN, LEFT and RIGHT are each other's negation |
| Utils.ManhattanDistance | apps/game/src/game/utils.ts:4-6 | the distance is a natural number and is zero exactly when the two cells are equal |
| Utils.ManhattanSymmetric | apps/game/src/game/utils.ts:4-6 | the distance is symmetric |
| Utils.StepChangesDistanceByOne | apps/game/src/game/utils.ts:4-6 | one unit step changes the distance to any fixed cell by exactly one, up or down |
| Utils.IsValidPosition | apps/game/src/game/utils.ts:8-34 | a cell is invalid outside [0,width)×[0,height), on a wall, or in the occupied list when one is given, and valid otherwise |
| Utils.FilterValid | apps/game/src/game/utils.ts:36-46 | the result keeps the candidates' order and holds exactly the candidates whose neighbour is valid |
| Utils.ValidDirections | apps/game/src/game/utils.ts:36-46 | exactly the moves whose neighbour is valid, in UP, DOWN, LEFT, RIGHT order, at most four |
| Utils.OccupiedOnlyShrinks | apps/game/src/game/utils.ts:29-46 | supplying occupied cells only deletes candidates from the filtered list and never adds or reorders them |
| Utils.ValidDirectionsShrinkWithOccupied | apps/game/src/game/utils.ts:29-46 | the valid directions with an occupied list form a subsequence of those without one |
| Utils.OppositeDirection | apps/game/src/game/utils.ts:48-50 | a direction plus its opposite is the zero vector |
| Utils.OppositeIsInvolution | apps/game/src/game/utils.ts:48-50 | taking the opposite twice is the identity, and maps each of the four moves to a different one of them |
| Utils.IsSameDirection | apps/game/src/game/utils.ts:52-54 | holds exactly when the two directions are equal |
| Utils.WasRecentPosition | apps/game/src/game/utils.ts:56-61 | holds exactly when the cell is in the history, so never for an empty history |
| Movement.MovementEngine.constructor | packages/game/src/game/MovementEngine.ts:5-10 | a new engine has an empty history with the given cap (4 by default) and no last direction |
| Movement.PushBoundedKeepsNewest | packages/game/src/game/MovementEngine.ts:12-17 | pushing keeps the newest entries of history plus cell, grows the length by one up to the cap, and puts the cell last |
| Movement.MovementEngine.UpdateHistory | packages/game/src/game/MovementEngine.ts:12-17 | the history becomes the bounded push of the cell, the cap is kept, and the last direction is untouched |
| Movement.WeightOf | packages/game/src/game/MovementEngine.ts:24-40 | weight 1 with no last direction; with one, 4 for the same direction, 0.1 for its reverse, 1 otherwise; always positive |
| Movement.DirectionWeights | packages/game/src/game/MovementEngine.ts:19-44 | one entry per candidate, in candidate order; every weight positive; all weights 1 with no last direction |
| Movement.OrOne | apps/game/src/game/PlayerEngine.ts:32-49 | the `w \|\| 1` read of a weight: a zero weight reads as 1, any other as itself |
| Movement.Adjust | apps/game/src/game/PlayerEngine.ts:22-51 | a `forEach` pass keeps the directions and their order and rewrites each weight by the pass's rule |
| Movement.AdjustWeights | apps/game/src/game/PlayerEngine.ts:22-51 | the loop over the weight entries computes exactly the pass `Adjust` |
| Movement.ScanFrom | packages/game/src/game/MovementEngine.ts:53-58 | the index found is the first at which the decremented threshold is no longer positive, or none when it stays positive |
| Movement.SelectIndex | packages/game/src/game/MovementEngine.ts:46-61 | the selected index is inside the weight list |
| Movement.SelectWeightedDirection | packages/game/src/game/MovementEngine.ts:46-61 | the loop returns the key at the selected index |
| Movement.SelectIndexIsFirstReaching | packages/game/src/game/MovementEngine.ts:46-58 | with positive weights and a draw in [0,1) the scan always lands, on the first entry whose running sum reaches draw×total |
| Movement.ZeroDrawSelectsFirst | packages/game/src/game/MovementEngine.ts:53-60 | a zero draw selects the first key |
| Movement.EveryEntrySelectable | packages/game/src/game/MovementEngine.ts:46-61 | every entry of positive weight is selected by some draw in [0,1) |
| Movement.RandomIndex | apps/game/src/game/PlayerEngine.ts:55 | `floor(r·n)` for a draw in [0,1) is an index below n |
| Movement.RandomIndexHits | apps/game/src/game/PlayerEngine.ts:55 | every index below n is produced by some draw in [0,1) |
| Continuity.Bonus | packages/game/src/game/PathContinuity.ts:17-19 | the bonus is 2n up to five moves and 10 from five on, never above 10 |
| Continuity.Track | packages/game/src/game/PathContinuity.ts:8-15 | the same direction adds one to the count; a new direction, or none stored, sets it to one; the direction is stored |
| Continuity.RepeatCounts | packages/game/src/game/PathContinuity.ts:8-15 | after k moves in one direction the count is k, or the old count plus k when the streak continues |
| Continuity.BonusGrowsThenSaturates | packages/game/src/game/PathContinuity.ts:8-19 | over consecutive same-direction moves the bonus never decreases and is 10 after five of them |
| Continuity.PathContinuity.constructor | packages/game/src/game/PathContinuity.ts:5-6 | a fresh tracker has count 0 and no direction |
| Continuity.PathContinuity.UpdateDirection | packages/game/src/game/PathContinuity.ts:8-15 | the new count and direction are `Track` of the old ones, so the count is at least one |
| Continuity.PathContinuity.ContinuityBonus | packages/game/src/game/PathContinuity.ts:17-19 | the bonus of the current count, at most 10 |
| Continuity.PathContinuity.Reset | packages/game/src/game/PathContinuity.ts:21-24 | count 0 and no direction |
| Player.PlayerWeightsPositive | apps/game/src/game/PlayerEngine.ts:19-51 | the flee and avoidance passes keep the valid directions in order and every weight positive |
| Player.PlayerMoveIsValid | apps/game/src/game/PlayerEngine.ts:6-66 | with no valid neighbour the runner answers (0,0); otherwise it answers one of the four moves, onto a valid cell |
| Player.EveryValidDirectionReachable | apps/game/src/game/PlayerEngine.ts:54-65 | every valid direction is chosen under some draw, both in the random branch and in the weighted branch |
| Player.FleeFavoursEscape | apps/game/src/game/PlayerEngine.ts:22-38 | with the ghost at distance 3 or less, a direction that increases the distance outweighs one that does not |
| Player.WeightAtMostFour | packages/game/src/game/MovementEngine.ts:24-40 | no base weight exceeds 4 |
| Player.AvoidanceOnlyLowers | apps/game/src/game/PlayerEngine.ts:41-51 | the recent-cell and other-runner penalties keep a weight positive and never raise it, and lower it exactly when the target cell is recent or taken |
| Player.PlayerEngine.constructor | packages/game/src/game/MovementEngine.ts:8-10 | the runner's movement state starts with an empty history and no last direction |
| Player.WeighDirections | apps/game/src/game/PlayerEngine.ts:19-51 | the weights built step by step are the policy weights `PlayerWeights`: base weights, the flee adjustment only with the ghost within three cells, then the avoidance penalties |
| Player.PlayerEngine.GetNextMove | apps/game/src/game/PlayerEngine.ts:6-66 | the answer is the policy `PlayerMove` of the old state; with no valid neighbour nothing changes, otherwise the answer becomes the last direction and the cell is pushed on the history |
| Ghost.ClampLevel | packages/game/src/game/GhostEngine.ts:10-12 | the level is clamped into [1,4] and kept when already inside |
| Ghost.GhostEngine.SetLevel | packages/game/src/game/GhostEngine.ts:10-12 | stores the clamped level and leaves the target history alone |
| Ghost.Targets | packages/game/src/game/GhostEngine.ts:21-24 | the runner list when given, else the single runner, else none |
| Ghost.ClosestIndex | packages/game/src/game/GhostEngine.ts:265-281 | the index of a runner at minimum distance, strictly nearer than every earlier runner |
| Ghost.ClosestPlayerIsEarliestNearest | packages/game/src/game/GhostEngine.ts:265-281 | the chosen runner is in the list, at minimum distance, and the earliest such runner |
| Ghost.GhostEngine.FindClosestPlayer | packages/game/src/game/GhostEngine.ts:265-281 | the running-minimum loop returns `ClosestPlayer` |
| Ghost.GhostEngine.UpdatePlayerHistory | packages/game/src/game/GhostEngine.ts:204-209 | the target is appended and only the five newest entries are kept |
| Ghost.GhostEngine.UpdateMapKnowledge | packages/game/src/game/GhostEngine.ts:211-214 | the ghost's cell joins the known cells |
| Ghost.PredictionExtrapolatesLastStep | packages/game/src/game/GhostEngine.ts:216-227 | with two cells remembered the prediction is the current cell moved once more by the last step |
| Ghost.PredictionWithoutMotionIsCurrent | packages/game/src/game/GhostEngine.ts:216-227 | with fewer than two cells remembered the prediction is the current cell |
| Ghost.OptimalDirectionApproaches | packages/game/src/game/GhostEngine.ts:229-241 | a horizontal move when the x offset is strictly larger, a vertical one otherwise; it is one of the four moves, gets one cell closer, and is UP on the target itself |
| Ghost.PatternScoreRange | packages/game/src/game/GhostEngine.ts:243-263 | the score is 0, 0.5 or 1; 0 with fewer than three cells; 1 exactly when both last steps went in the direction |
| Ghost.GhostEngine.AnalyzePlayerPattern | packages/game/src/game/GhostEngine.ts:243-263 | the loop computes `PatternScore` of the target history |
| Ghost.CountNearbyIsCount | packages/game/src/game/GhostEngine.ts:170-172 | the count is the number of list entries within distance 4 of the ghost |
| Ghost.CountNearby | packages/game/src/game/GhostEngine.ts:170-172 | the count never exceeds the number of runners |
| Ghost.AdvancedScoreNonNegative | packages/game/src/game/GhostEngine.ts:153-186 | the level-4 score of a direction is never negative |
| Ghost.ChaseWeightsPositive | packages/game/src/game/GhostEngine.ts:37-191 | every chase level keeps the valid directions in order and gives each a positive weight |
| Ghost.BasicChaseRewardsApproach | packages/game/src/game/GhostEngine.ts:62-82 | at level 1 a direction gains exactly 3 when it shortens the distance to the target and nothing otherwise |
| Ghost.AdvancedChaseFavoursOptimal | packages/game/src/game/GhostEngine.ts:142-191 | at level 4, unless the ghost backs off, the optimal direction gains at least 4 |
| Ghost.GhostMoveIsValid | packages/game/src/game/GhostEngine.ts:14-60 | with no valid neighbour the ghost answers (0,0); otherwise one of the four moves onto a valid cell, with or without runners |
| Ghost.EveryValidDirectionChaseable | packages/game/src/game/GhostEngine.ts:14-60 | at every level each valid direction is chosen under some draw |
| Ghost.GhostEngine.constructor | packages/game/src/game/GhostEngine.ts:6-8 | level 1, no target history, no known cells, a fresh movement state |
| Ghost.GhostEngine.Commit | packages/game/src/game/GhostEngine.ts:77-81 | the weighted pick becomes the last direction and the ghost's cell is pushed on its history |
| Ghost.GhostEngine.BasicChase | packages/game/src/game/GhostEngine.ts:62-82 | the answer is the weighted pick over the level-1 weights; last direction and history are updated |
| Ghost.GhostEngine.PredictiveChase | packages/game/src/game/GhostEngine.ts:84-108 | the weighted pick over the level-2 weights, which use the predicted target cell |
| Ghost.GhostEngine.StrategicChase | packages/game/src/game/GhostEngine.ts:110-140 | the weighted pick over the level-3 weights, which use whether the target is cornered |
| Ghost.GhostEngine.ScoreDirection | packages/game/src/game/GhostEngine.ts:154-183 | computes the level-4 score of one direction |
| Ghost.GhostEngine.AdvancedChase | packages/game/src/game/GhostEngine.ts:142-191 | the loop builds the level-4 weights, one backoff draw per direction, and picks from them |
| Ghost.GhostEngine.GetNextMove | packages/game/src/game/GhostEngine.ts:14-60 | the answer is `GhostMove` of the old state; with no runners the target history, known cells and movement state are untouched; otherwise the closest runner is pushed and the cell becomes known |
| Smooth.EaseShape | packages/game/src/game/SmoothMovement.ts:106-108 | ease fixes 0, ½ and 1, maps [0,1] monotonically into itself, and is symmetric about ½ |
| Smooth.StartMoveEffect | packages/game/src/game/SmoothMovement.ts:44-63 | refused exactly when no move may start, and then nothing changes; otherwise the logical cell jumps at once, the move is recorded with the current speed and progress 0, the state is MOVING and the visual position stays |
| Smooth.OperationsKeepConsistent | packages/game/src/game/SmoothMovement.ts:40-121 | every operation keeps: a move in flight exactly while MOVING, ending at the logical cell, with a non-zero duration |
| Smooth.UpdateWhileIdle | packages/game/src/game/SmoothMovement.ts:65-68 | while idle or with no move, `update` answers false and changes nothing |
| Smooth.UpdateInFlight | packages/game/src/game/SmoothMovement.ts:70-85 | before completion, progress is the elapsed fraction (not clamped below), and the visual position is the eased point between the cells |
| Smooth.UpdateCompletes | packages/game/src/game/SmoothMovement.ts:88-101 | at completion the visual position is exactly the target cell and `update` answers true; the tracker goes idle, or starts the queued direction at the same time |
| Smooth.UpdateIdempotentOnVisual | packages/game/src/game/SmoothMovement.ts:65-104 | a second `update` at the same time leaves the visual position where the first put it |
| Smooth.ForceStopEffect | packages/game/src/game/SmoothMovement.ts:114-121 | the logical cell never changes; a move in flight snaps the visual position to it; the tracker is idle with nothing queued |
| Smooth.SmoothMovement.constructor | packages/game/src/game/SmoothMovement.ts:10-20 | idle at the initial cell, drawn there, nothing queued, default speed 200 |
| Smooth.SmoothMovement.CanMoveNow | packages/game/src/game/SmoothMovement.ts:33-38 | holds exactly when idle or when the move in flight is more than half done |
| Smooth.SmoothMovement.QueueDirection | packages/game/src/game/SmoothMovement.ts:40-42 | only the queued direction changes |
| Smooth.SmoothMovement.StartMove | packages/game/src/game/SmoothMovement.ts:44-63 | the answer and the new fields are `StartSpec` of the old ones |
| Smooth.SmoothMovement.Update | packages/game/src/game/SmoothMovement.ts:65-104 | the answer and the new fields are `UpdateSpec` of the old ones |
| Smooth.SmoothMovement.SetSpeed | packages/game/src/game/SmoothMovement.ts:110-112 | only the speed changes |
| Smooth.SmoothMovement.ForceStop | packages/game/src/game/SmoothMovement.ts:114-121 | the new fields are `ForceStopSpec` of the old ones |
| Engine.Others | apps/game/src/game/GameEngine.ts:20 | every runner but the `i`-th, in their order: entries before `i` stay in place, later ones shift down by one, and only runner `i` is missing from the multiset |
| Engine.AdvanceFollowsPlan | apps/game/src/game/GameEngine.ts:30-65 | a plan from either policy moves the agent exactly when a free neighbour exists, one cell onto a valid cell |
| Engine.RunnerMovesIffFreeNeighbour | apps/game/src/game/GameEngine.ts:19-45 | a runner moves in a tick exactly when a neighbour is in bounds and not a wall, whatever the other runners do |
| Engine.GhostMovesIffFreeNeighbour | apps/game/src/game/GameEngine.ts:48-65 | the ghost moves in a tick exactly when a neighbour is in bounds and not a wall |
| Engine.CaughtPlayers | apps/game/src/game/GameEngine.ts:78-92 | exactly the indices of the runners on the ghost's cell, in ascending order |
| Engine.GameOverIffCaught | apps/game/src/game/GameEngine.ts:78-92 | the caught list is non-empty exactly when some runner stands on the ghost's cell |
| Engine.GameEngine.NewPlayerEngines | apps/game/src/game/GameEngine.ts:11-15 | one fresh, distinct runner engine per runner, each with empty history |
| Engine.GameEngine.constructor | apps/game/src/game/GameEngine.ts:11-15 | the given state; one fresh engine per runner, each with an empty history of cap 4 and no last direction; a fresh level-1 ghost with no last direction, an empty history, no targets and no known cells |
| Engine.RunnerMemoryRecordsMove | apps/game/src/game/PlayerEngine.ts:53-65 | a runner's new memory agrees with its step: when it moves, the remembered direction leads from its old cell to its new one, the old cell is the newest history entry and the cap holds; when it stays, nothing changes |
| Engine.GhostMemoryRecordsChase | packages/game/src/game/GhostEngine.ts:21-30 | with runners about, the newest target is a runner nearest to the ghost and the ghost's cell becomes known; with no runners nothing changes; the targets keep their cap of 5 and the known cells only grow |
| Engine.GhostMemoryRecordsMove | packages/game/src/game/GhostEngine.ts:32-35 | a ghost that moves remembers the direction that took it to its new cell and pushes the cell it left (as every strategy does at its end); one that stays keeps its last direction and history; the history keeps its cap |
| Engine.GameEngine.MoveRunner | apps/game/src/game/GameEngine.ts:20-44 | runner `i` ends at `PlayerStep` and its engine at `RunnerMemory` of its old state |
| Engine.GameEngine.MovePlayers | apps/game/src/game/GameEngine.ts:19-45 | every runner ends at `PlayerStep` against the positions at the start of the tick, and its engine ends at `RunnerMemory`: the move as last direction and the old cell pushed, or unchanged without a free neighbour; the ghost's movement state is untouched |
| Engine.GameEngine.UpdateGame | apps/game/src/game/GameEngine.ts:17-68 | the runner count is kept; each runner moves by `PlayerStep` and its engine ends at `RunnerMemory`; the ghost then moves by `GhostMove` against the new runner positions, only onto a valid cell, its level is kept and its memory ends at `GhostAfter` |
| Engine.GameEngine.MoveGhost | apps/game/src/game/GameEngine.ts:47-65 | the ghost ends at `GhostMove` of its old state against the current runner positions when that cell is valid, and otherwise stays; its level is kept and its memory (last direction, history, targets, known cells) ends at `GhostAfter`; runners, their engines and the map are untouched |
| Engine.GameEngine.SetGhostLevel | apps/game/src/game/GameEngine.ts:70-72 | the ghost's level becomes the clamped value; its targets and known cells are kept |
| Engine.GameEngine.IsGameOver | apps/game/src/game/GameEngine.ts:78-92 | over exactly when some runner is on the ghost's cell, with the list of caught indices |
| Engine.GameEngine.ResetGame | apps/game/src/game/GameEngine.ts:94-98 | the new state; one fresh engine per runner, each with an empty history of cap 4 and no last direction; a fresh level-1 ghost with empty memory |
| Engine.GameEngine.AddPlayer | apps/game/src/game/GameEngine.ts:100-103 | appends the cell unchecked, with one fresh engine that has an empty history of cap 4 and no last direction; nothing else changes |
| Engine.GameEngine.RemovePlayer | apps/game/src/game/GameEngine.ts:105-110 | an in-range index removes that runner and its engine, shifting later ones down; any other index changes nothing |
| Maps.BorderWallsShape | packages/game/src/game/MapGenerator.ts:8-24 | exactly the top and bottom rows and the side columns between them, all on the edge, 2w + 2·max(h-2,0) cells |
| Maps.CreateBorderWalls | packages/game/src/game/MapGenerator.ts:8-24 | the two loops emit exactly `BorderWalls` in order |
| Maps.CustomWallsShape | packages/game/src/game/MapGenerator.ts:47-59 | (x,y) is a wall exactly when character x of row y is `#` or `1`, in row-major order; a pattern without them gives no walls |
| Maps.CreateCustomWalls | packages/game/src/game/MapGenerator.ts:47-59 | the nested loops emit exactly `CustomWalls` of the pattern |
| Maps.CreateMazeWalls | packages/game/src/game/MapGenerator.ts:26-45 | whatever the draws: the border comes first, every grid post is a wall, and every added cell is inside the border |
| Maps.CreateRandomWalls | packages/game/src/game/MapGenerator.ts:61-77 | the border comes first; after it exactly the interior cells whose draw is below the density |
| Maps.CreatePacmanMap | packages/game/src/game/MapGenerator.ts:80-104 | the walls of the fixed pattern and a 20 by 13 map |
| Maps.PacmanRowLengths | packages/game/src/game/MapGenerator.ts:84-98 | 13 rows of at most 20 characters; rows 2, 6 and 10 have 19 |
| Maps.PacmanWallsInBounds | packages/game/src/game/MapGenerator.ts:80-104 | every wall lies inside the 20 by 13 rectangle |
| Maps.PacmanRightBorderGaps | packages/game/src/game/MapGenerator.ts:84-98 | (19,2), (19,6) and (19,10) are not walls although x = 19 is the right edge |
| Maps.PacmanRightBorderAroundGap | packages/game/src/game/MapGenerator.ts:84-98 | the right edge is a wall on the full-length rows, for instance at (19,1) |
| External.Available | packages/game/src/game/ExternalGameEngine.ts:297-309 | in bounds, not a wall, not a player's cell, and off both the ghost's row and its column |
| External.NearestFreeChoice | packages/game/src/game/ExternalGameEngine.ts:374-397 | with no free cell within rings 0 to 4, the corner itself; otherwise a free cell of the innermost ring holding one, nearest to the corner and first in dx-then-dy order among the nearest |
| External.FindNearestFree | packages/game/src/game/ExternalGameEngine.ts:374-397 | the search loop computes `NearestFree` |
| External.ScanRingLoop | packages/game/src/game/ExternalGameEngine.ts:379-395 | the dx loop of one ring computes `ScanRing` from the best so far |
| External.ScanColumnLoop | packages/game/src/game/ExternalGameEngine.ts:380-394 | the dy loop computes `ScanColumn`, skipping offsets off the ring and keeping a cell only when strictly nearer |
| External.AddEffect | packages/game/src/game/ExternalGameEngine.ts:45-82 | a known id returns its slot and changes nothing; a full roster fails and changes nothing; otherwise one player is appended, the id names that new last slot and every other id keeps its player |
| External.RemoveEffect | packages/game/src/game/ExternalGameEngine.ts:85-102 | false and no change for an unknown id; otherwise the id is forgotten, the roster shrinks by one, and every remaining id still names the same player |
| External.RemoveUndoesAdd | packages/game/src/game/ExternalGameEngine.ts:45-102 | adding a fresh id and removing it again restores the roster exactly |
| External.TeleportEffect | packages/game/src/game/ExternalGameEngine.ts:129-137 | succeeds exactly for a known id and an available cell, and then moves only that id's player |
| External.UpdateInfoEffect | packages/game/src/game/ExternalGameEngine.ts:140-144 | succeeds exactly for a known id, storing the info; otherwise nothing changes |
| External.CommandEffect | packages/game/src/game/ExternalGameEngine.ts:152-188 | unknown kinds and a teleport without a position answer false with no change; only an add over capacity fails, with no change; a successful add answers true |
| External.RemapIndices | packages/game/src/game/ExternalGameEngine.ts:94-99 | the rebuilt map shifts every index above the removed one down by one and keeps the rest |
| External.ExternalGameEngine.constructor | packages/game/src/game/ExternalGameEngine.ts:21-32 | each missing part of the initial state defaults to no players, the ghost at (10,6), or the Pac-Man map; no ids; capacity 10 |
| External.ExternalGameEngine.SetMaxPlayers | packages/game/src/game/ExternalGameEngine.ts:35-37 | only the capacity changes |
| External.ExternalGameEngine.GetMaxPlayers | packages/game/src/game/ExternalGameEngine.ts:40-42 | answers the capacity |
| External.ExternalGameEngine.AddPlayerAt | packages/game/src/game/ExternalGameEngine.ts:311-317 | appends the cell, nothing else changes |
| External.ExternalGameEngine.AddPlayerToCorner | packages/game/src/game/ExternalGameEngine.ts:353-403 | appends `NearestFree` of corner `count % 4`, with players and the ghost as occupied cells |
| External.ExternalGameEngine.AddExternalPlayer | packages/game/src/game/ExternalGameEngine.ts:45-82 | the answer and new state are `AddSpec` of the old state, and the roster stays consistent |
| External.ExternalGameEngine.RemoveExternalPlayer | packages/game/src/game/ExternalGameEngine.ts:85-102 | the answer and new state are `RemoveSpec` of the old state |
| External.ExternalGameEngine.TeleportPlayer | packages/game/src/game/ExternalGameEngine.ts:129-137 | the answer and new state are `TeleportSpec` of the old state |
| External.ExternalGameEngine.UpdatePlayerInfo | packages/game/src/game/ExternalGameEngine.ts:140-144 | the answer and new state are `UpdateInfoSpec` of the old state |
| External.ExternalGameEngine.BoostPlayer | packages/game/src/game/ExternalGameEngine.ts:105-126 | answers true exactly for a registered id |
| External.ExternalGameEngine.ProcessCommand | packages/game/src/game/ExternalGameEngine.ts:152-188 | the answer and new state are `CommandSpec` of the old state; a thrown capacity error is an `Err` |
| External.ExternalGameEngine.Reset | packages/game/src/game/ExternalGameEngine.ts:333-351 | no players, the ghost at (10,6) on the Pac-Man map, no ids or info; the capacity is kept |

## Left out

- Randomness as probability. Each `Math.random()` is a draw parameter:
  - runners get two draws each (the random-branch test, then the index or the weighted pick);
  - the ghost gets one pick draw and one backoff draw per direction;
  - the maze and random map builders get per-cell draws.

  Nothing is said about distributions, such as the 25% random branch or the 10% back-off.
- Floating point. Weights, easing, progress and times are exact reals; IEEE rounding is not modelled.
- Engine.GameEngine.constructor, Engine.GameEngine.ResetGame and Engine.GameEngine.AddPlayer hold the runner positions as a value. The source copies the given state shallowly (`apps/game/src/game/GameEngine.ts:14` and `:95`), so until the first tick reassigns `players` (line 19), `addPlayer` (line 101) also pushes onto the caller's own array; that aliasing is not modelled. In the other direction, the roster layer assumes that the unseen base class's `getGameState().players` is the live array, which `packages/game/src/game/ExternalGameEngine.ts:56`, `:134-135` and `:312-313` write through; it updates its own `players` sequence in place of that array.
- Engine.GameEngine.MovePlayers and Engine.GameEngine.UpdateGame require one pair of draws per runner, because the draws are parameters.
- Smooth.SmoothMovement.SetSpeed requires a non-zero speed. A zero speed gives an infinite or NaN progress in floating point, which exact reals cannot express.
- External.ExternalGameEngine.BoostPlayer only reports whether the id is registered. The speed effects, `updateEffects` and `updatePlayerSpeed` depend on the wall clock, and the multiplier product they compute is discarded, so they are not modelled. The same holds for the `slow` command.
- The event emitter (`on`, `off`, `emit`) and the `playerJoined`/`playerMoved` events only invoke callbacks; they are not modelled.
- `getExternalGameState`, the `updateGame` override, `getPlayerInfo`, `getGhostLevel`, `getPlayerSpeed` and `getGhostSpeed` are not modelled. They are read-outs, or they depend on `packages/game/src/game/GameEngine.ts`, which is not part of this model.
- Collision resolution, elimination, rankings and the per-player engines and smooth movers pushed by `addPlayerAt`/`addPlayerToCorner` live in that unseen base class. The roster layer models only its `players` sequence.
- External.ExternalGameEngine.SetMaxPlayers takes an integer capacity; non-integral or NaN capacities are not modelled.
- Ghost.GhostEngine.UpdateMapKnowledge keeps a set of cells instead of a set of `"x,y"` strings, because the knowledge is never read.
- Getters such as `getPosition`, `isMoving` and `getGameState`, which only read fields, are not modelled separately.
- `createEmptyMap` and the demo constructors are not part of this model.
- `apps/game/src/game/MovementEngine.ts` and `apps/game/src/game/GhostEngine.ts` are not part of this model; modules `Movement` and `Ghost` follow the shared `packages/game/src/game/MovementEngine.ts` and `packages/game/src/game/GhostEngine.ts` in their place.
