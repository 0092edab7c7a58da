/** The roster layer: external string ids mapped to player slots, a capacity limit,
    placement of newcomers near a corner, and index compaction on removal. */
module External {
  import opened Wrappers
  import opened Types
  import opened Utils
  import Maps

  const DEFAULT_MAX_PLAYERS: int := 10
  const DEFAULT_GHOST: Position := Point(10, 6)
  /** Rings 0 to 4 around the target corner are searched. */
  const SEARCH_RADII: nat := 5

  datatype ExternalPlayer = ExternalPlayer(id: string, name: Option<string>, emoji: Option<string>, speed: Option<real>)
  datatype CommandData = CommandData(duration: Option<real>, position: Option<Position>, speedMultiplier: Option<real>)
  /** `kind` is one of "boost", "slow", "teleport", "add", "remove" when well formed. */
  datatype PlayerCommand = PlayerCommand(playerId: string, kind: string, data: Option<CommandData>)
  datatype AddError = TooManyPlayers(maxPlayers: int)

  /** The engine's state as a value. */
  datatype Roster = Roster(players: seq<Position>, ghostPos: Position, mapSize: MapSize, walls: seq<Position>,
                           ids: map<string, nat>, info: map<string, ExternalPlayer>, maxPlayers: int)

  /** Every registered id names an in-range slot, and no two ids share one. */
  predicate Registered(players: seq<Position>, ids: map<string, nat>) {
    (forall id :: id in ids ==> ids[id] < |players|) &&
    (forall a, b :: a in ids && b in ids && a != b ==> ids[a] != ids[b])
  }

  predicate Consistent(s: Roster) {
    Registered(s.players, s.ids) && s.info.Keys <= s.ids.Keys
  }

  /** A cell a player may be put on: valid, not held by a player, and off the
      ghost's whole row and whole column. */
  predicate Available(s: Roster, pos: Position)
    ensures Available(s, pos) <==>
      InBounds(pos, s.mapSize) && pos !in s.walls && pos !in s.players && pos.x != s.ghostPos.x && pos.y != s.ghostPos.y
  {
    IsValidPosition(pos, s.mapSize, s.walls, Some(s.players)) && pos.x != s.ghostPos.x && pos.y != s.ghostPos.y
  }

  // ---------------------------------------------------------------- corner search

  datatype Board = Board(size: MapSize, walls: seq<Position>, occupied: seq<Position>)
  datatype Spot = Spot(pos: Position, dist: nat)

  function Corners(size: MapSize): seq<Position> {
    [Point(1, 1), Point(size.width - 2, 1), Point(1, size.height - 2), Point(size.width - 2, size.height - 2)]
  }

  predicate Free(b: Board, pos: Position) {
    IsValidPosition(pos, b.size, b.walls, None) && pos !in b.occupied
  }

  /** `Free` on one board as a test the scan applies; the scan's lemmas hold for any test. */
  function FreeTest(b: Board): Position -> bool {
    p => Free(b, p)
  }

  /** The square ring around `c` that holds `p`: the larger of the two offsets. */
  function Ring(c: Position, p: Position): nat {
    if Abs(p.x - c.x) >= Abs(p.y - c.y) then Abs(p.x - c.x) else Abs(p.y - c.y)
  }

  /** `p` is at least as good a choice as `q`: strictly closer to `c`, or as close and
      not later in the scan (left column first, then top first). */
  predicate NoWorse(c: Position, p: Position, q: Position) {
    ManhattanDistance(p, c) < ManhattanDistance(q, c) ||
    (ManhattanDistance(p, c) == ManhattanDistance(q, c) && (p.x < q.x || (p.x == q.x && p.y <= q.y)))
  }

  /** One step of the scan: offset (dx, dy) of ring `r` replaces the best so far
      when it is on the ring, free, and strictly closer. */
  function Consider(c: Position, r: nat, dx: int, dy: int, ok: Position -> bool, acc: Option<Spot>): Option<Spot> {
    if Abs(dx) != r && Abs(dy) != r then acc
    else
      var pos := Point(c.x + dx, c.y + dy);
      var distance := Abs(dx) + Abs(dy);
      if ok(pos) && (acc.None? || distance < acc.value.dist) then Some(Spot(pos, distance)) else acc
  }

  function ScanColumn(c: Position, r: nat, dx: int, dy: int, ok: Position -> bool, acc: Option<Spot>): Option<Spot>
    decreases r + 1 - dy
  {
    if dy > r then acc else ScanColumn(c, r, dx, dy + 1, ok, Consider(c, r, dx, dy, ok, acc))
  }

  function ScanRing(c: Position, r: nat, dx: int, ok: Position -> bool, acc: Option<Spot>): Option<Spot>
    decreases r + 1 - dx
  {
    if dx > r then acc else ScanRing(c, r, dx + 1, ok, ScanColumn(c, r, dx, -(r as int), ok, acc))
  }

  /** Rings from `r` outwards; the first ring with a free cell decides. */
  function ScanRings(c: Position, r: nat, ok: Position -> bool): Option<Spot>
    decreases SEARCH_RADII - r
  {
    if r >= SEARCH_RADII then None
    else
      var found := ScanRing(c, r, -(r as int), ok, None);
      if found.Some? then found else ScanRings(c, r + 1, ok)
  }

  function NearestFree(c: Position, b: Board): Position {
    match ScanRings(c, 0, FreeTest(b))
    case Some(s) => s.pos
    case None => c
  }

  predicate Good(c: Position, r: nat, ok: Position -> bool, s: Spot) {
    ok(s.pos) && s.dist == ManhattanDistance(s.pos, c) && Ring(c, s.pos) == r
  }

  predicate Candidate(c: Position, r: nat, ok: Position -> bool, q: Position) {
    Ring(c, q) == r && ok(q)
  }

  /** What the column scan may assume of its best-so-far: a good cell of ring `r`
      that the scan met before offset (dx, dy). */
  predicate ScanPre(c: Position, r: nat, dx: int, dy: int, ok: Position -> bool, acc: Option<Spot>) {
    -(r as int) <= dx <= r && -(r as int) <= dy &&
    (acc.Some? ==>
      Good(c, r, ok, acc.value) &&
      (acc.value.pos.x < c.x + dx || (acc.value.pos.x == c.x + dx && acc.value.pos.y < c.y + dy)))
  }

  /** A column scan from best-so-far `acc` ended in `res`: a good cell of the ring no
      further right than column `dx`, and no worse than `acc`. */
  predicate ColumnKept(c: Position, r: nat, dx: int, ok: Position -> bool, acc: Option<Spot>, res: Option<Spot>) {
    (res.Some? ==> Good(c, r, ok, res.value) && res.value.pos.x <= c.x + dx) &&
    (acc.Some? ==> res.Some? && NoWorse(c, res.value.pos, acc.value.pos))
  }

  /** `res` is no worse than every free ring cell of column `dx` from row offset `dy` down. */
  ghost predicate ColumnCovered(c: Position, r: nat, dx: int, dy: int, ok: Position -> bool, res: Option<Spot>) {
    forall q: Position :: q.x == c.x + dx && c.y + dy <= q.y && Candidate(c, r, ok, q) ==>
      res.Some? && NoWorse(c, res.value.pos, q)
  }

  /** The rest of a column scan keeps a good cell, no worse than the best so far. */
  lemma {:induction false} ScanColumnKeeps(c: Position, r: nat, dx: int, dy: int, ok: Position -> bool, acc: Option<Spot>)
    requires ScanPre(c, r, dx, dy, ok, acc)
    ensures ColumnKept(c, r, dx, ok, acc, ScanColumn(c, r, dx, dy, ok, acc))
    decreases r + 1 - dy
  {
    if dy <= r {
      var next := Consider(c, r, dx, dy, ok, acc);
      ConsiderBest(c, r, dx, dy, ok, acc);
      ScanColumnKeeps(c, r, dx, dy + 1, ok, next);
      if acc.Some? {
        NoWorseTransitive(c, ScanColumn(c, r, dx, dy + 1, ok, next).value.pos, next.value.pos, acc.value.pos);
      }
    }
  }

  /** The rest of a column scan ends no worse than every free ring cell still ahead in the column. */
  lemma {:induction false} ScanColumnCovers(c: Position, r: nat, dx: int, dy: int, ok: Position -> bool, acc: Option<Spot>)
    requires ScanPre(c, r, dx, dy, ok, acc)
    ensures ColumnCovered(c, r, dx, dy, ok, ScanColumn(c, r, dx, dy, ok, acc))
    decreases r + 1 - dy
  {
    if dy <= r {
      var next := Consider(c, r, dx, dy, ok, acc);
      ConsiderBest(c, r, dx, dy, ok, acc);
      ScanColumnKeeps(c, r, dx, dy + 1, ok, next);
      ScanColumnCovers(c, r, dx, dy + 1, ok, next);
      ColumnCombine(c, r, dx, dy, ok, next, ScanColumn(c, r, dx, dy + 1, ok, next));
    }
  }

  /** Joins the cell at offset (dx, dy), summed up in `next`, with the outcome `res`
      of the cells below it. */
  lemma ColumnCombine(c: Position, r: nat, dx: int, dy: int, ok: Position -> bool, next: Option<Spot>, res: Option<Spot>)
    requires Candidate(c, r, ok, Point(c.x + dx, c.y + dy)) ==> next.Some? && NoWorse(c, next.value.pos, Point(c.x + dx, c.y + dy))
    requires ColumnKept(c, r, dx, ok, next, res)
    requires ColumnCovered(c, r, dx, dy + 1, ok, res)
    ensures ColumnCovered(c, r, dx, dy, ok, res)
  {
    forall q: Position | q.x == c.x + dx && c.y + dy <= q.y && Candidate(c, r, ok, q)
      ensures res.Some? && NoWorse(c, res.value.pos, q)
    {
      if q.y == c.y + dy {
        assert q == Point(c.x + dx, c.y + dy);
        NoWorseTransitive(c, res.value.pos, next.value.pos, q);
      }
    }
  }

  /** One step keeps a good best-so-far that is no worse than the previous one and
      than the cell just looked at. */
  lemma ConsiderBest(c: Position, r: nat, dx: int, dy: int, ok: Position -> bool, acc: Option<Spot>)
    requires -(r as int) <= dx <= r && -(r as int) <= dy <= r
    requires acc.Some? ==>
      Good(c, r, ok, acc.value) &&
      (acc.value.pos.x < c.x + dx || (acc.value.pos.x == c.x + dx && acc.value.pos.y < c.y + dy))
    ensures var next := Consider(c, r, dx, dy, ok, acc);
      (next.Some? ==>
        Good(c, r, ok, next.value) && next.value.pos.x <= c.x + dx &&
        (next.value.pos.x < c.x + dx || next.value.pos.y <= c.y + dy)) &&
      (acc.Some? ==> next.Some? && NoWorse(c, next.value.pos, acc.value.pos)) &&
      (Candidate(c, r, ok, Point(c.x + dx, c.y + dy)) ==> next.Some? && NoWorse(c, next.value.pos, Point(c.x + dx, c.y + dy)))
  {
    var here := Point(c.x + dx, c.y + dy);
    assert ManhattanDistance(here, c) == Abs(dx) + Abs(dy);
    assert Ring(c, here) == r <==> Abs(dx) == r || Abs(dy) == r;
  }

  /** A cell of ring `r` lies within `r` of the centre along both axes. */
  lemma RingBounds(c: Position, q: Position)
    ensures c.x - Ring(c, q) <= q.x <= c.x + Ring(c, q)
    ensures c.y - Ring(c, q) <= q.y <= c.y + Ring(c, q)
  {
  }

  lemma NoWorseTransitive(c: Position, p: Position, q: Position, s: Position)
    requires NoWorse(c, p, q) && NoWorse(c, q, s)
    ensures NoWorse(c, p, s)
  {
  }

  /** What the ring scan may assume of its best-so-far at column `dx`: a good cell of
      ring `r` in a column to the left. */
  predicate RingPre(c: Position, r: nat, dx: int, ok: Position -> bool, acc: Option<Spot>) {
    -(r as int) <= dx &&
    (acc.Some? ==> Good(c, r, ok, acc.value) && acc.value.pos.x < c.x + dx)
  }

  /** `res` is no worse than every free cell of ring `r` from column `dx` rightwards. */
  ghost predicate RingCovered(c: Position, r: nat, dx: int, ok: Position -> bool, res: Option<Spot>) {
    forall q: Position :: c.x + dx <= q.x && Candidate(c, r, ok, q) ==> res.Some? && NoWorse(c, res.value.pos, q)
  }

  /** A ring scan from column `dx` and best-so-far `acc` ended in `res`: a good cell,
      no worse than `acc` and than every free ring cell still ahead. */
  ghost predicate RingPost(c: Position, r: nat, dx: int, ok: Position -> bool, acc: Option<Spot>, res: Option<Spot>) {
    (res.Some? ==> Good(c, r, ok, res.value)) &&
    (acc.Some? ==> res.Some? && NoWorse(c, res.value.pos, acc.value.pos)) &&
    RingCovered(c, r, dx, ok, res)
  }

  lemma {:induction false} ScanRingBest(c: Position, r: nat, dx: int, ok: Position -> bool, acc: Option<Spot>)
    requires RingPre(c, r, dx, ok, acc)
    ensures RingPost(c, r, dx, ok, acc, ScanRing(c, r, dx, ok, acc))
    decreases r + 1 - dx
  {
    if dx <= r {
      var col := ScanColumn(c, r, dx, -(r as int), ok, acc);
      RingColumn(c, r, dx, ok, acc);
      ScanRingBest(c, r, dx + 1, ok, col);
      RingCombine(c, r, dx, ok, acc, col, ScanRing(c, r, dx + 1, ok, col));
    } else {
      RingPastEnd(c, r, dx, ok, acc);
    }
  }

  /** Past the last column nothing of the ring is left to cover. */
  lemma RingPastEnd(c: Position, r: nat, dx: int, ok: Position -> bool, acc: Option<Spot>)
    requires r < dx
    ensures RingCovered(c, r, dx, ok, acc)
  {
    forall q: Position | c.x + dx <= q.x && Candidate(c, r, ok, q)
      ensures false
    {
      RingBounds(c, q);
    }
  }

  /** The scan of column `dx` keeps and covers as the ring scan needs, and its outcome
      is what the scan of the next column may assume. */
  lemma RingColumn(c: Position, r: nat, dx: int, ok: Position -> bool, acc: Option<Spot>)
    requires RingPre(c, r, dx, ok, acc) && dx <= r
    ensures var col := ScanColumn(c, r, dx, -(r as int), ok, acc);
      ColumnKept(c, r, dx, ok, acc, col) && ColumnCovered(c, r, dx, -(r as int), ok, col) &&
      RingPre(c, r, dx + 1, ok, col)
  {
    ScanColumnKeeps(c, r, dx, -(r as int), ok, acc);
    ScanColumnCovers(c, r, dx, -(r as int), ok, acc);
  }

  /** Joins a column's outcome `col` with the outcome `res` of the columns to its right. */
  lemma RingCombine(c: Position, r: nat, dx: int, ok: Position -> bool, acc: Option<Spot>, col: Option<Spot>, res: Option<Spot>)
    requires ColumnKept(c, r, dx, ok, acc, col)
    requires ColumnCovered(c, r, dx, -(r as int), ok, col)
    requires RingPost(c, r, dx + 1, ok, col, res)
    ensures RingPost(c, r, dx, ok, acc, res)
  {
    if acc.Some? {
      NoWorseTransitive(c, res.value.pos, col.value.pos, acc.value.pos);
    }
    forall q: Position | c.x + dx <= q.x && Candidate(c, r, ok, q)
      ensures res.Some? && NoWorse(c, res.value.pos, q)
    {
      if q.x == c.x + dx {
        RingBounds(c, q);
        NoWorseTransitive(c, res.value.pos, col.value.pos, q);
      }
    }
  }

  /** The scan of one whole ring finds a free cell of that ring exactly when it holds
      one, and then one no worse than every free cell of the ring. */
  lemma RingOutcome(c: Position, r: nat, ok: Position -> bool)
    ensures var found := ScanRing(c, r, -(r as int), ok, None);
      (found.None? ==> forall q :: Ring(c, q) == r ==> !ok(q)) &&
      (found.Some? ==>
        ok(found.value.pos) && Ring(c, found.value.pos) == r &&
        forall q :: Ring(c, q) == r && ok(q) ==> NoWorse(c, found.value.pos, q))
  {
    ScanRingBest(c, r, -(r as int), ok, None);
    var found := ScanRing(c, r, -(r as int), ok, None);
    forall q | Ring(c, q) == r && ok(q)
      ensures found.Some? && NoWorse(c, found.value.pos, q)
    {
      RingBounds(c, q);
      assert Candidate(c, r, ok, q);
    }
  }

  lemma {:induction false} ScanRingsBest(c: Position, r: nat, ok: Position -> bool)
    requires r <= SEARCH_RADII
    ensures var res := ScanRings(c, r, ok);
      (res.None? ==> forall q :: r <= Ring(c, q) < SEARCH_RADII ==> !ok(q)) &&
      (res.Some? ==>
        ok(res.value.pos) && r <= Ring(c, res.value.pos) < SEARCH_RADII &&
        (forall q :: r <= Ring(c, q) < Ring(c, res.value.pos) ==> !ok(q)) &&
        (forall q :: Ring(c, q) == Ring(c, res.value.pos) && ok(q) ==> NoWorse(c, res.value.pos, q)))
    decreases SEARCH_RADII - r
  {
    if r < SEARCH_RADII {
      RingOutcome(c, r, ok);
      if ScanRing(c, r, -(r as int), ok, None).None? {
        ScanRingsBest(c, r + 1, ok);
      }
    }
  }

  /** The search's outcome: with no free cell within four rings the corner itself;
      otherwise a free cell of the innermost ring holding one, nearest to the corner
      and first in scan order among the nearest. */
  lemma NearestFreeChoice(c: Position, b: Board)
    ensures (forall q :: Ring(c, q) < SEARCH_RADII ==> !Free(b, q)) ==> NearestFree(c, b) == c
    ensures (exists q :: Ring(c, q) < SEARCH_RADII && Free(b, q)) ==>
      var p := NearestFree(c, b);
      Free(b, p) && Ring(c, p) < SEARCH_RADII &&
      (forall q :: Ring(c, q) < Ring(c, p) ==> !Free(b, q)) &&
      (forall q :: Ring(c, q) == Ring(c, p) && Free(b, q) ==> NoWorse(c, p, q))
  {
    ScanRingsBest(c, 0, FreeTest(b));
  }

  /** The search as the engine runs it: rings 0 to 4, offsets dx then dy, keeping
      the first strictly nearest free cell, stopping after the first ring that held one.
      The three nested loops are split into one method per loop. */
  method FindNearestFree(corner: Position, b: Board) returns (bestPosition: Position)
    ensures bestPosition == NearestFree(corner, b)
  {
    bestPosition := corner;
    var minDistance: Option<nat> := None;
    var radius: nat := 0;
    while radius < SEARCH_RADII
      invariant radius <= SEARCH_RADII
      invariant minDistance.None? && bestPosition == corner
      invariant ScanRings(corner, 0, FreeTest(b)) == ScanRings(corner, radius, FreeTest(b))
    {
      bestPosition, minDistance := ScanRingLoop(corner, radius, b, bestPosition, minDistance);
      if minDistance.Some? {
        return;
      }
      radius := radius + 1;
    }
  }

  method ScanRingLoop(corner: Position, radius: nat, b: Board, bestIn: Position, minIn: Option<nat>)
    returns (bestPosition: Position, minDistance: Option<nat>)
    ensures AsSpot(bestPosition, minDistance) == ScanRing(corner, radius, -(radius as int), FreeTest(b), AsSpot(bestIn, minIn))
    ensures minDistance.None? ==> bestPosition == bestIn
  {
    bestPosition, minDistance := bestIn, minIn;
    var dx: int := -(radius as int);
    while dx <= radius
      invariant -(radius as int) <= dx <= radius + 1
      invariant minDistance.None? ==> bestPosition == bestIn
      invariant ScanRing(corner, radius, -(radius as int), FreeTest(b), AsSpot(bestIn, minIn)) ==
        ScanRing(corner, radius, dx, FreeTest(b), AsSpot(bestPosition, minDistance))
    {
      bestPosition, minDistance := ScanColumnLoop(corner, radius, dx, b, bestPosition, minDistance);
      dx := dx + 1;
    }
  }

  method ScanColumnLoop(corner: Position, radius: nat, dx: int, b: Board, bestIn: Position, minIn: Option<nat>)
    returns (bestPosition: Position, minDistance: Option<nat>)
    ensures AsSpot(bestPosition, minDistance) == ScanColumn(corner, radius, dx, -(radius as int), FreeTest(b), AsSpot(bestIn, minIn))
    ensures minDistance.None? ==> minIn.None? && bestPosition == bestIn
  {
    bestPosition, minDistance := bestIn, minIn;
    var dy: int := -(radius as int);
    while dy <= radius
      invariant -(radius as int) <= dy <= radius + 1
      invariant minDistance.None? ==> minIn.None? && bestPosition == bestIn
      invariant ScanColumn(corner, radius, dx, -(radius as int), FreeTest(b), AsSpot(bestIn, minIn)) ==
        ScanColumn(corner, radius, dx, dy, FreeTest(b), AsSpot(bestPosition, minDistance))
    {
      if Abs(dx) != radius && Abs(dy) != radius {
        dy := dy + 1;
        continue;
      }
      var pos := Point(corner.x + dx, corner.y + dy);
      var distance := Abs(dx) + Abs(dy);
      if IsValidPosition(pos, b.size, b.walls, None) && pos !in b.occupied && (minDistance.None? || distance < minDistance.value) {
        bestPosition := pos;
        minDistance := Some(distance);
      }
      dy := dy + 1;
    }
  }

  function AsSpot(best: Position, minDistance: Option<nat>): Option<Spot> {
    if minDistance.None? then None else Some(Spot(best, minDistance.value))
  }

  /** Where a newcomer without a usable position goes: near corner `count % 4`,
      avoiding players and the ghost. */
  function CornerPlacement(s: Roster): Position {
    NearestFree(Corners(s.mapSize)[|s.players| % 4], Board(s.mapSize, s.walls, s.players + [s.ghostPos]))
  }

  // ---------------------------------------------------------------- roster operations

  function Placement(s: Roster, position: Option<Position>): Position {
    if position.Some? && Available(s, position.value) then position.value else CornerPlacement(s)
  }

  function AddSpec(s: Roster, id: string, info: Option<ExternalPlayer>, position: Option<Position>): (Roster, Result<nat, AddError>) {
    if id in s.ids then (s, Ok(s.ids[id]))
    else if |s.players| >= s.maxPlayers then (s, Err(TooManyPlayers(s.maxPlayers)))
    else
      var index := |s.players|;
      (s.(players := s.players + [Placement(s, position)],
          ids := s.ids[id := index],
          info := if info.Some? then s.info[id := info.value] else s.info),
       Ok(index))
  }

  function RemoveAt(players: seq<Position>, index: int): seq<Position> {
    if 0 <= index < |players| then players[..index] + players[index + 1..] else players
  }

  /** Every index above the removed one moves down by one. */
  function Remap(ids: map<string, nat>, removed: nat): map<string, nat> {
    map id | id in ids :: if ids[id] > removed then ids[id] - 1 else ids[id]
  }

  function RemoveSpec(s: Roster, id: string): (Roster, bool) {
    if id !in s.ids then (s, false)
    else
      var index := s.ids[id];
      (s.(players := RemoveAt(s.players, index), ids := Remap(s.ids - {id}, index), info := s.info - {id}), true)
  }

  function TeleportSpec(s: Roster, id: string, pos: Position): (Roster, bool)
    requires Consistent(s)
  {
    if id !in s.ids || !Available(s, pos) then (s, false)
    else (s.(players := s.players[s.ids[id] := pos]), true)
  }

  function UpdateInfoSpec(s: Roster, id: string, info: ExternalPlayer): (Roster, bool) {
    if id !in s.ids then (s, false) else (s.(info := s.info[id := info]), true)
  }

  function PositionOf(cmd: PlayerCommand): Option<Position> {
    if cmd.data.Some? then cmd.data.value.position else None
  }

  function CommandSpec(s: Roster, cmd: PlayerCommand): (Roster, Result<bool, AddError>)
    requires Consistent(s)
  {
    if cmd.kind == "add" then
      var (t, r) := AddSpec(s, cmd.playerId, None, PositionOf(cmd));
      (t, if r.Ok? then Ok(true) else Err(r.error))
    else if cmd.kind == "remove" then
      var (t, removed) := RemoveSpec(s, cmd.playerId);
      (t, Ok(removed))
    else if cmd.kind == "boost" || cmd.kind == "slow" then
      (s, Ok(cmd.playerId in s.ids))
    else if cmd.kind == "teleport" then
      if PositionOf(cmd).Some? then
        var (t, moved) := TeleportSpec(s, cmd.playerId, PositionOf(cmd).value);
        (t, Ok(moved))
      else (s, Ok(false))
    else (s, Ok(false))
  }

  /** A known id returns its slot and changes nothing; a full roster refuses and changes
      nothing; otherwise exactly one player is appended, the id names that new last slot,
      and every other id keeps its player. */
  lemma AddEffect(s: Roster, id: string, info: Option<ExternalPlayer>, position: Option<Position>)
    requires Consistent(s)
    ensures var (t, r) := AddSpec(s, id, info, position);
      Consistent(t) &&
      (id in s.ids ==> t == s && r.Ok? && r.value < |s.players|) &&
      (id !in s.ids && |s.players| >= s.maxPlayers ==> t == s && r == Err(TooManyPlayers(s.maxPlayers))) &&
      (id !in s.ids && |s.players| < s.maxPlayers ==>
        r == Ok(|s.players|) && t.players == s.players + [Placement(s, position)] &&
        (forall k :: k in s.ids ==> k in t.ids && t.players[t.ids[k]] == s.players[s.ids[k]])) &&
      (r.Ok? ==> id in t.ids && t.ids[id] == r.value && r.value < |t.players|)
  {
    var (t, r) := AddSpec(s, id, info, position);
    if id !in s.ids && |s.players| < s.maxPlayers {
      assert forall k :: k in s.ids ==> t.ids[k] == s.ids[k] < |s.players|;
    }
  }

  /** Removal forgets the id, shortens the roster by one, and every remaining id
      still names the same player, now possibly one slot lower. */
  lemma RemoveEffect(s: Roster, id: string)
    requires Consistent(s)
    ensures var (t, removed) := RemoveSpec(s, id);
      Consistent(t) && (removed <==> id in s.ids) &&
      (!removed ==> t == s) &&
      (removed ==>
        |t.players| == |s.players| - 1 && t.ids.Keys == s.ids.Keys - {id} &&
        forall k :: k in t.ids ==> t.players[t.ids[k]] == s.players[s.ids[k]])
  {
    if id in s.ids {
      var index := s.ids[id];
      var t := RemoveSpec(s, id).0;
      forall k | k in t.ids
        ensures t.ids[k] < |t.players| && t.players[t.ids[k]] == s.players[s.ids[k]]
      {
        assert k != id && s.ids[k] != index;
      }
      forall a, b | a in t.ids && b in t.ids && a != b
        ensures t.ids[a] != t.ids[b]
      {
        assert s.ids[a] != index && s.ids[b] != index && s.ids[a] != s.ids[b];
      }
    }
  }

  /** Adding a fresh id and removing it again restores the roster exactly. */
  lemma RemoveUndoesAdd(s: Roster, id: string, info: Option<ExternalPlayer>, position: Option<Position>)
    requires Consistent(s) && id !in s.ids && |s.players| < s.maxPlayers
    ensures RemoveSpec(AddSpec(s, id, info, position).0, id) == (s, true)
  {
    RemoveUndoesAppend(s, id, info, Placement(s, position));
  }

  /** Removing an id that was just appended, at any cell, restores the roster. */
  lemma RemoveUndoesAppend(s: Roster, id: string, info: Option<ExternalPlayer>, p: Position)
    requires Consistent(s) && id !in s.ids
    ensures var t := s.(players := s.players + [p], ids := s.ids[id := |s.players|],
                        info := if info.Some? then s.info[id := info.value] else s.info);
      RemoveSpec(t, id) == (s, true)
  {
    var t := s.(players := s.players + [p], ids := s.ids[id := |s.players|],
                info := if info.Some? then s.info[id := info.value] else s.info);
    var u := RemoveSpec(t, id).0;
    var n := |s.players|;
    assert t.ids - {id} == s.ids;
    RemapBelow(s.ids, n);
    assert u.players == t.players[..n] == s.players;
    assert id !in s.info;
    assert u.info == s.info;
  }

  /** Renumbering above a slot past every registered one changes nothing. */
  lemma RemapBelow(ids: map<string, nat>, n: nat)
    requires forall k :: k in ids ==> ids[k] < n
    ensures Remap(ids, n) == ids
  {
  }

  /** A teleport succeeds exactly for a known id and an available cell, and then moves
      only that id's player. */
  lemma TeleportEffect(s: Roster, id: string, pos: Position)
    requires Consistent(s)
    ensures var (t, moved) := TeleportSpec(s, id, pos);
      Consistent(t) && (moved <==> id in s.ids && Available(s, pos)) &&
      (!moved ==> t == s) &&
      (moved ==>
        t.ids == s.ids && t.players[t.ids[id]] == pos && |t.players| == |s.players| &&
        forall k :: k in s.ids && k != id ==> t.players[t.ids[k]] == s.players[s.ids[k]])
  {
    var (t, moved) := TeleportSpec(s, id, pos);
    if moved {
      forall k | k in s.ids && k != id
        ensures t.players[t.ids[k]] == s.players[s.ids[k]]
      {
        assert s.ids[k] != s.ids[id];
      }
    }
  }

  lemma UpdateInfoEffect(s: Roster, id: string, info: ExternalPlayer)
    requires Consistent(s)
    ensures var (t, updated) := UpdateInfoSpec(s, id, info);
      Consistent(t) && (updated <==> id in s.ids) && (!updated ==> t == s) &&
      (updated ==> t.info[id] == info && t.players == s.players && t.ids == s.ids)
  {
  }

  /** Unknown command kinds and a teleport without a position answer false and change
      nothing; only an add that hits the capacity limit fails, and then changes nothing. */
  lemma CommandEffect(s: Roster, cmd: PlayerCommand)
    requires Consistent(s)
    ensures var (t, r) := CommandSpec(s, cmd);
      Consistent(t) &&
      (cmd.kind !in {"add", "remove", "boost", "slow", "teleport"} ==> t == s && r == Ok(false)) &&
      (cmd.kind == "teleport" && PositionOf(cmd).None? ==> t == s && r == Ok(false)) &&
      (r.Err? <==> cmd.kind == "add" && cmd.playerId !in s.ids && |s.players| >= s.maxPlayers) &&
      (r.Err? ==> t == s) &&
      (cmd.kind == "add" && r.Ok? ==> r.value)
  {
    if cmd.kind == "add" {
      AddEffect(s, cmd.playerId, None, PositionOf(cmd));
    } else if cmd.kind == "remove" {
      RemoveEffect(s, cmd.playerId);
    } else if cmd.kind == "teleport" && PositionOf(cmd).Some? {
      TeleportEffect(s, cmd.playerId, PositionOf(cmd).value);
    }
  }

  /** Rebuilds the id map entry by entry, shifting indices above `removed` down by one. */
  method RemapIndices(ids: map<string, nat>, removed: nat) returns (newMap: map<string, nat>)
    ensures newMap == Remap(ids, removed)
  {
    newMap := map[];
    var pending := ids.Keys;
    while pending != {}
      invariant pending <= ids.Keys
      invariant forall id :: id in newMap <==> id in ids && id !in pending
      invariant forall id :: id in newMap ==> newMap[id] == Remap(ids, removed)[id]
      decreases |pending|
    {
      var id :| id in pending;
      var index := ids[id];
      newMap := newMap[id := if index > removed then index - 1 else index];
      pending := pending - {id};
    }
    assert newMap.Keys == Remap(ids, removed).Keys;
  }

  // ---------------------------------------------------------------- the engine

  class ExternalGameEngine {
    var players: seq<Position>
    var ghostPos: Position
    var mapSize: MapSize
    var walls: seq<Position>
    var externalPlayerMap: map<string, nat>
    var playerInfo: map<string, ExternalPlayer>
    var maxPlayers: int

    function Snap(): Roster
      reads this
    {
      Roster(players, ghostPos, mapSize, walls, externalPlayerMap, playerInfo, maxPlayers)
    }

    predicate Valid()
      reads this
    {
      Consistent(Snap())
    }

    /** Any part of the initial state not given falls back to no players, the ghost
        at (10, 6) and the Pac-Man board. */
    constructor(initialPlayers: Option<seq<Position>>, initialGhost: Option<Position>,
                initialMapSize: Option<MapSize>, initialWalls: Option<seq<Position>>)
      ensures Valid()
      ensures players == (if initialPlayers.Some? then initialPlayers.value else [])
      ensures ghostPos == (if initialGhost.Some? then initialGhost.value else DEFAULT_GHOST)
      ensures mapSize == (if initialMapSize.Some? then initialMapSize.value else Maps.PACMAN_SIZE)
      ensures walls == (if initialWalls.Some? then initialWalls.value else Maps.CustomWalls(Maps.PACMAN_PATTERN))
      ensures externalPlayerMap == map[] && playerInfo == map[] && maxPlayers == DEFAULT_MAX_PLAYERS
    {
      var pacmanWalls, pacmanSize := Maps.CreatePacmanMap();
      players := if initialPlayers.Some? then initialPlayers.value else [];
      ghostPos := if initialGhost.Some? then initialGhost.value else DEFAULT_GHOST;
      mapSize := if initialMapSize.Some? then initialMapSize.value else pacmanSize;
      walls := if initialWalls.Some? then initialWalls.value else pacmanWalls;
      externalPlayerMap := map[];
      playerInfo := map[];
      maxPlayers := DEFAULT_MAX_PLAYERS;
    }

    method SetMaxPlayers(n: int)
      requires Valid()
      modifies this
      ensures Valid() && Snap() == old(Snap()).(maxPlayers := n)
    {
      maxPlayers := n;
    }

    method GetMaxPlayers() returns (n: int)
      ensures n == maxPlayers
    {
      n := maxPlayers;
    }

    method AddPlayerAt(position: Position)
      modifies this
      ensures Snap() == old(Snap()).(players := old(players) + [position])
    {
      players := players + [position];
    }

    method AddPlayerToCorner()
      modifies this
      ensures Snap() == old(Snap()).(players := old(players) + [CornerPlacement(old(Snap()))])
    {
      var corners := Corners(mapSize);
      var targetCorner := corners[|players| % 4];
      var bestPosition := FindNearestFree(targetCorner, Board(mapSize, walls, players + [ghostPos]));
      players := players + [bestPosition];
    }

    method AddExternalPlayer(playerId: string, info: Option<ExternalPlayer>, position: Option<Position>)
      returns (r: Result<nat, AddError>)
      requires Valid()
      modifies this
      ensures Valid()
      ensures (Snap(), r) == AddSpec(old(Snap()), playerId, info, position)
    {
      AddEffect(Snap(), playerId, info, position);
      if playerId in externalPlayerMap {
        return Ok(externalPlayerMap[playerId]);
      }
      var currentPlayerCount := |players|;
      if currentPlayerCount >= maxPlayers {
        return Err(TooManyPlayers(maxPlayers));
      }
      var gameIndex := currentPlayerCount;
      if position.Some? {
        if Available(Snap(), position.value) {
          AddPlayerAt(position.value);
        } else {
          AddPlayerToCorner();
        }
      } else {
        AddPlayerToCorner();
      }
      externalPlayerMap := externalPlayerMap[playerId := gameIndex];
      if info.Some? {
        playerInfo := playerInfo[playerId := info.value];
      }
      r := Ok(gameIndex);
    }

    method RemoveExternalPlayer(playerId: string) returns (removed: bool)
      requires Valid()
      modifies this
      ensures Valid()
      ensures (Snap(), removed) == RemoveSpec(old(Snap()), playerId)
    {
      RemoveEffect(Snap(), playerId);
      if playerId !in externalPlayerMap {
        return false;
      }
      var gameIndex := externalPlayerMap[playerId];
      players := RemoveAt(players, gameIndex);
      externalPlayerMap := externalPlayerMap - {playerId};
      playerInfo := playerInfo - {playerId};
      var newMap := RemapIndices(externalPlayerMap, gameIndex);
      externalPlayerMap := newMap;
      removed := true;
    }

    method TeleportPlayer(playerId: string, position: Position) returns (moved: bool)
      requires Valid()
      modifies this
      ensures Valid()
      ensures (Snap(), moved) == TeleportSpec(old(Snap()), playerId, position)
    {
      TeleportEffect(Snap(), playerId, position);
      if playerId !in externalPlayerMap || !Available(Snap(), position) {
        return false;
      }
      players := players[externalPlayerMap[playerId] := position];
      moved := true;
    }

    method UpdatePlayerInfo(playerId: string, info: ExternalPlayer) returns (updated: bool)
      requires Valid()
      modifies this
      ensures Valid()
      ensures (Snap(), updated) == UpdateInfoSpec(old(Snap()), playerId, info)
    {
      if playerId !in externalPlayerMap {
        return false;
      }
      playerInfo := playerInfo[playerId := info];
      updated := true;
    }

    /** Reports whether the id is registered; the speed effect itself is not modelled. */
    method BoostPlayer(playerId: string) returns (boosted: bool)
      ensures boosted <==> playerId in externalPlayerMap
    {
      boosted := playerId in externalPlayerMap;
    }

    method ProcessCommand(cmd: PlayerCommand) returns (r: Result<bool, AddError>)
      requires Valid()
      modifies this
      ensures Valid()
      ensures (Snap(), r) == CommandSpec(old(Snap()), cmd)
    {
      if cmd.kind == "add" {
        var added := AddExternalPlayer(cmd.playerId, None, PositionOf(cmd));
        r := if added.Ok? then Ok(true) else Err(added.error);
      } else if cmd.kind == "remove" {
        var removed := RemoveExternalPlayer(cmd.playerId);
        r := Ok(removed);
      } else if cmd.kind == "boost" || cmd.kind == "slow" {
        var boosted := BoostPlayer(cmd.playerId);
        r := Ok(boosted);
      } else if cmd.kind == "teleport" {
        if cmd.data.Some? && cmd.data.value.position.Some? {
          var moved := TeleportPlayer(cmd.playerId, cmd.data.value.position.value);
          r := Ok(moved);
        } else {
          r := Ok(false);
        }
      } else {
        r := Ok(false);
      }
    }

    /** Back to no players, the ghost at (10, 6) on the Pac-Man board, with no ids;
        the capacity limit is kept. */
    method Reset()
      modifies this
      ensures Valid()
      ensures Snap() == Roster([], DEFAULT_GHOST, Maps.PACMAN_SIZE, Maps.CustomWalls(Maps.PACMAN_PATTERN),
                               map[], map[], old(maxPlayers))
    {
      var pacmanWalls, pacmanSize := Maps.CreatePacmanMap();
      externalPlayerMap := map[];
      playerInfo := map[];
      players := [];
      ghostPos := DEFAULT_GHOST;
      mapSize := pacmanSize;
      walls := pacmanWalls;
    }
  }
}
