/** Wall layouts: the rectangle's border, a layout read from text rows, two
    randomised interiors over a border, and the fixed 20 by 13 Pac-Man board. */
module Maps {
  import opened Types

  /** The top and bottom walls of the first `n` columns, column by column. */
  function TopBottom(n: int, h: int): seq<Position>
    decreases n
  {
    if n <= 0 then [] else TopBottom(n - 1, h) + [Point(n - 1, 0), Point(n - 1, h - 1)]
  }

  /** The left and right walls of rows 1 up to but excluding `n`, row by row. */
  function Sides(n: int, w: int): seq<Position>
    decreases n
  {
    if n <= 1 then [] else Sides(n - 1, w) + [Point(0, n - 1), Point(w - 1, n - 1)]
  }

  function BorderWalls(w: int, h: int): seq<Position> {
    TopBottom(w, h) + Sides(h - 1, w)
  }

  function Max0(n: int): nat {
    if n < 0 then 0 else n
  }

  lemma {:induction false} TopBottomShape(n: int, h: int)
    ensures |TopBottom(n, h)| == 2 * Max0(n)
    ensures forall p :: p in TopBottom(n, h) <==> 0 <= p.x < n && (p.y == 0 || p.y == h - 1)
    decreases n
  {
    if n > 0 {
      TopBottomShape(n - 1, h);
    }
  }

  lemma {:induction false} SidesShape(n: int, w: int)
    ensures |Sides(n, w)| == 2 * Max0(n - 1)
    ensures forall p :: p in Sides(n, w) <==> 1 <= p.y < n && (p.x == 0 || p.x == w - 1)
    decreases n
  {
    if n > 1 {
      SidesShape(n - 1, w);
    }
  }

  /** The border holds exactly the cells of the top and bottom rows and of the two side
      columns between them, all on the rectangle's edge, 2w + 2(h - 2) of them. */
  lemma BorderWallsShape(w: int, h: int)
    ensures forall p :: p in BorderWalls(w, h) <==>
      (0 <= p.x < w && (p.y == 0 || p.y == h - 1)) || (1 <= p.y < h - 1 && (p.x == 0 || p.x == w - 1))
    ensures forall p :: p in BorderWalls(w, h) ==> p.x == 0 || p.x == w - 1 || p.y == 0 || p.y == h - 1
    ensures w >= 1 && h >= 1 ==> forall p :: p in BorderWalls(w, h) ==> 0 <= p.x < w && 0 <= p.y < h
    ensures |BorderWalls(w, h)| == 2 * Max0(w) + 2 * Max0(h - 2)
  {
    TopBottomShape(w, h);
    SidesShape(h - 1, w);
  }

  method CreateBorderWalls(width: int, height: int) returns (walls: seq<Position>)
    ensures walls == BorderWalls(width, height)
  {
    walls := [];
    var x := 0;
    while x < width
      invariant 0 <= x <= Max0(width)
      invariant walls == TopBottom(x, height)
    {
      walls := walls + [Point(x, 0)];
      walls := walls + [Point(x, height - 1)];
      x := x + 1;
    }
    var y := 1;
    while y < height - 1
      invariant 1 <= y <= Max0(height - 2) + 1
      invariant walls == TopBottom(width, height) + Sides(y, width)
    {
      walls := walls + [Point(0, y)];
      walls := walls + [Point(width - 1, y)];
      y := y + 1;
    }
  }

  predicate IsWallChar(c: char) {
    c == '#' || c == '1'
  }

  /** The walls of the first `k` characters of row `y`, left to right. */
  function RowWalls(row: string, y: int, k: nat): seq<Position>
    requires k <= |row|
  {
    if k == 0 then [] else RowWalls(row, y, k - 1) + (if IsWallChar(row[k - 1]) then [Point(k - 1, y)] else [])
  }

  /** The walls of the first `n` rows, row by row. */
  function PatternWalls(pattern: seq<string>, n: nat): seq<Position>
    requires n <= |pattern|
  {
    if n == 0 then [] else PatternWalls(pattern, n - 1) + RowWalls(pattern[n - 1], n - 1, |pattern[n - 1]|)
  }

  function CustomWalls(pattern: seq<string>): seq<Position> {
    PatternWalls(pattern, |pattern|)
  }

  /** Row-major order: an earlier row, or the same row further left. */
  predicate RowMajorBefore(p: Position, q: Position) {
    p.y < q.y || (p.y == q.y && p.x < q.x)
  }

  lemma {:induction false} RowWallsShape(row: string, y: int, k: nat)
    requires k <= |row|
    ensures forall p :: p in RowWalls(row, y, k) <==> p.y == y && 0 <= p.x < k && IsWallChar(row[p.x])
    ensures forall i, j :: 0 <= i < j < |RowWalls(row, y, k)| ==> RowMajorBefore(RowWalls(row, y, k)[i], RowWalls(row, y, k)[j])
  {
    if k > 0 {
      RowWallsShape(row, y, k - 1);
    }
  }

  lemma {:induction false} PatternWallsShape(pattern: seq<string>, n: nat)
    requires n <= |pattern|
    ensures forall p :: p in PatternWalls(pattern, n) <==>
      0 <= p.y < n && 0 <= p.x < |pattern[p.y]| && IsWallChar(pattern[p.y][p.x])
    ensures forall i, j :: 0 <= i < j < |PatternWalls(pattern, n)| ==>
      RowMajorBefore(PatternWalls(pattern, n)[i], PatternWalls(pattern, n)[j])
  {
    if n > 0 {
      PatternWallsShape(pattern, n - 1);
      var row := pattern[n - 1];
      RowWallsShape(row, n - 1, |row|);
      var front := PatternWalls(pattern, n - 1);
      var back := RowWalls(row, n - 1, |row|);
      forall i, j | 0 <= i < j < |front + back|
        ensures RowMajorBefore((front + back)[i], (front + back)[j])
      {
        if j >= |front| && i < |front| {
          assert (front + back)[i] in front;
          assert (front + back)[j] in back;
        }
      }
    }
  }

  /** The cells marked `#` or `1`, exactly, in row-major order without repeats;
      a pattern with no such character gives no walls. */
  lemma CustomWallsShape(pattern: seq<string>)
    ensures forall p :: p in CustomWalls(pattern) <==>
      0 <= p.y < |pattern| && 0 <= p.x < |pattern[p.y]| && IsWallChar(pattern[p.y][p.x])
    ensures forall i, j :: 0 <= i < j < |CustomWalls(pattern)| ==>
      RowMajorBefore(CustomWalls(pattern)[i], CustomWalls(pattern)[j])
    ensures (forall y, x :: 0 <= y < |pattern| && 0 <= x < |pattern[y]| ==> !IsWallChar(pattern[y][x])) ==>
      CustomWalls(pattern) == []
  {
    PatternWallsShape(pattern, |pattern|);
    if CustomWalls(pattern) != [] {
      assert CustomWalls(pattern)[0] in CustomWalls(pattern);
    }
  }

  method CreateCustomWalls(pattern: seq<string>) returns (walls: seq<Position>)
    ensures walls == CustomWalls(pattern)
  {
    walls := [];
    var y := 0;
    while y < |pattern|
      invariant 0 <= y <= |pattern|
      invariant walls == PatternWalls(pattern, y)
    {
      var row := pattern[y];
      var x := 0;
      while x < |row|
        invariant 0 <= x <= |row|
        invariant walls == PatternWalls(pattern, y) + RowWalls(row, y, x)
      {
        if row[x] == '#' || row[x] == '1' {
          walls := walls + [Point(x, y)];
        }
        x := x + 1;
      }
      y := y + 1;
    }
  }

  const MAZE_LINK_THRESHOLD: real := 0.3
  const DEFAULT_DENSITY: real := 0.2

  /** A post of the maze grid: every fourth column and every second row from (2, 2), clear of the border. */
  predicate MazePost(x: int, y: int, w: int, h: int) {
    2 <= x < w - 2 && (x - 2) % 4 == 0 && 2 <= y < h - 2 && (y - 2) % 2 == 0
  }

  /** A cell the maze may add: inside the border, allowing for the links of the last posts. */
  predicate MazeCell(p: Position, w: int, h: int) {
    2 <= p.x <= w - 2 && 2 <= p.y <= h - 2
  }

  /** Border, then grid posts, each joined to the cell on its right and the one below it
      when that link's draw exceeds 0.3. `draws(x, y)` are the two link draws of post (x, y). */
  method CreateMazeWalls(width: int, height: int, draws: (int, int) -> (real, real)) returns (walls: seq<Position>)
    ensures |BorderWalls(width, height)| <= |walls|
    ensures walls[..|BorderWalls(width, height)|] == BorderWalls(width, height)
    ensures forall x, y :: MazePost(x, y, width, height) ==> Point(x, y) in walls
    ensures forall i :: |BorderWalls(width, height)| <= i < |walls| ==> MazeCell(walls[i], width, height)
  {
    walls := CreateBorderWalls(width, height);
    ghost var border := walls;
    var x := 2;
    while x < width - 2
      invariant 2 <= x && (x - 2) % 4 == 0
      invariant |border| <= |walls| && walls[..|border|] == border
      invariant forall px, py :: MazePost(px, py, width, height) && px < x ==> Point(px, py) in walls
      invariant forall i :: |border| <= i < |walls| ==> MazeCell(walls[i], width, height)
    {
      ghost var before := walls;
      walls := AddMazeColumn(walls, x, width, height, draws);
      assert walls[..|border|] == before[..|border|];
      x := x + 4;
    }
  }

  /** The posts of column `x`, top to bottom, each followed by the links its draws allow. */
  method AddMazeColumn(start: seq<Position>, x: int, width: int, height: int, draws: (int, int) -> (real, real))
    returns (walls: seq<Position>)
    requires 2 <= x < width - 2
    ensures |start| <= |walls| && walls[..|start|] == start
    ensures forall py :: MazePost(x, py, width, height) ==> Point(x, py) in walls
    ensures forall i :: |start| <= i < |walls| ==> MazeCell(walls[i], width, height)
  {
    walls := start;
    var y := 2;
    while y < height - 2
      invariant 2 <= y && (y - 2) % 2 == 0
      invariant |start| <= |walls| && walls[..|start|] == start
      invariant forall py :: MazePost(x, py, width, height) && py < y ==> Point(x, py) in walls
      invariant forall i :: |start| <= i < |walls| ==> MazeCell(walls[i], width, height)
    {
      walls := walls + [Point(x, y)];
      var (right, down) := draws(x, y);
      if right > MAZE_LINK_THRESHOLD {
        walls := walls + [Point(x + 1, y)];
      }
      if down > MAZE_LINK_THRESHOLD {
        walls := walls + [Point(x, y + 1)];
      }
      y := y + 2;
    }
  }

  predicate Interior(p: Position, w: int, h: int) {
    1 <= p.x < w - 1 && 1 <= p.y < h - 1
  }

  /** Border, then every interior cell whose draw falls below `density` (0.2 when the caller gives none), column by column. */
  method CreateRandomWalls(width: int, height: int, density: real := DEFAULT_DENSITY, draw: (int, int) -> real) returns (walls: seq<Position>)
    ensures |BorderWalls(width, height)| <= |walls|
    ensures walls[..|BorderWalls(width, height)|] == BorderWalls(width, height)
    ensures forall i :: |BorderWalls(width, height)| <= i < |walls| ==>
      Interior(walls[i], width, height) && draw(walls[i].x, walls[i].y) < density
    ensures forall p :: Interior(p, width, height) && draw(p.x, p.y) < density ==> p in walls
  {
    walls := CreateBorderWalls(width, height);
    ghost var border := walls;
    var x := 1;
    while x < width - 1
      invariant 1 <= x
      invariant |border| <= |walls| && walls[..|border|] == border
      invariant forall i :: |border| <= i < |walls| ==> Interior(walls[i], width, height) && draw(walls[i].x, walls[i].y) < density
      invariant forall p :: Interior(p, width, height) && draw(p.x, p.y) < density && p.x < x ==> p in walls
    {
      var y := 1;
      while y < height - 1
        invariant 1 <= y
        invariant |border| <= |walls| && walls[..|border|] == border
        invariant forall i :: |border| <= i < |walls| ==> Interior(walls[i], width, height) && draw(walls[i].x, walls[i].y) < density
        invariant forall p :: Interior(p, width, height) && draw(p.x, p.y) < density && (p.x < x || (p.x == x && p.y < y)) ==> p in walls
      {
        if draw(x, y) < density {
          walls := walls + [Point(x, y)];
        }
        y := y + 1;
      }
      x := x + 1;
    }
  }

  const PACMAN_SIZE: MapSize := MapSize(20, 13)

  /** The four kinds of row of the Pac-Man board; the block row `PACMAN_BLOCKS_A` is one
      character shorter than the others. */
  const PACMAN_EDGE: string := "####################"
  const PACMAN_LANE: string := "#..................#"
  const PACMAN_BLOCKS_A: string := "#.##.#######.####.#"
  const PACMAN_BLOCKS_B: string := "#.####.##.####.###.#"

  const PACMAN_PATTERN: seq<string> := [
    PACMAN_EDGE,
    PACMAN_LANE, PACMAN_BLOCKS_A, PACMAN_LANE, PACMAN_BLOCKS_B,
    PACMAN_LANE, PACMAN_BLOCKS_A, PACMAN_LANE, PACMAN_BLOCKS_B,
    PACMAN_LANE, PACMAN_BLOCKS_A, PACMAN_LANE,
    PACMAN_EDGE
  ]

  method CreatePacmanMap() returns (walls: seq<Position>, mapSize: MapSize)
    ensures walls == CustomWalls(PACMAN_PATTERN) && mapSize == PACMAN_SIZE
  {
    walls := CreateCustomWalls(PACMAN_PATTERN);
    mapSize := PACMAN_SIZE;
  }

  /** Every wall of the Pac-Man board lies inside its 20 by 13 rectangle. */
  lemma PacmanWallsInBounds()
    ensures forall p :: p in CustomWalls(PACMAN_PATTERN) ==> 0 <= p.x < PACMAN_SIZE.width && 0 <= p.y < PACMAN_SIZE.height
  {
    PacmanRowLengths();
    WallsWithinPattern(PACMAN_PATTERN, 20);
  }

  /** Rows 2, 6 and 10 of the board are a character short, so the right-hand border
      has gaps there, while the rows around them close it. */
  lemma PacmanRightBorderGaps()
    ensures Point(19, 2) !in CustomWalls(PACMAN_PATTERN)
    ensures Point(19, 6) !in CustomWalls(PACMAN_PATTERN)
    ensures Point(19, 10) !in CustomWalls(PACMAN_PATTERN)
  {
    PacmanRowLengths();
    ShortRowHasNoWallBeyond(PACMAN_PATTERN, 2, 19);
    ShortRowHasNoWallBeyond(PACMAN_PATTERN, 6, 19);
    ShortRowHasNoWallBeyond(PACMAN_PATTERN, 10, 19);
  }

  lemma PacmanRightBorderAroundGap()
    ensures Point(19, 1) in CustomWalls(PACMAN_PATTERN)
  {
    PacmanRowLengths();
    assert PACMAN_PATTERN[1] == PACMAN_LANE && PACMAN_LANE[19] == '#';
    WallCharIsWall(PACMAN_PATTERN, 1, 19);
  }

  lemma WallsWithinPattern(pattern: seq<string>, w: int)
    requires forall y :: 0 <= y < |pattern| ==> |pattern[y]| <= w
    ensures forall p :: p in CustomWalls(pattern) ==> 0 <= p.x < w && 0 <= p.y < |pattern|
  {
    CustomWallsShape(pattern);
  }

  lemma ShortRowHasNoWallBeyond(pattern: seq<string>, y: int, x: int)
    requires 0 <= y < |pattern| && |pattern[y]| <= x
    ensures Point(x, y) !in CustomWalls(pattern)
  {
    CustomWallsShape(pattern);
  }

  lemma WallCharIsWall(pattern: seq<string>, y: int, x: int)
    requires 0 <= y < |pattern| && 0 <= x < |pattern[y]| && IsWallChar(pattern[y][x])
    ensures Point(x, y) in CustomWalls(pattern)
  {
    CustomWallsShape(pattern);
  }

  lemma PacmanRowLengths()
    ensures |PACMAN_PATTERN| == 13
    ensures forall y :: 0 <= y < 13 ==> |PACMAN_PATTERN[y]| <= 20
    ensures |PACMAN_PATTERN[2]| == |PACMAN_PATTERN[6]| == |PACMAN_PATTERN[10]| == 19
  {
    var rows := PACMAN_PATTERN;
    assert |rows[0]| == 20 && |rows[1]| == 20 && |rows[2]| == 19 && |rows[3]| == 20;
    assert |rows[4]| == 20 && |rows[5]| == 20 && |rows[6]| == 19 && |rows[7]| == 20;
    assert |rows[8]| == 20 && |rows[9]| == 20 && |rows[10]| == 19 && |rows[11]| == 20;
    assert |rows[12]| == 20;
  }
}
