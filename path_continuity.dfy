/** A counter of consecutive moves in one direction and the capped bonus derived from it. */
module Continuity {
  import opened Wrappers
  import opened Types
  import opened Utils

  const MAX_BONUS: nat := 10

  /** Bonus for a streak of `n` moves: two per move, capped at ten. */
  function Bonus(n: nat): (b: nat)
    ensures b <= MAX_BONUS
    ensures n <= 5 ==> b == 2 * n
    ensures n >= 5 ==> b == MAX_BONUS
  {
    if n * 2 < MAX_BONUS then n * 2 else MAX_BONUS
  }

  /** The tracker's state after one more move `dir`. */
  function Track(count: nat, current: Option<Direction>, dir: Direction): (s: (nat, Option<Direction>))
    ensures s.0 >= 1 && s.1 == Some(dir)
    ensures current == Some(dir) ==> s.0 == count + 1
    ensures current != Some(dir) ==> s.0 == 1
  {
    if current.Some? && IsSameDirection(dir, current.value) then (count + 1, current)
    else (1, Some(dir))
  }

  /** The tracker's state after `k` further moves, all in direction `dir`. */
  function Repeat(count: nat, current: Option<Direction>, dir: Direction, k: nat): (nat, Option<Direction>)
    decreases k
  {
    if k == 0 then (count, current)
    else
      var s := Repeat(count, current, dir, k - 1);
      Track(s.0, s.1, dir)
  }

  /** After `k >= 1` moves in one direction the streak is `k`, or `count + k` when it continues a streak in that direction. */
  lemma {:induction false} RepeatCounts(count: nat, current: Option<Direction>, dir: Direction, k: nat)
    requires k >= 1
    ensures Repeat(count, current, dir, k).1 == Some(dir)
    ensures Repeat(count, current, dir, k).0 == (if current == Some(dir) then count + k else k)
    decreases k
  {
    if k > 1 {
      RepeatCounts(count, current, dir, k - 1);
    }
  }

  /** Over consecutive moves in one direction the bonus never decreases, and it
      reaches its cap after five of them. */
  lemma BonusGrowsThenSaturates(count: nat, current: Option<Direction>, dir: Direction, i: nat, j: nat)
    requires 1 <= i <= j
    ensures Bonus(Repeat(count, current, dir, i).0) <= Bonus(Repeat(count, current, dir, j).0)
    ensures j >= 5 ==> Bonus(Repeat(count, current, dir, j).0) == MAX_BONUS
  {
    RepeatCounts(count, current, dir, i);
    RepeatCounts(count, current, dir, j);
  }

  class PathContinuity {
    var consecutiveMoves: nat
    var currentDirection: Option<Direction>

    constructor()
      ensures consecutiveMoves == 0 && currentDirection == None
    {
      consecutiveMoves := 0;
      currentDirection := None;
    }

    method UpdateDirection(dir: Direction)
      modifies this
      ensures (consecutiveMoves, currentDirection) == Track(old(consecutiveMoves), old(currentDirection), dir)
      ensures consecutiveMoves >= 1
    {
      if currentDirection.Some? && IsSameDirection(dir, currentDirection.value) {
        consecutiveMoves := consecutiveMoves + 1;
      } else {
        consecutiveMoves := 1;
        currentDirection := Some(dir);
      }
    }

    function ContinuityBonus(): (b: nat)
      reads this
      ensures b <= MAX_BONUS
      ensures b == Bonus(consecutiveMoves)
    {
      Bonus(consecutiveMoves)
    }

    method Reset()
      modifies this
      ensures consecutiveMoves == 0 && currentDirection == None
    {
      consecutiveMoves := 0;
      currentDirection := None;
    }
  }
}
