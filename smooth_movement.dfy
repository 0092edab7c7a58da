/** Cell-to-cell movement with an eased visual position: the logical cell jumps at
    the start of a move while the drawn position follows it over `moveSpeed` time units. */
module Smooth {
  import opened Wrappers
  import opened Types

  datatype MovementState = Idle | Moving

  /** A move in flight, from one cell to the next. */
  datatype Move = Move(from: Position, to: Position, startTime: real, duration: real, progress: real)

  /** A drawn position; between cells its coordinates are fractional. */
  datatype VisualPos = VisualPos(x: real, y: real)

  /** Every field of a `SmoothMovement`, as one value. */
  datatype Snapshot = Snapshot(logical: Position, visual: VisualPos, currentMove: Option<Move>,
                               nextDirection: Option<Direction>, state: MovementState, moveSpeed: real)

  const DEFAULT_MOVE_SPEED: real := 200.0

  function ToVisual(p: Position): VisualPos {
    VisualPos(p.x as real, p.y as real)
  }

  /** The point a fraction `t` of the way from cell `a` to cell `b`. */
  function Lerp(a: Position, b: Position, t: real): VisualPos {
    VisualPos(a.x as real + (b.x - a.x) as real * t, a.y as real + (b.y - a.y) as real * t)
  }

  /** Quadratic ease-in-out. */
  function Ease(t: real): real {
    if t < 0.5 then 2.0 * t * t else -1.0 + (4.0 - 2.0 * t) * t
  }

  lemma SquareMonotone(x: real, y: real)
    requires 0.0 <= x <= y
    ensures x * x <= y * y
  {
    assert x * x <= x * y;
    assert x * y <= y * y;
  }

  lemma EaseUpperBranch(t: real)
    ensures -1.0 + (4.0 - 2.0 * t) * t == 1.0 - 2.0 * (1.0 - t) * (1.0 - t)
  {
  }

  /** The easing fixes 0, one half and 1, maps [0, 1] into itself, never goes back,
      and is symmetric about the half-way point. */
  lemma EaseShape(a: real, b: real)
    requires 0.0 <= a <= b <= 1.0
    ensures Ease(0.0) == 0.0 && Ease(0.5) == 0.5 && Ease(1.0) == 1.0
    ensures 0.0 <= Ease(a) <= Ease(b) <= 1.0
    ensures Ease(1.0 - a) == 1.0 - Ease(a)
  {
    EaseUpperBranch(a);
    EaseUpperBranch(b);
    EaseUpperBranch(1.0 - a);
    if b < 0.5 {
      SquareMonotone(0.0, a);
      SquareMonotone(a, b);
      SquareMonotone(b, 0.5);
    } else if a >= 0.5 {
      SquareMonotone(0.0, 1.0 - b);
      SquareMonotone(1.0 - b, 1.0 - a);
      SquareMonotone(1.0 - a, 0.5);
    } else {
      SquareMonotone(0.0, a);
      SquareMonotone(0.0, 1.0 - b);
      SquareMonotone(a, 0.5);
      SquareMonotone(1.0 - b, 0.5);
    }
  }

  function Min(a: real, b: real): real {
    if a < b then a else b
  }

  /** A new move may start when idle, or once the move in flight is more than half done. */
  predicate CanMove(s: Snapshot) {
    s.state == Idle || (s.currentMove.Some? && s.currentMove.value.progress > 0.5)
  }

  /** The effect of `startMove`: whether it started, and the new fields. */
  function StartSpec(s: Snapshot, dir: Direction, time: real): (bool, Snapshot) {
    if !CanMove(s) then (false, s)
    else
      var target := Add(s.logical, dir);
      (true, s.(currentMove := Some(Move(s.logical, target, time, s.moveSpeed, 0.0)), logical := target, state := Moving))
  }

  /** Whether every division `update` makes is defined. */
  predicate Divisible(s: Snapshot) {
    s.moveSpeed != 0.0 && (s.currentMove.Some? ==> s.currentMove.value.duration != 0.0)
  }

  /** The effect of `update` at `time`: whether a move completed, and the new fields. */
  function UpdateSpec(s: Snapshot, time: real): (bool, Snapshot)
    requires Divisible(s)
  {
    if s.currentMove.None? || s.state == Idle then (false, s)
    else
      var m := s.currentMove.value;
      var p := Min((time - m.startTime) / m.duration, 1.0);
      if p >= 1.0 then
        var done := s.(visual := ToVisual(m.to), currentMove := None, state := Idle);
        if s.nextDirection.Some? then (true, StartSpec(done.(nextDirection := None), s.nextDirection.value, time).1)
        else (true, done)
      else (false, s.(currentMove := Some(m.(progress := p)), visual := Lerp(m.from, m.to, Ease(p))))
  }

  /** The effect of `forceStop`. */
  function ForceStopSpec(s: Snapshot): Snapshot {
    var snapped := if s.currentMove.Some? then s.(visual := ToVisual(s.logical), currentMove := None) else s;
    snapped.(state := Idle, nextDirection := None)
  }

  /** The relations every operation keeps: a move is in flight exactly while moving,
      it ends at the logical cell, and no duration is zero. */
  predicate Consistent(s: Snapshot) {
    Divisible(s)
    && (s.state == Moving <==> s.currentMove.Some?)
    && (s.currentMove.Some? ==> s.currentMove.value.to == s.logical)
  }

  /** `startMove` is refused exactly when a move may not start, and a refusal changes
      nothing; otherwise the logical cell jumps at once and the visual one stays. */
  lemma StartMoveEffect(s: Snapshot, dir: Direction, time: real)
    ensures StartSpec(s, dir, time).0 <==> CanMove(s)
    ensures !CanMove(s) ==> StartSpec(s, dir, time).1 == s
    ensures CanMove(s) ==> var n := StartSpec(s, dir, time).1;
      n.logical == Add(s.logical, dir) && n.state == Moving && n.visual == s.visual &&
      n.currentMove == Some(Move(s.logical, n.logical, time, s.moveSpeed, 0.0)) &&
      n.nextDirection == s.nextDirection && n.moveSpeed == s.moveSpeed
  {
  }

  /** Every operation keeps the snapshot consistent. */
  lemma OperationsKeepConsistent(s: Snapshot, dir: Direction, time: real)
    requires Consistent(s)
    ensures Consistent(StartSpec(s, dir, time).1)
    ensures Consistent(UpdateSpec(s, time).1)
    ensures Consistent(ForceStopSpec(s))
    ensures Consistent(s.(nextDirection := Some(dir)))
    ensures time != 0.0 ==> Consistent(s.(moveSpeed := time))
  {
  }

  /** `update` while idle or without a move changes nothing and reports no completion. */
  lemma UpdateWhileIdle(s: Snapshot, time: real)
    requires Divisible(s)
    requires s.state == Idle || s.currentMove.None?
    ensures UpdateSpec(s, time) == (false, s)
  {
  }

  /** Before the move completes, `update` records the elapsed fraction and draws the
      eased point between its cells; the logical cell and the queue are left alone. */
  lemma UpdateInFlight(s: Snapshot, time: real)
    requires Divisible(s) && s.state == Moving && s.currentMove.Some?
    requires (time - s.currentMove.value.startTime) / s.currentMove.value.duration < 1.0
    ensures var m := s.currentMove.value; var p := (time - m.startTime) / m.duration;
      var (finished, n) := UpdateSpec(s, time);
      !finished && n.currentMove == Some(m.(progress := p)) && n.visual == Lerp(m.from, m.to, Ease(p)) &&
      n.logical == s.logical && n.state == Moving && n.nextDirection == s.nextDirection
  {
  }

  /** Once the elapsed fraction reaches 1, `update` reports completion with the visual
      position exactly on the target cell and the move cleared, unless a queued
      direction starts the next move from that cell at the same time. */
  lemma UpdateCompletes(s: Snapshot, time: real)
    requires Consistent(s) && s.state == Moving
    requires (time - s.currentMove.value.startTime) / s.currentMove.value.duration >= 1.0
    ensures var (finished, n) := UpdateSpec(s, time);
      finished && n.visual == ToVisual(s.logical) && n.nextDirection == None &&
      (s.nextDirection.None? ==> n.state == Idle && n.currentMove == None && n.logical == s.logical) &&
      (s.nextDirection.Some? ==>
         n.state == Moving && n.logical == Add(s.logical, s.nextDirection.value) &&
         n.currentMove == Some(Move(s.logical, n.logical, time, s.moveSpeed, 0.0)))
  {
  }

  /** A second `update` at the same time leaves the visual position where the first put it. */
  lemma UpdateIdempotentOnVisual(s: Snapshot, time: real)
    requires Consistent(s)
    ensures Consistent(UpdateSpec(s, time).1)
    ensures UpdateSpec(UpdateSpec(s, time).1, time).1.visual == UpdateSpec(s, time).1.visual
  {
    OperationsKeepConsistent(s, STAY, time);
    var n := UpdateSpec(s, time).1;
    if n.state == Moving {
      var m := n.currentMove.value;
      if s.state == Moving && s.currentMove.value.startTime == m.startTime && m.from == s.currentMove.value.from {
        assert m.duration == s.currentMove.value.duration;
      } else {
        assert m.startTime == time;
        assert (time - m.startTime) / m.duration == 0.0;
        assert Ease(0.0) == 0.0;
        assert Lerp(m.from, m.to, 0.0) == ToVisual(m.from);
      }
    }
  }

  /** `forceStop` never moves the logical cell; it snaps a move in flight to it and leaves
      the tracker idle with nothing queued, so a new move may start at once. */
  lemma ForceStopEffect(s: Snapshot)
    ensures var n := ForceStopSpec(s);
      n.logical == s.logical && n.state == Idle && n.nextDirection == None && n.currentMove == None &&
      CanMove(n) && (s.currentMove.Some? ==> n.visual == ToVisual(s.logical)) &&
      (s.currentMove.None? ==> n.visual == s.visual)
  {
  }

  class SmoothMovement {
    var logicalPos: Position
    var visualPos: VisualPos
    var currentMove: Option<Move>
    var nextDirection: Option<Direction>
    var state: MovementState
    var moveSpeed: real

    function Snap(): Snapshot
      reads this
    {
      Snapshot(logicalPos, visualPos, currentMove, nextDirection, state, moveSpeed)
    }

    ghost predicate Valid()
      reads this
    {
      Consistent(Snap())
    }

    constructor(initialPos: Position)
      ensures Valid()
      ensures Snap() == Snapshot(initialPos, ToVisual(initialPos), None, None, Idle, DEFAULT_MOVE_SPEED)
    {
      logicalPos := initialPos;
      visualPos := ToVisual(initialPos);
      currentMove := None;
      nextDirection := None;
      state := Idle;
      moveSpeed := DEFAULT_MOVE_SPEED;
    }

    predicate CanMoveNow()
      reads this
      ensures CanMoveNow() <==> CanMove(Snap())
    {
      state == Idle || (currentMove.Some? && currentMove.value.progress > 0.5)
    }

    method QueueDirection(direction: Direction)
      requires Valid()
      modifies this
      ensures Valid()
      ensures Snap() == old(Snap()).(nextDirection := Some(direction))
    {
      nextDirection := Some(direction);
    }

    method StartMove(direction: Direction, currentTime: real) returns (started: bool)
      requires Valid()
      modifies this
      ensures Valid()
      ensures (started, Snap()) == StartSpec(old(Snap()), direction, currentTime)
    {
      if !CanMoveNow() {
        return false;
      }
      var targetPos := Add(logicalPos, direction);
      currentMove := Some(Move(logicalPos, targetPos, currentTime, moveSpeed, 0.0));
      logicalPos := targetPos;
      state := Moving;
      return true;
    }

    method Update(currentTime: real) returns (finished: bool)
      requires Valid()
      modifies this
      ensures Valid()
      ensures (finished, Snap()) == UpdateSpec(old(Snap()), currentTime)
    {
      if currentMove.None? || state == Idle {
        return false;
      }
      var m := currentMove.value;
      var elapsed := currentTime - m.startTime;
      var progress := Min(elapsed / m.duration, 1.0);
      currentMove := Some(m.(progress := progress));
      var t := Ease(progress);
      visualPos := Lerp(m.from, m.to, t);
      if progress >= 1.0 {
        visualPos := ToVisual(m.to);
        currentMove := None;
        state := Idle;
        if nextDirection.Some? {
          var nextDir := nextDirection.value;
          nextDirection := None;
          var _ := StartMove(nextDir, currentTime);
        }
        return true;
      }
      return false;
    }

    method SetSpeed(speed: real)
      requires Valid()
      requires speed != 0.0
      modifies this
      ensures Valid()
      ensures Snap() == old(Snap()).(moveSpeed := speed)
    {
      moveSpeed := speed;
    }

    method ForceStop()
      requires Valid()
      modifies this
      ensures Valid()
      ensures Snap() == ForceStopSpec(old(Snap()))
    {
      if currentMove.Some? {
        visualPos := ToVisual(logicalPos);
        currentMove := None;
      }
      state := Idle;
      nextDirection := None;
    }
  }
}
