/** The movement base shared by players and the ghost: a bounded history of
    visited cells, the weight of each candidate direction given the previous
    move, and a cumulative-weight draw over those candidates. */
module Movement {
  import opened Wrappers
  import opened Types
  import opened Utils

  const DEFAULT_MAX_HISTORY: nat := 4
  const STRAIGHT_BONUS: real := 3.0
  const REVERSE_WEIGHT: real := 0.1

  /** Direction weights in insertion order, the order in which the game's
      `Map<Direction, number>` is iterated. */
  type Weights = seq<(Direction, real)>

  function Keys(ws: Weights): (ks: seq<Direction>)
    ensures |ks| == |ws| && forall i :: 0 <= i < |ws| ==> ks[i] == ws[i].0
  {
    seq(|ws|, i requires 0 <= i < |ws| => ws[i].0)
  }

  predicate AllPositive(ws: Weights) {
    forall i :: 0 <= i < |ws| ==> ws[i].1 > 0.0
  }

  /** JavaScript's `w || 1` on a weight: a zero weight reads as one. */
  function OrOne(w: real): (v: real)
    ensures w != 0.0 ==> v == w
    ensures w == 0.0 ==> v == 1.0
  {
    if w == 0.0 then 1.0 else w
  }

  /** Append `p` as the newest entry and drop the oldest one when the list has grown past `cap`. */
  function PushBounded(h: seq<Position>, p: Position, cap: int): seq<Position>
  {
    var grown := h + [p];
    if |grown| > cap then grown[1..] else grown
  }

  lemma PushBoundedKeepsNewest(h: seq<Position>, p: Position, cap: nat)
    requires |h| <= cap
    ensures |PushBounded(h, p, cap)| == (if |h| < cap then |h| + 1 else cap)
    ensures PushBounded(h, p, cap) == (h + [p])[|h| + 1 - |PushBounded(h, p, cap)|..]
    ensures cap > 0 ==> PushBounded(h, p, cap)[|PushBounded(h, p, cap)| - 1] == p
  {
  }

  /** Weight of one candidate: 1, or 4 for going straight on, or 0.1 for turning back. */
  function WeightOf(d: Direction, last: Option<Direction>): (w: real)
    ensures w > 0.0
    ensures last.None? ==> w == 1.0
    ensures last.Some? && d == OppositeDirection(last.value) ==> w == 0.1
    ensures last.Some? && d == last.value && d != OppositeDirection(last.value) ==> w == 4.0
    ensures last.Some? && d != last.value && d != OppositeDirection(last.value) ==> w == 1.0
  {
    var w := if last.Some? && IsSameDirection(d, last.value) then 1.0 + STRAIGHT_BONUS else 1.0;
    if last.Some? && IsSameDirection(d, OppositeDirection(last.value)) then REVERSE_WEIGHT else w
  }

  /** One entry per candidate, in candidate order. */
  function DirectionWeights(valid: seq<Direction>, last: Option<Direction>): (ws: Weights)
    ensures Keys(ws) == valid
    ensures AllPositive(ws)
    ensures last.None? ==> forall i :: 0 <= i < |ws| ==> ws[i].1 == 1.0
  {
    seq(|valid|, i requires 0 <= i < |valid| => (valid[i], WeightOf(valid[i], last)))
  }

  /** One `forEach` pass that rewrites each weight from its position, its
      direction and its current value, leaving the keys and their order alone. */
  function Adjust(ws: Weights, f: (nat, Direction, real) -> real): (r: Weights)
    ensures Keys(r) == Keys(ws)
    ensures forall i :: 0 <= i < |ws| ==> r[i].1 == f(i, ws[i].0, ws[i].1)
  {
    seq(|ws|, i requires 0 <= i < |ws| => (ws[i].0, f(i, ws[i].0, ws[i].1)))
  }

  method AdjustWeights(ws: Weights, f: (nat, Direction, real) -> real) returns (r: Weights)
    ensures r == Adjust(ws, f)
  {
    r := ws;
    var i := 0;
    while i < |ws|
      invariant 0 <= i <= |ws| && |r| == |ws|
      invariant forall j :: 0 <= j < i ==> r[j] == (ws[j].0, f(j, ws[j].0, ws[j].1))
      invariant forall j :: i <= j < |ws| ==> r[j] == ws[j]
    {
      r := r[i := (r[i].0, f(i, r[i].0, r[i].1))];
      i := i + 1;
    }
  }

  /** Sum of the weights, accumulated left to right like the source's `reduce`. */
  function Total(ws: Weights): real
  {
    if ws == [] then 0.0 else Total(ws[..|ws| - 1]) + ws[|ws| - 1].1
  }

  /** Sum of the weights up to and including entry `j`. */
  function RunningSum(ws: Weights, j: nat): real
    requires j < |ws|
  {
    Total(ws[..j + 1])
  }

  lemma RunningSumStep(ws: Weights, j: nat)
    requires j < |ws|
    ensures RunningSum(ws, j) == Total(ws[..j]) + ws[j].1
  {
    assert ws[..j + 1][..j] == ws[..j];
  }

  /** The first index, at or after `i`, where the running threshold
      `t - (w0 + ... + wk)` is no longer positive; `None` when it never is. */
  function ScanFrom(ws: Weights, t: real, i: nat): (k: Option<nat>)
    requires i <= |ws|
    ensures k.Some? ==> i <= k.value < |ws| && t - RunningSum(ws, k.value) <= 0.0
    ensures k.Some? ==> forall j :: i <= j < k.value ==> t - RunningSum(ws, j) > 0.0
    ensures k.None? ==> forall j :: i <= j < |ws| ==> t - RunningSum(ws, j) > 0.0
    decreases |ws| - i
  {
    if i == |ws| then None
    else if t - RunningSum(ws, i) <= 0.0 then Some(i)
    else ScanFrom(ws, t, i + 1)
  }

  /** The point `r * total` that a draw `r` marks on the cumulative weights. */
  function Scale(r: real, total: real): real {
    r * total
  }

  /** The entry a draw `r` selects: the first one at which the running sum
      reaches `r * Total(ws)`, or the first entry when none does. */
  function SelectIndex(ws: Weights, r: real): (k: nat)
    requires |ws| > 0
    ensures k < |ws|
  {
    match ScanFrom(ws, Scale(r, Total(ws)), 0)
    case Some(k) => k
    case None => 0
  }

  method SelectWeightedDirection(ws: Weights, r: real) returns (d: Direction)
    requires |ws| > 0
    ensures d == ws[SelectIndex(ws, r)].0
  {
    var total := Total(ws);
    var random := r * total;
    ghost var t := Scale(r, Total(ws));
    var i := 0;
    while i < |ws|
      invariant 0 <= i <= |ws|
      invariant random == t - Total(ws[..i])
      invariant ScanFrom(ws, t, 0) == ScanFrom(ws, t, i)
    {
      RunningSumStep(ws, i);
      random := random - ws[i].1;
      if random <= 0.0 {
        return ws[i].0;
      }
      i := i + 1;
    }
    return ws[0].0;
  }

  lemma {:induction false} TotalPrefixMonotone(ws: Weights, i: nat, j: nat)
    requires AllPositive(ws) && i <= j <= |ws|
    ensures Total(ws[..i]) <= Total(ws[..j])
    ensures i < j ==> Total(ws[..i]) < Total(ws[..j])
    decreases j - i
  {
    if i < j {
      TotalPrefixMonotone(ws, i, j - 1);
      assert ws[..j][..j - 1] == ws[..j - 1];
    }
  }

  lemma TotalPositive(ws: Weights)
    requires AllPositive(ws) && |ws| > 0
    ensures Total(ws) > 0.0
  {
    TotalPrefixMonotone(ws, 0, |ws|);
    assert ws[..|ws|] == ws;
  }

  lemma ScaleBelow(r: real, total: real)
    requires 0.0 <= r < 1.0 && total > 0.0
    ensures 0.0 <= Scale(r, total) < total
  {
  }

  lemma DivBelow(t: real, total: real)
    requires 0.0 <= t < total
    ensures 0.0 <= t / total < 1.0 && Scale(t / total, total) == t
  {
  }

  /** With positive weights and a draw in [0, 1) the scan always lands, so the
      selected entry is the first one whose running sum reaches the threshold. */
  lemma SelectIndexIsFirstReaching(ws: Weights, r: real)
    requires |ws| > 0 && AllPositive(ws) && 0.0 <= r < 1.0
    ensures ScanFrom(ws, Scale(r, Total(ws)), 0).Some?
    ensures Scale(r, Total(ws)) <= RunningSum(ws, SelectIndex(ws, r))
    ensures forall j :: 0 <= j < SelectIndex(ws, r) ==> RunningSum(ws, j) < Scale(r, Total(ws))
  {
    TotalPositive(ws);
    ScanLandsBelowTotal(ws, r, Total(ws));
  }

  lemma ScanLandsBelowTotal(ws: Weights, r: real, total: real)
    requires |ws| > 0 && 0.0 <= r < 1.0 && total > 0.0 && total == Total(ws)
    ensures ScanFrom(ws, Scale(r, total), 0).Some?
  {
    ScaleBelow(r, total);
    assert ws[..|ws|] == ws;
    assert Scale(r, total) - RunningSum(ws, |ws| - 1) < 0.0;
  }

  /** A zero draw picks the first entry whenever that entry's weight is not negative. */
  lemma ZeroDrawSelectsFirst(ws: Weights)
    requires |ws| > 0 && ws[0].1 >= 0.0
    ensures SelectIndex(ws, 0.0) == 0
  {
    RunningSumStep(ws, 0);
    assert ws[..0] == [];
  }

  /** Every entry of positive weight is reachable: some draw in [0, 1) selects it. */
  lemma EveryEntrySelectable(ws: Weights, k: nat)
    requires AllPositive(ws) && k < |ws|
    ensures exists r: real :: 0.0 <= r < 1.0 && SelectIndex(ws, r) == k
  {
    TotalPositive(ws);
    var total := Total(ws);
    var t := Total(ws[..k]) + ws[k].1 / 2.0;
    RunningSumStep(ws, k);
    TotalPrefixMonotone(ws, k + 1, |ws|);
    assert ws[..|ws|] == ws;
    TotalPrefixMonotone(ws, 0, k);
    assert ws[..0] == [];
    assert 0.0 <= t < total;
    var r := t / total;
    DivBelow(t, total);
    forall j | 0 <= j < k
      ensures t - RunningSum(ws, j) > 0.0
    {
      TotalPrefixMonotone(ws, j + 1, k);
    }
    var s := ScanFrom(ws, t, 0);
    assert s.Some? && s.value == k;
    assert SelectIndex(ws, r) == k;
  }

  /** `Math.floor(r * n)` for a draw `r` in [0, 1). */
  function RandomIndex(n: nat, r: real): (k: nat)
    requires n > 0 && 0.0 <= r < 1.0
    ensures k < n
  {
    FloorBelow(n, r);
    (r * n as real).Floor
  }

  lemma FloorBelow(n: nat, r: real)
    requires n > 0 && 0.0 <= r < 1.0
    ensures 0 <= (r * n as real).Floor < n
  {
    var m := n as real;
    assert 0.0 <= r * m;
    assert r * m < m;
  }

  lemma RandomIndexHits(n: nat, k: nat)
    requires k < n
    ensures var q := (k as real + 0.5) / n as real; 0.0 <= q < 1.0 && RandomIndex(n, q) == k
  {
    var m := n as real;
    var t := k as real + 0.5;
    DivBelow(t, m);
    var q := t / m;
    assert q * m == Scale(q, m) == t;
    assert (q * m).Floor == k;
  }

  class MovementEngine {
    var history: MovementHistory
    var lastDirection: Option<Direction>

    ghost predicate Valid()
      reads this
    {
      |history.positions| <= history.maxHistory
    }

    constructor(maxHistory: nat)
      ensures Valid()
      ensures history == MovementHistory([], maxHistory) && lastDirection == None
    {
      history := MovementHistory([], maxHistory);
      lastDirection := None;
    }

    method UpdateHistory(pos: Position)
      requires Valid()
      modifies this
      ensures Valid()
      ensures history == old(history).(positions := PushBounded(old(history.positions), pos, old(history.maxHistory)))
      ensures lastDirection == old(lastDirection)
    {
      var positions := history.positions + [pos];
      if |positions| > history.maxHistory {
        positions := positions[1..];
      }
      history := history.(positions := positions);
    }
  }
}
