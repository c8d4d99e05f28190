/**
 * The rule-based agent's one-step navigator
 * (halite/agents/rule_based_agent/navigate.py, DumbNavigator.move_towards).
 * MoveTowardsAsWritten reads the as-written signed distances of dtypes.py;
 * MoveTowards reads the intended ones, and the lemmas about getting closer
 * are about that one.
 */
module Navigate {
  import opened Wrappers
  import opened Dtypes

  /**
   * The branch structure of move_towards on the signed distances (dx, dy):
   * the horizontal axis wins whenever |dx| >= |dy| (ties included), and no
   * move is proposed only when both distances are zero.
   */
  function MoveTowardsDelta(dx: int, dy: int): (r: Option<string>)
    ensures r.None? <==> dx == 0 && dy == 0
    ensures Abs(dx) >= Abs(dy) && dx != 0 ==> r == Some(if dx > 0 then EAST else WEST)
    ensures Abs(dy) > Abs(dx) ==> r == Some(if dy > 0 then NORTH else SOUTH)
  {
    if Abs(dx) >= Abs(dy) then
      if dx > 0 then Some(EAST)
      else if dx < 0 then Some(WEST)
      else None
    else
      if dy > 0 then Some(NORTH)
      else if dy < 0 then Some(SOUTH)
      else None
  }

  /** move_towards(pos1, pos2) as intended, over the shortest signed distances: None exactly when the positions coincide. */
  function MoveTowards(pos1: Position, pos2: Position): (r: Option<string>)
    requires 0 < pos1.size
    ensures OnTorus(pos1) && OnTorus(pos2) && pos1.size == pos2.size ==>
              (r.None? <==> pos1.x == pos2.x && pos1.y == pos2.y)
  {
    var (dx, dy) := SignedDistance2(pos1, pos2);
    MoveTowardsDelta(dx, dy)
  }

  /** One step east shortens a positive signed distance by one. */
  lemma StepTowardsUp(x1: int, x2: int, size: int)
    requires 0 < size && 0 <= x1 < size && 0 <= x2 < size
    requires SignedDistance1D(x1, x2, size) > 0
    ensures var x1' := if x1 == size - 1 then 0 else x1 + 1;
            SignedDistance1D(x1', x2, size) == SignedDistance1D(x1, x2, size) - 1
  {
  }

  /** One step west lengthens a negative signed distance by one towards zero. */
  lemma StepTowardsDown(x1: int, x2: int, size: int)
    requires 0 < size && 0 <= x1 < size && 0 <= x2 < size
    requires SignedDistance1D(x1, x2, size) < 0
    ensures var x1' := if x1 == 0 then size - 1 else x1 - 1;
            SignedDistance1D(x1', x2, size) == SignedDistance1D(x1, x2, size) + 1
  {
  }

  /** The coordinate after one step up (wrapping from size - 1 to 0) or down (wrapping from 0 to size - 1). */
  function Stepped(v: int, size: int, up: bool): int
  {
    if up then (if v == size - 1 then 0 else v + 1) else (if v == 0 then size - 1 else v - 1)
  }

  /** A step along one axis in the direction of a non-zero signed distance shortens its length by one. */
  lemma StepCloser1D(v1: int, v2: int, size: int, up: bool)
    requires 0 < size && 0 <= v1 < size && 0 <= v2 < size
    requires up ==> SignedDistance1D(v1, v2, size) > 0
    requires !up ==> SignedDistance1D(v1, v2, size) < 0
    ensures Abs(SignedDistance1D(Stepped(v1, size, up), v2, size)) + 1 == Abs(SignedDistance1D(v1, v2, size))
  {
    if up {
      StepTowardsUp(v1, v2, size);
    } else {
      StepTowardsDown(v1, v2, size);
    }
  }

  /** The distance is the sum of the lengths of the two signed distances. */
  lemma DistanceAxes(p: Position, q: Position)
    requires 0 < p.size
    ensures Distance(p, q) == Abs(SignedDistance1D(p.x, q.x, p.size)) + Abs(SignedDistance1D(p.y, q.y, p.size))
  {
  }

  /** A step along either axis in the direction of that axis's signed distance brings p one step closer to q. */
  lemma AxisStepCloser(p: Position, next: Position, q: Position, vertical: bool, up: bool)
    requires OnTorus(p) && OnTorus(q) && p.size == q.size == next.size
    requires vertical ==> next.x == p.x && next.y == Stepped(p.y, p.size, up)
    requires !vertical ==> next.y == p.y && next.x == Stepped(p.x, p.size, up)
    requires var dist := if vertical then SignedDistance1D(p.y, q.y, p.size) else SignedDistance1D(p.x, q.x, p.size);
             if up then dist > 0 else dist < 0
    ensures Distance(next, q) + 1 == Distance(p, q)
  {
    if vertical {
      StepCloser1D(p.y, q.y, p.size, up);
    } else {
      StepCloser1D(p.x, q.x, p.size, up);
    }
    DistanceAxes(next, q);
    DistanceAxes(p, q);
  }

  /** A step east or west along a non-zero horizontal distance shortens the distance by one. */
  lemma HorizontalStepCloser(pos1: Position, pos2: Position, d: string)
    requires OnTorus(pos1) && OnTorus(pos2) && pos1.size == pos2.size
    requires var dx := SignedDistance1D(pos1.x, pos2.x, pos1.size);
             (d == EAST && dx > 0) || (d == WEST && dx < 0)
    ensures Distance(Add(pos1, d).value, pos2) + 1 == Distance(pos1, pos2)
  {
    AxisStepCloser(pos1, Add(pos1, d).value, pos2, false, d == EAST);
  }

  /** A step north or south along a non-zero vertical distance shortens the distance by one. */
  lemma VerticalStepCloser(pos1: Position, pos2: Position, d: string)
    requires OnTorus(pos1) && OnTorus(pos2) && pos1.size == pos2.size
    requires var dy := SignedDistance1D(pos1.y, pos2.y, pos1.size);
             (d == NORTH && dy > 0) || (d == SOUTH && dy < 0)
    ensures Distance(Add(pos1, d).value, pos2) + 1 == Distance(pos1, pos2)
  {
    AxisStepCloser(pos1, Add(pos1, d).value, pos2, true, d == NORTH);
  }

  /** Following the proposed direction brings pos1 exactly one step closer to pos2. */
  lemma MoveTowardsApproaches(pos1: Position, pos2: Position)
    requires OnTorus(pos1) && OnTorus(pos2) && pos1.size == pos2.size
    requires MoveTowards(pos1, pos2).Some?
    ensures var next := Add(pos1, MoveTowards(pos1, pos2).value);
            next.Success? && Distance(next.value, pos2) + 1 == Distance(pos1, pos2)
  {
    var d := MoveTowards(pos1, pos2).value;
    if d in {EAST, WEST} {
      HorizontalStepCloser(pos1, pos2, d);
    } else {
      VerticalStepCloser(pos1, pos2, d);
    }
  }

  // ---------------------------------------------------------------------------
  // move_towards as written: it reads the as-written signed distances, so on
  // an axis whose difference wraps the negative way it heads the long way
  // round.

  /**
   * move_towards(pos1, pos2) as written, over signed_distance2 as written: no
   * direction exactly when the positions coincide, and the intended direction
   * whenever neither axis wraps negatively.
   */
  function MoveTowardsAsWritten(pos1: Position, pos2: Position): (r: Option<string>)
    requires 0 < pos1.size
    ensures OnTorus(pos1) && OnTorus(pos2) && pos1.size == pos2.size ==>
              (r.None? <==> pos1.x == pos2.x && pos1.y == pos2.y) &&
              (!NegativeWrap(pos1.x, pos2.x, pos1.size) && !NegativeWrap(pos1.y, pos2.y, pos1.size) ==>
                 r == MoveTowards(pos1, pos2))
  {
    var (dx, dy) := SignedDistance2AsWritten(pos1, pos2);
    MoveTowardsDelta(dx, dy)
  }

  /** When neither axis wraps negatively, the direction as written brings pos1 one step closer to pos2. */
  lemma MoveTowardsAsWrittenApproaches(pos1: Position, pos2: Position)
    requires OnTorus(pos1) && OnTorus(pos2) && pos1.size == pos2.size
    requires !NegativeWrap(pos1.x, pos2.x, pos1.size) && !NegativeWrap(pos1.y, pos2.y, pos1.size)
    requires MoveTowardsAsWritten(pos1, pos2).Some?
    ensures var next := Add(pos1, MoveTowardsAsWritten(pos1, pos2).value);
            next.Success? && Distance(next.value, pos2) + 1 == Distance(pos1, pos2)
  {
    MoveTowardsApproaches(pos1, pos2);
  }

  /** On an axis that wraps negatively, a step down (towards 0) never shortens the wrap-around distance. */
  lemma StepAway1D(v1: int, v2: int, size: int)
    requires 0 < size && 0 <= v1 < size && 0 <= v2 < size
    requires NegativeWrap(v1, v2, size)
    ensures Abs(SignedDistance1D(Stepped(v1, size, false), v2, size)) >= Abs(SignedDistance1D(v1, v2, size))
  {
    assert 0 < v1 && Stepped(v1, size, false) == v1 - 1;
  }

  /**
   * When move_towards as written picks WEST on an x difference that wraps
   * negatively, or SOUTH on a y difference that does, the intended navigator
   * picks another direction and the step does not bring pos1 closer to pos2.
   */
  lemma MoveTowardsAsWrittenWrongWay(pos1: Position, pos2: Position)
    requires OnTorus(pos1) && OnTorus(pos2) && pos1.size == pos2.size
    requires var r := MoveTowardsAsWritten(pos1, pos2);
             (r == Some(WEST) && NegativeWrap(pos1.x, pos2.x, pos1.size)) ||
             (r == Some(SOUTH) && NegativeWrap(pos1.y, pos2.y, pos1.size))
    ensures MoveTowards(pos1, pos2) != MoveTowardsAsWritten(pos1, pos2)
    ensures var next := Add(pos1, MoveTowardsAsWritten(pos1, pos2).value);
            next.Success? && Distance(next.value, pos2) >= Distance(pos1, pos2)
  {
    var d := MoveTowardsAsWritten(pos1, pos2).value;
    AxisStepAway(pos1, Add(pos1, d).value, pos2, d == SOUTH);
  }

  /** A step down along an axis that wraps negatively: the intended direction differs and the distance does not shrink. */
  lemma AxisStepAway(p: Position, next: Position, q: Position, vertical: bool)
    requires OnTorus(p) && OnTorus(q) && p.size == q.size == next.size
    requires vertical ==> next.x == p.x && next.y == Stepped(p.y, p.size, false) && NegativeWrap(p.y, q.y, p.size)
    requires !vertical ==> next.y == p.y && next.x == Stepped(p.x, p.size, false) && NegativeWrap(p.x, q.x, p.size)
    ensures MoveTowards(p, q) != Some(if vertical then SOUTH else WEST)
    ensures Distance(next, q) >= Distance(p, q)
  {
    IntendedPositive(p, q, vertical);
    if vertical {
      StepAway1D(p.y, q.y, p.size);
    } else {
      StepAway1D(p.x, q.x, p.size);
    }
    DistanceAxes(next, q);
    DistanceAxes(p, q);
  }

  /** On an axis that wraps negatively the intended signed distance is positive, so the intended navigator never steps down along it. */
  lemma IntendedPositive(p: Position, q: Position, vertical: bool)
    requires OnTorus(p) && OnTorus(q) && p.size == q.size
    requires if vertical then NegativeWrap(p.y, q.y, p.size) else NegativeWrap(p.x, q.x, p.size)
    ensures vertical ==> SignedDistance2(p, q).1 > 0
    ensures !vertical ==> SignedDistance2(p, q).0 > 0
    ensures MoveTowards(p, q) != Some(if vertical then SOUTH else WEST)
  {
  }

  /** On a board of 8, from (5, 0) to (0, 0) move_towards as written goes WEST, from distance 3 to distance 4. */
  lemma MoveTowardsAsWrittenStepsAway()
    ensures MoveTowardsAsWritten(Position(5, 0, 8), Position(0, 0, 8)) == Some(WEST)
    ensures MoveTowards(Position(5, 0, 8), Position(0, 0, 8)) == Some(EAST)
    ensures Distance(Position(5, 0, 8), Position(0, 0, 8)) == 3
    ensures Distance(Add(Position(5, 0, 8), WEST).value, Position(0, 0, 8)) == 4
  {
    SignedDistance1DAsWrittenOverflows();
    assert Add(Position(5, 0, 8), WEST).value == Position(4, 0, 8);
  }
}
