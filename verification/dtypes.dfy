/**
 * Coordinate positions on the torus (halite/dtypes.py): an (x, y) pair that
 * carries the board size, a modular step in the four directions and the
 * wrap-around signed distance the rule-based agent navigates by.
 */
module Dtypes {
  import opened Wrappers

  /** Position(x, y, size). As a tuple it compares by (x, y) only. */
  datatype Position = Position(x: int, y: int, size: int)

  /** The Direction constants of dtypes.py. */
  const NORTH := "NORTH"
  const EAST := "EAST"
  const SOUTH := "SOUTH"
  const WEST := "WEST"

  /** The ValueError raised when anything but a direction is added. */
  datatype AddError = ValueError

  predicate OnTorus(p: Position)
  {
    0 < p.size && 0 <= p.x < p.size && 0 <= p.y < p.size
  }

  /**
   * Position.__add__: north adds one to y, south takes one from y, east adds
   * one to x, west takes one from x, each modulo size (Python's % for a
   * positive size, which Dafny's % agrees with); the other coordinate and the
   * size are kept. Anything else raises ValueError.
   */
  function Add(p: Position, other: string): (r: Result<Position, AddError>)
    requires 0 < p.size
    ensures r.Failure? <==> other !in {NORTH, SOUTH, EAST, WEST}
    ensures r.Success? ==> r.value.size == p.size
    ensures r.Success? && OnTorus(p) ==> OnTorus(r.value)
    ensures other in {NORTH, SOUTH} ==> r.value.x == p.x && 0 <= r.value.y < p.size
    ensures other in {EAST, WEST} ==> r.value.y == p.y && 0 <= r.value.x < p.size
    ensures OnTorus(p) && other == NORTH ==> r.value.y == if p.y == p.size - 1 then 0 else p.y + 1
    ensures OnTorus(p) && other == SOUTH ==> r.value.y == if p.y == 0 then p.size - 1 else p.y - 1
    ensures OnTorus(p) && other == EAST ==> r.value.x == if p.x == p.size - 1 then 0 else p.x + 1
    ensures OnTorus(p) && other == WEST ==> r.value.x == if p.x == 0 then p.size - 1 else p.x - 1
  {
    Succ(p.x, p.size); Succ(p.y, p.size);
    Pred(p.x, p.size); Pred(p.y, p.size);
    if other == NORTH then Success(Position(p.x, (p.y + 1) % p.size, p.size))
    else if other == SOUTH then Success(Position(p.x, (p.y - 1) % p.size, p.size))
    else if other == EAST then Success(Position((p.x + 1) % p.size, p.y, p.size))
    else if other == WEST then Success(Position((p.x - 1) % p.size, p.y, p.size))
    else Failure(ValueError)
  }

  /** Adding one modulo size wraps only at the last coordinate. */
  lemma Succ(v: int, size: int)
    requires 0 < size
    ensures 0 <= v < size ==> (v + 1) % size == if v == size - 1 then 0 else v + 1
  {
  }

  /** Taking one modulo size wraps only at coordinate 0. */
  lemma Pred(v: int, size: int)
    requires 0 < size
    ensures 0 <= v < size ==> (v - 1) % size == if v == 0 then size - 1 else v - 1
  {
    if v == 0 {
      assert -1 == -1 * size + (size - 1);
    }
  }

  /** Stepping north then south, or south then north, returns to p. */
  lemma NorthSouthInverse(p: Position)
    requires OnTorus(p)
    ensures Add(Add(p, NORTH).value, SOUTH) == Success(p)
    ensures Add(Add(p, SOUTH).value, NORTH) == Success(p)
  {
  }

  /** Stepping east then west, or west then east, returns to p. */
  lemma EastWestInverse(p: Position)
    requires OnTorus(p)
    ensures Add(Add(p, EAST).value, WEST) == Success(p)
    ensures Add(Add(p, WEST).value, EAST) == Success(p)
  {
  }

  function Abs(n: int): nat
  {
    if n < 0 then -n else n
  }

  /**
   * signed_distance_1D exactly as written: x2 - x1, from which size is
   * subtracted whenever |x2 - x1| exceeds size / 2. On the negative side the
   * correction has the wrong sign (see SignedDistance1DAsWrittenOverflows).
   */
  function SignedDistance1DAsWritten(x1: int, x2: int, size: int): (r: int)
    ensures Abs(x2 - x1) as real <= size as real / 2.0 ==> r == x2 - x1
    ensures Abs(x2 - x1) as real > size as real / 2.0 ==> r == x2 - x1 - size
  {
    var dist := x2 - x1;
    if Abs(dist) as real > size as real / 2.0 then dist - size else dist
  }

  /** On the positive side the as-written correction lands in (-size/2, 0). */
  lemma AsWrittenPositiveBranch(x1: int, x2: int, size: int)
    requires 0 <= x1 < size && 0 <= x2 < size
    requires (x2 - x1) as real > size as real / 2.0
    ensures var r := SignedDistance1DAsWritten(x1, x2, size);
            -(size as real) / 2.0 < r as real < 0.0
  {
  }

  /**
   * The negative side: with size 8, from 5 to 0 the shorter way round is +3,
   * but the as-written function gives -13, farther than the board is wide.
   */
  lemma SignedDistance1DAsWrittenOverflows()
    ensures SignedDistance1DAsWritten(5, 0, 8) == -13
    ensures SignedDistance1D(5, 0, 8) == 3
  {
  }

  /**
   * signed_distance_1D as evidently intended: the shorter of the two ways
   * round, adding size on the negative side. Its result is congruent to
   * x2 - x1 modulo size and lies in [-size/2, size/2].
   */
  function SignedDistance1D(x1: int, x2: int, size: int): (r: int)
    requires 0 < size
    ensures r == x2 - x1 || r == x2 - x1 - size || r == x2 - x1 + size
    ensures 0 <= x1 < size && 0 <= x2 < size ==>
              -(size as real) / 2.0 <= r as real <= size as real / 2.0
    ensures Abs(x2 - x1) as real <= size as real / 2.0 ==> r == x2 - x1
    ensures r == SignedDistance1DAsWritten(x1, x2, size) || x2 - x1 < 0
  {
    var dist := x2 - x1;
    if dist as real > size as real / 2.0 then dist - size
    else if (-dist) as real > size as real / 2.0 then dist + size
    else dist
  }

  /** The distance from x2 back to x1 has the same length, whichever way round. */
  lemma SignedDistance1DSymmetric(x1: int, x2: int, size: int)
    requires 0 < size && 0 <= x1 < size && 0 <= x2 < size
    ensures Abs(SignedDistance1D(x1, x2, size)) == Abs(SignedDistance1D(x2, x1, size))
  {
  }

  /** signed_distance2 as intended: the per-axis shortest signed distances from p to q. */
  function SignedDistance2(p: Position, q: Position): (r: (int, int))
    requires 0 < p.size
    ensures r.0 == SignedDistance1D(p.x, q.x, p.size) && r.1 == SignedDistance1D(p.y, q.y, p.size)
  {
    (SignedDistance1D(p.x, q.x, p.size), SignedDistance1D(p.y, q.y, p.size))
  }

  /** distance2 as intended: the per-axis lengths of the shortest signed distances. */
  function Distance2(p: Position, q: Position): (r: (nat, nat))
    requires 0 < p.size
    ensures OnTorus(p) && OnTorus(q) && p.size == q.size ==>
              r.0 as real <= p.size as real / 2.0 && r.1 as real <= p.size as real / 2.0
  {
    var (dx, dy) := SignedDistance2(p, q);
    (Abs(dx), Abs(dy))
  }

  /** distance as intended: the wrap-around Manhattan distance. */
  function Distance(p: Position, q: Position): (r: nat)
    requires 0 < p.size
    ensures p.x == q.x && p.y == q.y ==> r == 0
    ensures OnTorus(p) && OnTorus(q) && p.size == q.size ==> r as real <= p.size as real
  {
    Distance2(p, q).0 + Distance2(p, q).1
  }

  /** The intended wrap-around distance is symmetric on the torus. */
  lemma DistanceSymmetric(p: Position, q: Position)
    requires OnTorus(p) && OnTorus(q) && p.size == q.size
    ensures Distance(p, q) == Distance(q, p)
  {
    SignedDistance1DSymmetric(p.x, q.x, p.size);
    SignedDistance1DSymmetric(p.y, q.y, p.size);
  }

  /** The intended distance is zero exactly on the same cell. */
  lemma DistanceZero(p: Position, q: Position)
    requires OnTorus(p) && OnTorus(q) && p.size == q.size
    ensures Distance(p, q) == 0 <==> p.x == q.x && p.y == q.y
  {
    if Distance(p, q) == 0 {
      assert SignedDistance1D(p.x, q.x, p.size) == 0;
      assert SignedDistance1D(p.y, q.y, p.size) == 0;
    }
  }

  // ---------------------------------------------------------------------------
  // The distances as written: distance, distance2 and signed_distance2 call
  // the as-written signed_distance_1D, so they differ from the intended ones
  // on every axis where the coordinate difference wraps the negative way.

  /** x2 - x1 is below -size/2: the case where signed_distance_1D subtracts size from a negative distance. */
  predicate NegativeWrap(x1: int, x2: int, size: int)
  {
    (x2 - x1) as real < -(size as real) / 2.0
  }

  /** On the board, the as-written and the intended 1D distances agree exactly when the difference does not wrap negatively. */
  lemma AsWrittenAgreesUnlessNegativeWrap(x1: int, x2: int, size: int)
    requires 0 < size
    ensures 0 <= x1 < size && 0 <= x2 < size ==>
              (SignedDistance1DAsWritten(x1, x2, size) == SignedDistance1D(x1, x2, size) <==> !NegativeWrap(x1, x2, size)) &&
              (SignedDistance1DAsWritten(x1, x2, size) == 0 <==> x1 == x2) &&
              Abs(SignedDistance1DAsWritten(x1, x2, size)) >= Abs(SignedDistance1D(x1, x2, size))
  {
  }

  /** signed_distance2 as written: the per-axis as-written signed distances from p to q. */
  function SignedDistance2AsWritten(p: Position, q: Position): (r: (int, int))
    requires 0 < p.size
    ensures OnTorus(p) && OnTorus(q) && p.size == q.size ==>
              (r == (0, 0) <==> p.x == q.x && p.y == q.y) &&
              (r.0 == SignedDistance2(p, q).0 <==> !NegativeWrap(p.x, q.x, p.size)) &&
              (r.1 == SignedDistance2(p, q).1 <==> !NegativeWrap(p.y, q.y, p.size))
  {
    AsWrittenAgreesUnlessNegativeWrap(p.x, q.x, p.size);
    AsWrittenAgreesUnlessNegativeWrap(p.y, q.y, p.size);
    (SignedDistance1DAsWritten(p.x, q.x, p.size), SignedDistance1DAsWritten(p.y, q.y, p.size))
  }

  /** distance2 as written: the per-axis lengths of the as-written signed distances. */
  function Distance2AsWritten(p: Position, q: Position): (r: (nat, nat))
    requires 0 < p.size
    ensures OnTorus(p) && OnTorus(q) && p.size == q.size ==>
              (r == (0, 0) <==> p.x == q.x && p.y == q.y) &&
              r.0 >= Distance2(p, q).0 && r.1 >= Distance2(p, q).1 &&
              (!NegativeWrap(p.x, q.x, p.size) && !NegativeWrap(p.y, q.y, p.size) ==> r == Distance2(p, q))
  {
    AsWrittenAgreesUnlessNegativeWrap(p.x, q.x, p.size);
    AsWrittenAgreesUnlessNegativeWrap(p.y, q.y, p.size);
    var (dx, dy) := SignedDistance2AsWritten(p, q);
    (Abs(dx), Abs(dy))
  }

  /**
   * distance as written: zero exactly on the same cell, never below the
   * intended wrap-around distance, and equal to it when neither axis wraps
   * negatively.
   */
  function DistanceAsWritten(p: Position, q: Position): (r: nat)
    requires 0 < p.size
    ensures OnTorus(p) && OnTorus(q) && p.size == q.size ==>
              (r == 0 <==> p.x == q.x && p.y == q.y) && r >= Distance(p, q) &&
              (!NegativeWrap(p.x, q.x, p.size) && !NegativeWrap(p.y, q.y, p.size) ==> r == Distance(p, q))
  {
    Distance2AsWritten(p, q).0 + Distance2AsWritten(p, q).1
  }

  /** The as-written distance is not symmetric: on a board of 8, from x = 5 to x = 0 it is 13, and 3 back. */
  lemma DistanceAsWrittenAsymmetric()
    ensures DistanceAsWritten(Position(5, 0, 8), Position(0, 0, 8)) == 13
    ensures DistanceAsWritten(Position(0, 0, 8), Position(5, 0, 8)) == 3
    ensures Distance(Position(5, 0, 8), Position(0, 0, 8)) == 3
  {
    SignedDistance1DAsWrittenOverflows();
  }
}
