/**
 * Flat-index grid topology of a size x size torus, as the random agent's
 * board computes it (halite/agents/random_agent/board.py, get_col_row and
 * get_to_pos). Position p stands for column p % size and row p / size.
 * The interpreter's own boards use this neighbour function too.
 */
module Topology {
  import opened Wrappers

  /** The four compass moves; every other action string is not a direction. */
  datatype Direction = North | East | South | West

  function Name(d: Direction): string
  {
    match d
    case North => "NORTH"
    case East => "EAST"
    case South => "SOUTH"
    case West => "WEST"
  }

  function Opposite(d: Direction): Direction
  {
    match d
    case North => South
    case South => North
    case East => West
    case West => East
  }

  /** Reads a direction string; None for every string that names no direction. */
  function ParseDirection(s: string): (r: Option<Direction>)
    ensures r.Some? <==> s in {"NORTH", "EAST", "SOUTH", "WEST"}
    ensures r.Some? ==> Name(r.value) == s
  {
    if s == "NORTH" then Some(North)
    else if s == "EAST" then Some(East)
    else if s == "SOUTH" then Some(South)
    else if s == "WEST" then Some(West)
    else None
  }

  lemma NameParses(d: Direction)
    ensures ParseDirection(Name(d)) == Some(d)
  {
  }

  /** Division by a positive size is determined by any decomposition of pos. */
  lemma DivModOf(size: nat, pos: nat, col: nat, row: nat)
    requires 0 < size && col < size && pos == row * size + col
    ensures pos % size == col && pos / size == row
  {
    var q, r := pos / size, pos % size;
    assert pos == q * size + r;
    if row > q {
      assert row * size >= (q + 1) * size by {
        assert row >= q + 1;
        MulMonotone(q + 1, row, size);
      }
      assert false;
    } else if row < q {
      assert q * size >= (row + 1) * size by {
        MulMonotone(row + 1, q, size);
      }
      assert false;
    }
  }

  lemma MulMonotone(a: nat, b: nat, size: nat)
    requires a <= b
    ensures a * size <= b * size
  {
  }

  /** A row below size and a column below size give a position on the board. */
  lemma OnBoard(size: nat, col: nat, row: nat)
    requires col < size && row < size
    ensures row * size + col < size * size
  {
    MulMonotone(row + 1, size, size);
  }

  /** The flat position of the cell at (row, col); it lies on the board. */
  function CellIndex(size: nat, row: nat, col: nat): (p: nat)
    requires row < size && col < size
    ensures p < size * size && p == row * size + col
  {
    OnBoard(size, col, row);
    row * size + col
  }

  /** Every position on the board has a row below size. */
  lemma RowBelowSize(size: nat, pos: nat)
    requires 0 < size && pos < size * size
    ensures pos / size < size
  {
    if pos / size >= size {
      MulMonotone(size, pos / size, size);
      assert false;
    }
  }

  /** get_col_row: the column and the row of a flat position. */
  function ColRow(size: nat, pos: nat): (r: (nat, nat))
    requires 0 < size
    ensures r.0 + r.1 * size == pos && r.0 < size
    ensures pos < size * size ==> r.1 < size
  {
    assert pos < size * size ==> pos / size < size by {
      if pos < size * size { RowBelowSize(size, pos); }
    }
    (pos % size, pos / size)
  }

  /** get_to_pos for one of the four directions, with its wrap-around branches. */
  function Neighbour(size: nat, pos: nat, d: Direction): nat
    requires 0 < size
  {
    var (col, row) := ColRow(size, pos);
    match d
    case North => if pos >= size then pos - size else size * size - size + col
    case South => if pos + size >= size * size then col else pos + size
    case East => if col < size - 1 then pos + 1 else row * size
    case West => if col > 0 then pos - 1 else (row + 1) * size - 1
  }

  /** get_to_pos as the agent calls it with a string: None for any other string. */
  function GetToPos(size: nat, pos: nat, direction: string): (r: Option<nat>)
    requires 0 < size
    ensures r.None? <==> ParseDirection(direction).None?
    ensures r.Some? ==> r.value == Neighbour(size, pos, ParseDirection(direction).value)
  {
    match ParseDirection(direction)
    case Some(d) => Some(Neighbour(size, pos, d))
    case None => None
  }

  /** Column of a position. */
  function Col(size: nat, pos: nat): nat
    requires 0 < size
  {
    ColRow(size, pos).0
  }

  /** Row of a position. */
  function Row(size: nat, pos: nat): nat
    requires 0 < size
  {
    ColRow(size, pos).1
  }

  /** Stepping north keeps the column and moves one row up, wrapping from row 0 to the last row. */
  lemma NorthStep(size: nat, pos: nat)
    requires 0 < size && pos < size * size
    ensures var n := Neighbour(size, pos, North);
            n < size * size && Col(size, n) == Col(size, pos) &&
            Row(size, n) == (if Row(size, pos) == 0 then size - 1 else Row(size, pos) - 1)
  {
    var col, row := Col(size, pos), Row(size, pos);
    var n := Neighbour(size, pos, North);
    if pos >= size {
      assert row != 0;
      assert n == (row - 1) * size + col;
      OnBoard(size, col, row - 1);
      DivModOf(size, n, col, row - 1);
    } else {
      assert row == 0 by { DivModOf(size, pos, pos, 0); }
      assert n == (size - 1) * size + col;
      OnBoard(size, col, size - 1);
      DivModOf(size, n, col, size - 1);
    }
  }

  /** Stepping south keeps the column and moves one row down, wrapping from the last row to row 0. */
  lemma SouthStep(size: nat, pos: nat)
    requires 0 < size && pos < size * size
    ensures var n := Neighbour(size, pos, South);
            n < size * size && Col(size, n) == Col(size, pos) &&
            Row(size, n) == (if Row(size, pos) == size - 1 then 0 else Row(size, pos) + 1)
  {
    var col, row := Col(size, pos), Row(size, pos);
    var n := Neighbour(size, pos, South);
    if pos + size >= size * size {
      assert row == size - 1 by {
        if row < size - 1 {
          OnBoard(size, col, row + 1);
          assert false;
        }
      }
      DivModOf(size, n, col, 0);
    } else {
      assert row != size - 1;
      assert n == (row + 1) * size + col;
      DivModOf(size, n, col, row + 1);
    }
  }

  /** Stepping east keeps the row and moves one column right, wrapping from the last column to column 0. */
  lemma EastStep(size: nat, pos: nat)
    requires 0 < size && pos < size * size
    ensures var n := Neighbour(size, pos, East);
            n < size * size && Row(size, n) == Row(size, pos) &&
            Col(size, n) == (if Col(size, pos) == size - 1 then 0 else Col(size, pos) + 1)
  {
    var col, row := Col(size, pos), Row(size, pos);
    var n := Neighbour(size, pos, East);
    if col < size - 1 {
      assert n == row * size + (col + 1);
      OnBoard(size, col + 1, row);
      DivModOf(size, n, col + 1, row);
    } else {
      OnBoard(size, 0, row);
      DivModOf(size, n, 0, row);
    }
  }

  /** Stepping west keeps the row and moves one column left, wrapping from column 0 to the last column. */
  lemma WestStep(size: nat, pos: nat)
    requires 0 < size && pos < size * size
    ensures var n := Neighbour(size, pos, West);
            n < size * size && Row(size, n) == Row(size, pos) &&
            Col(size, n) == (if Col(size, pos) == 0 then size - 1 else Col(size, pos) - 1)
  {
    var col, row := Col(size, pos), Row(size, pos);
    var n := Neighbour(size, pos, West);
    if col > 0 {
      assert n == row * size + (col - 1);
      OnBoard(size, col - 1, row);
      DivModOf(size, n, col - 1, row);
    } else {
      assert n == row * size + (size - 1);
      OnBoard(size, size - 1, row);
      DivModOf(size, n, size - 1, row);
    }
  }

  /** Every neighbour of a position on the board is on the board. */
  lemma NeighbourOnBoard(size: nat, pos: nat, d: Direction)
    requires 0 < size && pos < size * size
    ensures Neighbour(size, pos, d) < size * size
  {
    match d
    case North => NorthStep(size, pos);
    case South => SouthStep(size, pos);
    case East => EastStep(size, pos);
    case West => WestStep(size, pos);
  }

  /** Stepping one way and then back returns to the start, across every edge. */
  lemma NeighbourInverse(size: nat, pos: nat, d: Direction)
    requires 0 < size && pos < size * size
    ensures Neighbour(size, Neighbour(size, pos, d), Opposite(d)) == pos
  {
    var n := Neighbour(size, pos, d);
    var m := Neighbour(size, n, Opposite(d));
    match d
    case North => NorthStep(size, pos); SouthStep(size, n);
    case South => SouthStep(size, pos); NorthStep(size, n);
    case East => EastStep(size, pos); WestStep(size, n);
    case West => WestStep(size, pos); EastStep(size, n);
  }
}
