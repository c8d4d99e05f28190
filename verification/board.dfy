/**
 * The board view of halite/interpreter/board.py: size * size cells, each
 * knowing only its position and reading everything else from the game state.
 */
module BoardView {
  import opened Wrappers
  import opened StateModel
  import GameUnits

  /** A BoardCell is its position; its halite and occupants live in the state. */
  datatype BoardCell = BoardCell(pos: nat)

  /** Board.__init__: one cell per position 0 .. size * size - 1, in order. */
  function Board(size: nat): (r: seq<BoardCell>)
    ensures |r| == size * size
    ensures forall i :: 0 <= i < |r| ==> r[i].pos == i
  {
    seq(size * size, i requires 0 <= i => BoardCell(i))
  }

  /** Board.__getitem__ is list indexing: negative keys count from the end, others raise IndexError. */
  function GetItem(cells: seq<BoardCell>, key: int): (r: Result<BoardCell, string>)
    ensures 0 <= key < |cells| ==> r == Success(cells[key])
    ensures -|cells| <= key < 0 ==> r == Success(cells[|cells| + key])
    ensures r.Failure? <==> key < -|cells| || |cells| <= key
  {
    if 0 <= key < |cells| then Success(cells[key])
    else if -|cells| <= key < 0 then Success(cells[|cells| + key])
    else Failure("IndexError")
  }

  /** Looking up a position of the board gives the cell at that position. */
  lemma BoardIndex(size: nat, key: int)
    requires -(size * size) <= key < size * size
    ensures GetItem(Board(size), key).Success?
    ensures GetItem(Board(size), key).value.pos == if key >= 0 then key else size * size + key
  {
  }

  /** BoardCell.halite: the state's halite_board entry at the cell's position. */
  function Halite(s: State, c: BoardCell): (r: real)
    requires c.pos < |s.haliteBoard|
    ensures r in s.haliteBoard
  {
    s.haliteBoard[c.pos]
  }

  /** A cell reports whatever the board holds at its position, and writing elsewhere does not affect it. */
  lemma HaliteFollowsBoard(s: State, c: BoardCell, d: BoardCell, v: real)
    requires c.pos < |s.haliteBoard| && d.pos < |s.haliteBoard|
    ensures Halite(s.(haliteBoard := s.haliteBoard[c.pos := v]), c) == v
    ensures d.pos != c.pos ==> Halite(s.(haliteBoard := s.haliteBoard[c.pos := v]), d) == Halite(s, d)
  {
  }

  /** The units in the list that stand at the given position, in order. */
  function At(units: seq<UnitState>, pos: nat): (r: seq<UnitState>)
    ensures |r| <= |units|
    ensures forall u :: u in r <==> u in units && u.pos == Some(pos)
  {
    if units == [] then []
    else (if units[0].pos == Some(pos) then [units[0]] else []) + At(units[1..], pos)
  }

  /** BoardCell.occupied_by: the active units at the cell's position, in table order. */
  function OccupiedBy(s: State, c: BoardCell): (r: seq<UnitState>)
    ensures forall u :: u in r <==> u in s.units && u.status == Active && u.pos == Some(c.pos)
  {
    At(GameUnits.Units(s.units, None, Some(Active)), c.pos)
  }

  /** The right operand of a comparison or an addition: another cell or a number. */
  datatype Operand = CellOperand(cell: BoardCell) | Number(value: real)

  /**
   * BoardCell.__lt__, __eq__ and __gt__: a comparison with another cell
   * compares halite; with anything else the method falls through and returns None.
   */
  function Lt(s: State, a: BoardCell, b: Operand): (r: Option<bool>)
    requires a.pos < |s.haliteBoard| && (b.CellOperand? ==> b.cell.pos < |s.haliteBoard|)
    ensures r.Some? <==> b.CellOperand?
    ensures r.Some? ==> (r.value <==> Halite(s, a) < Halite(s, b.cell))
  {
    if b.CellOperand? then Some(Halite(s, a) < Halite(s, b.cell)) else None
  }

  function Eq(s: State, a: BoardCell, b: Operand): (r: Option<bool>)
    requires a.pos < |s.haliteBoard| && (b.CellOperand? ==> b.cell.pos < |s.haliteBoard|)
    ensures r.Some? <==> b.CellOperand?
    ensures r.Some? ==> (r.value <==> Halite(s, a) == Halite(s, b.cell))
  {
    if b.CellOperand? then Some(Halite(s, a) == Halite(s, b.cell)) else None
  }

  function Gt(s: State, a: BoardCell, b: Operand): (r: Option<bool>)
    requires a.pos < |s.haliteBoard| && (b.CellOperand? ==> b.cell.pos < |s.haliteBoard|)
    ensures r.Some? <==> b.CellOperand?
    ensures r.Some? ==> (r.value <==> Halite(s, a) > Halite(s, b.cell))
  {
    if b.CellOperand? then Some(Halite(s, a) > Halite(s, b.cell)) else None
  }

  /** BoardCell.__add__ and __radd__: the cell's halite plus the other cell's halite or the number. */
  function Plus(s: State, a: BoardCell, b: Operand): (r: real)
    requires a.pos < |s.haliteBoard| && (b.CellOperand? ==> b.cell.pos < |s.haliteBoard|)
    ensures b.CellOperand? ==> r == Halite(s, a) + Halite(s, b.cell)
    ensures b.Number? ==> r == Halite(s, a) + b.value
  {
    match b
    case CellOperand(c) => Halite(s, a) + Halite(s, c)
    case Number(v) => Halite(s, a) + v
  }

  /**
   * Cells are ordered by halite alone: exactly one of <, ==, > holds, two
   * cells at different positions compare equal when they hold the same
   * halite, and + is symmetric between cells.
   */
  lemma CellOrder(s: State, a: BoardCell, b: BoardCell)
    requires a.pos < |s.haliteBoard| && b.pos < |s.haliteBoard|
    ensures var lt, eq, gt := Lt(s, a, CellOperand(b)) == Some(true), Eq(s, a, CellOperand(b)) == Some(true),
                              Gt(s, a, CellOperand(b)) == Some(true);
            (lt || eq || gt) && !(lt && eq) && !(lt && gt) && !(eq && gt)
    ensures Eq(s, a, CellOperand(b)) == Some(true) <==> s.haliteBoard[a.pos] == s.haliteBoard[b.pos]
    ensures Lt(s, a, CellOperand(b)) == Gt(s, b, CellOperand(a))
    ensures Plus(s, a, CellOperand(b)) == Plus(s, b, CellOperand(a))
  {
  }
}
