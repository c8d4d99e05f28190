/**
 * The cell ledger of the object-based prototype, halite/interpreter/board_map.py:
 * every BoardCell keeps its own halite and updates it in place when a ship
 * mines it, when it regenerates, when ships collide on it or when a ship is
 * converted on it. The units on the board are those of the game's table,
 * passed in as a list of unit states.
 */
module BoardMap {
  import opened Wrappers
  import opened StateModel
  import BoardView
  import Topology

  /** The right operand of + and of the comparisons: another cell or a number. */
  datatype Operand = CellOperand(cell: Cell) | Number(value: real)

  /** The share BoardCell.mine takes at the collect rate, and what it leaves. */
  function MineSplit(halite: real, collectRate: real): (r: (real, real))
    ensures r.0 + r.1 == halite
    ensures r.0 == halite * collectRate
  {
    (halite * collectRate, halite - halite * collectRate)
  }

  /** With a rate between 0 and 1, a cell holding no negative halite gives and keeps no negative amount. */
  lemma MineSplitBounds(halite: real, collectRate: real)
    requires 0.0 <= halite && 0.0 <= collectRate <= 1.0
    ensures 0.0 <= MineSplit(halite, collectRate).0 <= halite
    ensures 0.0 <= MineSplit(halite, collectRate).1 <= halite
  {
    assert halite * collectRate <= halite * 1.0;
  }

  /** The halite a cell holds after BoardCell.regenerate: grown by the rate unless a unit stands on it. */
  function Regenerated(halite: real, occupied: bool, regenRate: real): (r: real)
    ensures occupied ==> r == halite
    ensures !occupied ==> r == halite * (1.0 + regenRate)
  {
    if occupied then halite else halite + halite * regenRate
  }

  class Cell {
    const pos: nat
    var halite: real

    constructor (pos: nat, halite: real)
      ensures this.pos == pos && this.halite == halite
    {
      this.pos := pos;
      this.halite := halite;
    }

    /** occupied_by: every unit of the table at this position, whatever its status. */
    function OccupiedBy(units: seq<UnitState>): (r: seq<UnitState>)
      ensures |r| <= |units|
      ensures forall u :: u in r <==> u in units && u.pos == Some(pos)
    {
      BoardView.At(units, pos)
    }

    /** mine: the cell gives up halite * collect_rate and keeps the rest. */
    method Mine(collectRate: real) returns (mined: real)
      modifies this
      ensures mined == MineSplit(old(halite), collectRate).0
      ensures halite == MineSplit(old(halite), collectRate).1
    {
      mined := halite * collectRate;
      halite := halite - mined;
    }

    /** regenerate: unless a unit stands on the cell, its halite grows by halite * regen_rate. */
    method Regenerate(units: seq<UnitState>, regenRate: real)
      modifies this
      ensures halite == Regenerated(old(halite), OccupiedBy(units) != [], regenRate)
    {
      if OccupiedBy(units) == [] {
        var grown := halite * regenRate;
        halite := halite + grown;
      }
    }

    /** destroy: two ships collided here and the cell loses all its halite. */
    method Destroy()
      modifies this
      ensures halite == 0.0
    {
      halite := 0.0;
    }

    /** convert: a shipyard was built here and the cell loses all its halite. */
    method Convert()
      modifies this
      ensures halite == 0.0
    {
      halite := 0.0;
    }

    /** __lt__, __eq__ and __gt__ compare the halite of two cells and nothing else. */
    predicate Lt(other: Cell)
      reads this, other
    {
      halite < other.halite
    }

    predicate Eq(other: Cell)
      reads this, other
    {
      halite == other.halite
    }

    predicate Gt(other: Cell)
      reads this, other
    {
      halite > other.halite
    }

    /** __add__ and __radd__: this cell's halite plus the other cell's halite or the number. */
    function Plus(other: Operand): (r: real)
      reads this, if other.CellOperand? then {other.cell} else {}
      ensures other.CellOperand? ==> r == halite + other.cell.halite
      ensures other.Number? ==> r == halite + other.value
    {
      match other
      case CellOperand(c) => halite + c.halite
      case Number(v) => halite + v
    }
  }

  /**
   * The cell operators order cells by halite alone: exactly one of <, ==, >
   * holds between two cells, == ignores the positions, and + is symmetric.
   */
  lemma CellOrder(a: Cell, b: Cell)
    ensures (a.Lt(b) || a.Eq(b) || a.Gt(b)) && !(a.Lt(b) && a.Eq(b)) && !(a.Lt(b) && a.Gt(b)) && !(a.Eq(b) && a.Gt(b))
    ensures a.Lt(b) <==> b.Gt(a)
    ensures a.Eq(b) <==> a.halite == b.halite
    ensures a.Plus(CellOperand(b)) == b.Plus(CellOperand(a))
  {
  }

  class Map {
    var cells: seq<Cell>

    /** The map over the given cells; the game it belongs to is not part of this model. */
    constructor (boardCells: seq<Cell>)
      ensures cells == boardCells
    {
      cells := boardCells;
    }

    /** Cell i sits at position i; in particular no cell appears twice. */
    ghost predicate Valid()
      reads this, cells
    {
      forall i :: 0 <= i < |cells| ==> cells[i].pos == i
    }

    /** The halite each cell holds, by position. */
    function Halite(): (r: seq<real>)
      reads this, cells
      ensures |r| == |cells| && forall i :: 0 <= i < |cells| ==> r[i] == cells[i].halite
    {
      seq(|cells|, i reads this, cells requires 0 <= i < |cells| => cells[i].halite)
    }

    /** BoardCell.neighbour: the cell of the map at get_to_pos of the position in the direction. */
    function Neighbour(size: nat, pos: nat, d: Topology.Direction): (r: Cell)
      requires Valid() && 0 < size && |cells| == size * size && pos < size * size
      reads this, cells
      ensures r in cells && r.pos == Topology.Neighbour(size, pos, d)
    {
      Topology.NeighbourOnBoard(size, pos, d);
      cells[Topology.Neighbour(size, pos, d)]
    }

    /** board_cells_from_halite: one new cell per entry of the map, cell i at position i holding entry i. */
    method CellsFromHalite(haliteMap: seq<real>)
      modifies this
      ensures Valid() && |cells| == |haliteMap| && Halite() == haliteMap
      ensures forall i :: 0 <= i < |cells| ==> fresh(cells[i])
    {
      var built: seq<Cell> := [];
      var i := 0;
      while i < |haliteMap|
        invariant i <= |haliteMap| && |built| == i
        invariant forall j :: 0 <= j < i ==> built[j].pos == j && built[j].halite == haliteMap[j] && fresh(built[j])
      {
        var c := new Cell(i, haliteMap[i]);
        built := built + [c];
        i := i + 1;
      }
      cells := built;
    }

    /** regenerate: every cell regenerates against the same table of units. */
    method Regenerate(units: seq<UnitState>, regenRate: real)
      requires Valid()
      modifies set i | 0 <= i < |cells| :: cells[i]
      ensures Valid()
      ensures forall i :: 0 <= i < |cells| ==>
                cells[i].halite == Regenerated(old(cells[i].halite), cells[i].OccupiedBy(units) != [], regenRate)
    {
      var i := 0;
      while i < |cells|
        invariant i <= |cells|
        invariant forall j :: 0 <= j < i ==>
                    cells[j].halite == Regenerated(old(cells[j].halite), cells[j].OccupiedBy(units) != [], regenRate)
        invariant forall j :: i <= j < |cells| ==> cells[j].halite == old(cells[j].halite)
      {
        cells[i].Regenerate(units, regenRate);
        i := i + 1;
      }
    }
  }
}
