/**
 * The first state of a game (halite/interpreter/game.py, initial): no units
 * but one ship per player at fixed start positions, every balance at the
 * starting halite, and a halite board mirrored from one quarter grid. The
 * quarter grid itself is drawn at random in the source and is an input here.
 */
module Setup {
  import opened Wrappers
  import opened StateModel
  import opened GameRules
  import Numbers
  import Topology

  // ---------------------------------------------------------------------------
  // _distribute_starting_ships

  /** The start positions for 1, 2 and 4 players; any other count puts every ship at position 0. */
  function StartingPositions(size: nat, n: nat): (r: seq<int>)
    ensures |r| == n
    ensures n !in {1, 2, 4} ==> forall p :: 0 <= p < n ==> r[p] == 0
  {
    if n == 1 then [size * (size / 2) + size / 2]
    else if n == 2 then [size * (size / 2) + size / 4, size * (size / 2) + (3 * size + 3) / 4 - 1]
    else if n == 4 then
      [size * (size / 4) + size / 4, size * (size / 4) + 3 * size / 4,
       size * (3 * size / 4) + size / 4, size * (3 * size / 4) + 3 * size / 4]
    else seq(n, p => 0)
  }

  /** math.ceil(3 * size / 4) for a whole size is (3 * size + 3) / 4 in integer division. */
  lemma CeilThreeQuarters(size: nat)
    ensures var c := (3 * size + 3) / 4;
            (3 * size) as real / 4.0 <= c as real < (3 * size) as real / 4.0 + 1.0
  {
  }

  /** size * row + col is a cell of the board. */
  lemma Cell(size: nat, row: int, col: int)
    requires 0 <= row < size && 0 <= col < size
    ensures 0 <= size * row + col < size * size
  {
    Topology.OnBoard(size, col, row);
    assert size * row == row * size;
  }

  /** On a non-empty board every start position is a cell of the board. */
  lemma StartingPositionsOnBoard(size: nat, n: nat)
    requires 0 < size
    ensures forall p :: 0 <= p < n ==> 0 <= StartingPositions(size, n)[p] < size * size
  {
    assert 0 <= 3 * size / 4 < size && 0 <= (3 * size + 3) / 4 - 1 < size;
    if n == 1 {
      Cell(size, size / 2, size / 2);
    } else if n == 2 {
      Cell(size, size / 2, size / 4);
      Cell(size, size / 2, (3 * size + 3) / 4 - 1);
    } else if n == 4 {
      Cell(size, size / 4, size / 4);
      Cell(size, size / 4, 3 * size / 4);
      Cell(size, 3 * size / 4, size / 4);
      Cell(size, 3 * size / 4, 3 * size / 4);
    }
  }

  /** With four players and a size divisible by four the ships stand at rows and columns q and size - q, q = size / 4. */
  lemma FourPlayersCorners(size: nat)
    requires 0 < size && size % 4 == 0
    ensures var r, q := StartingPositions(size, 4), size / 4;
            r[0] == q * size + q && r[1] == q * size + (size - q) &&
            r[2] == (size - q) * size + q && r[3] == (size - q) * size + (size - q)
  {
    var q := size / 4;
    assert 3 * size / 4 == size - q;
    assert size * q == q * size;
    assert size * (size - q) == (size - q) * size;
  }

  // ---------------------------------------------------------------------------
  // _normalize_halite

  /** half = math.ceil(size / 2). */
  function Half(size: nat): nat
  {
    (size + 1) / 2
  }

  /** The quarter grid _distribute_halite returns: half rows of half values. */
  predicate QuarterGrid(size: nat, grid: seq<seq<int>>)
  {
    |grid| == Half(size) && forall r :: 0 <= r < |grid| ==> |grid[r]| == Half(size)
  }

  function RowTotal(row: seq<int>): int
  {
    if row == [] then 0 else RowTotal(row[..|row| - 1]) + row[|row| - 1]
  }

  /** sum([sum(row) for row in radius_grid]). */
  function GridTotal(grid: seq<seq<int>>): int
  {
    if grid == [] then 0 else GridTotal(grid[..|grid| - 1]) + RowTotal(grid[|grid| - 1])
  }

  /** int(val * halite / total / 4). */
  function Scaled(val: int, halite: real, total: int): real
    requires total != 0
  {
    Numbers.Trunc(val as real * halite / total as real / 4.0) as real
  }

  /** The quarter-grid index a board row or column reads: its distance from the nearer edge. */
  function Fold(size: nat, x: nat): (r: nat)
    requires x < size
    ensures r < Half(size) && r <= x
    ensures r == x || r == size - 1 - x
  {
    if x <= size - 1 - x then x else size - 1 - x
  }

  /**
   * The board _normalize_halite fills: cell (R, C) holds the scaled grid
   * entry of its folded row and column. A ZeroDivisionError when the grid
   * sums to zero and there is a cell to fill.
   */
  function NormalizedBoard(size: nat, grid: seq<seq<int>>, halite: real): (r: Result<seq<real>, string>)
    requires QuarterGrid(size, grid)
    ensures r.Failure? <==> 0 < size && GridTotal(grid) == 0
    ensures r.Success? ==> |r.value| == size * size
  {
    var total := GridTotal(grid);
    if 0 < size && total == 0 then Failure("ZeroDivisionError")
    else if size == 0 then Success([])
    else
      Success(seq(size * size, p requires 0 <= p < size * size => Scaled(grid[Origin(size, p).0][Origin(size, p).1], halite, total)))
  }

  /** The quarter-grid entry board position p is filled from: its folded row and column. */
  function Origin(size: nat, p: nat): (r: (nat, nat))
    requires p < size * size
    ensures r.0 < Half(size) && r.1 < Half(size)
  {
    Topology.RowBelowSize(size, p);
    (Fold(size, p / size), Fold(size, p % size))
  }

  /** Folding an index of the first half gives it back. */
  lemma FoldHalf(size: nat, x: nat)
    requires x < Half(size)
    ensures x < size && size - 1 - x < size
    ensures Fold(size, x) == x && Fold(size, size - 1 - x) == x
  {
  }

  /**
   * The four cells _normalize_halite writes for quarter entry (r, c), rows R
   * in {r, size - 1 - r} and columns C in {c, size - 1 - c}, are cells of
   * the board whose origin is (r, c).
   */
  lemma MirrorIndex(size: nat, r: nat, c: nat, R: nat, C: nat)
    requires r < Half(size) && c < Half(size)
    requires R == r || R == size - 1 - r
    requires C == c || C == size - 1 - c
    ensures R < size && C < size && R * size + C < size * size
    ensures Origin(size, R * size + C) == (r, c)
  {
    FoldHalf(size, r);
    FoldHalf(size, c);
    assert Fold(size, R) == r && Fold(size, C) == c;
    Topology.OnBoard(size, C, R);
    var p := R * size + C;
    Topology.DivModOf(size, p, C, R);
    assert p / size == R && p % size == C;
  }

  /** The origin of the cell at (row, col) is its folded row and column. */
  lemma OriginOf(size: nat, row: nat, col: nat)
    requires row < size && col < size
    ensures Origin(size, Topology.CellIndex(size, row, col)) == (Fold(size, row), Fold(size, col))
  {
    Topology.DivModOf(size, Topology.CellIndex(size, row, col), col, row);
  }

  /** Every cell of the board is one of the four mirror cells of its origin. */
  lemma OriginCover(size: nat, p: nat)
    requires p < size * size
    ensures var o := Origin(size, p);
            p / size < size && p % size < size && p == (p / size) * size + p % size &&
            (p / size == o.0 || p / size == size - 1 - o.0) &&
            (p % size == o.1 || p % size == size - 1 - o.1)
  {
    Topology.RowBelowSize(size, p);
  }

  /** Cell (row, col) of the normalized board. */
  lemma NormalizedCell(size: nat, grid: seq<seq<int>>, halite: real, row: nat, col: nat)
    requires QuarterGrid(size, grid) && NormalizedBoard(size, grid, halite).Success?
    requires row < size && col < size
    ensures var p := Topology.CellIndex(size, row, col);
            NormalizedBoard(size, grid, halite).value[p] == Scaled(grid[Fold(size, row)][Fold(size, col)], halite, GridTotal(grid))
  {
    OriginOf(size, row, col);
  }

  /**
   * The normalized board is symmetric: each cell equals its left-right and
   * its top-bottom mirror image.
   */
  lemma NormalizedMirror(size: nat, grid: seq<seq<int>>, halite: real, row: nat, col: nat)
    requires QuarterGrid(size, grid) && NormalizedBoard(size, grid, halite).Success?
    requires row < size && col < size
    ensures var b, p := NormalizedBoard(size, grid, halite).value, Topology.CellIndex(size, row, col);
            b[p] == b[Topology.CellIndex(size, row, size - 1 - col)] &&
            b[p] == b[Topology.CellIndex(size, size - 1 - row, col)]
  {
    assert Fold(size, size - 1 - col) == Fold(size, col) && Fold(size, size - 1 - row) == Fold(size, row);
    NormalizedCell(size, grid, halite, row, col);
    NormalizedCell(size, grid, halite, row, size - 1 - col);
    NormalizedCell(size, grid, halite, size - 1 - row, col);
  }

  // ---------------------------------------------------------------------------
  // _initialize_ships and initial

  /** The ships _create_starting_ships makes, one per player, drawing uids from the counter in player order. */
  function StartingShips(positions: seq<nat>, nextUid: nat): (r: seq<UnitState>)
    ensures |r| == |positions|
    ensures forall p :: 0 <= p < |r| ==>
              r[p] == CreateShip(MakeUid(0, nextUid + p), Some(positions[p]), p, 0, None, 0.0)
  {
    seq(|positions|, p requires 0 <= p < |positions| =>
          CreateShip(MakeUid(0, nextUid + p), Some(positions[p]), p, 0, None, 0.0))
  }

  /** Putting the next starting ship into the table of the ones before it extends the table by that ship. */
  lemma StartingShipsPut(positions: seq<nat>, nextUid: nat, p: nat)
    requires p < |positions|
    ensures var ships := StartingShips(positions, nextUid);
            Put(ships[..p], ships[p]) == ships[..p + 1]
  {
    var ships := StartingShips(positions, nextUid);
    forall j | 0 <= j < p ensures ships[..p][j].uid != ships[p].uid {
      SuccessiveUidsDistinct(0, 0, nextUid + j, nextUid + p);
    }
    PutNextOfPrefix(ships, p);
  }

  /**
   * Game.initial for n players: step 0, every balance the starting halite,
   * the normalized board, and the starting ships; the counter advances by
   * one uid per ship.
   */
  function Initial(cfg: Configuration, n: nat, startingHalite: real, grid: seq<seq<int>>, nextUid: nat): (r: Result<World, string>)
    requires 0 < cfg.size && QuarterGrid(cfg.size, grid)
    ensures r.Failure? <==> GridTotal(grid) == 0
    ensures r.Success? ==> r.value.state.step == 0 && r.value.nextUid == nextUid + n &&
                           r.value.state.haliteScore == seq(n, p => startingHalite) &&
                           r.value.state.haliteBoard == NormalizedBoard(cfg.size, grid, cfg.halite).value
  {
    match NormalizedBoard(cfg.size, grid, cfg.halite)
    case Failure(e) => Failure(e)
    case Success(board) =>
      StartingPositionsOnBoard(cfg.size, n);
      var positions := seq(n, p requires 0 <= p < n => StartingPositions(cfg.size, n)[p] as nat);
      Success(World(State(0, StartingShips(positions, nextUid), seq(n, p => startingHalite), board), nextUid + n))
  }

  /**
   * The initial state is well formed, and player p owns exactly one unit: an
   * active, empty ship at its start position, created at step 0.
   */
  lemma InitialShips(cfg: Configuration, n: nat, startingHalite: real, grid: seq<seq<int>>, nextUid: nat)
    requires 0 < cfg.size && QuarterGrid(cfg.size, grid) && Initial(cfg, n, startingHalite, grid, nextUid).Success?
    ensures var s := Initial(cfg, n, startingHalite, grid, nextUid).value.state;
            WellFormed(cfg, s) && |s.units| == n &&
            forall p :: 0 <= p < n ==>
              s.units[p].playerIndex == p && s.units[p].unitType == Ship && s.units[p].status == Active &&
              s.units[p].pos == Some(StartingPositions(cfg.size, n)[p] as nat) &&
              s.units[p].halite == Some(0.0) && s.units[p].createdAt == 0
  {
    var s := Initial(cfg, n, startingHalite, grid, nextUid).value.state;
    StartingPositionsOnBoard(cfg.size, n);
    forall i, j | 0 <= i < j < |s.units| ensures s.units[i].uid != s.units[j].uid {
      SuccessiveUidsDistinct(0, 0, nextUid + i, nextUid + j);
    }
  }
}
