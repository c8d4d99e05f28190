/**
 * The Game object of halite/interpreter/game.py as it works: the loaded
 * state lives in fields that each action and each pass of the turn updates
 * in place, and uids come from the process-wide counter. Every method is
 * proved to leave the fields exactly as the rule functions of GameRules,
 * Collisions, Turn and Setup say.
 */
module Game {
  import opened Wrappers
  import opened StateModel
  import opened GameRules
  import Topology
  import Collisions
  import Turn
  import Setup

  /** How an action method ends: normally, with an ImpossibleAction or IllegalAction, or with an error that escapes the turn. */
  datatype Raise = Ok | Impossible(reason: Refusal) | Fatal(error: Abort)

  function Report(o: ActionOutcome): (r: Raise)
    ensures r.Ok? <==> o.Applied?
  {
    match o
    case Applied(_) => Ok
    case Refused(x) => Impossible(x)
    case Aborted(e) => Fatal(e)
  }

  /** The world after an outcome: the new one when applied, the old one otherwise. */
  function After(o: ActionOutcome, w: World): World
  {
    if o.Applied? then o.world else w
  }

  // ---------------------------------------------------------------------------
  // _normalize_halite, on the list it fills in place.

  /** The value _normalize_halite leaves at board position p: the scaled entry of its origin in the quarter grid. */
  function Mirrored(size: nat, grid: seq<seq<int>>, halite: real, total: int, p: nat): real
    requires Setup.QuarterGrid(size, grid) && total != 0 && p < size * size
  {
    var o := Setup.Origin(size, p);
    Setup.Scaled(grid[o.0][o.1], halite, total)
  }

  /** Position p was written before quarter entry (row, col) in the row-major walk of the grid. */
  predicate Filled(size: nat, p: nat, row: nat, col: nat)
    requires p < size * size
  {
    var o := Setup.Origin(size, p);
    o.0 < row || (o.0 == row && o.1 < col)
  }

  /** size * (size - 1) - size * row, the start of the mirrored row, is row size - 1 - row. */
  lemma MirrorRow(size: nat, row: nat)
    requires row < size
    ensures size * (size - 1) - size * row == (size - 1 - row) * size
  {
    calc {
      size * (size - 1) - size * row;
      size * (size - 1 - row);
      (size - 1 - row) * size;
    }
  }

  /**
   * _normalize_halite: every entry of the quarter grid is scaled and written
   * to its four mirror cells of a zeroed board; a grid summing to zero raises
   * ZeroDivisionError at the first division.
   */
  method NormalizeHalite(size: nat, halite: real, grid: seq<seq<int>>) returns (r: Result<seq<real>, string>)
    requires Setup.QuarterGrid(size, grid)
    ensures r == Setup.NormalizedBoard(size, grid, halite)
  {
    var total := Setup.GridTotal(grid);
    var half := Setup.Half(size);
    if 0 < size && total == 0 {
      return Failure("ZeroDivisionError");
    }
    if size == 0 {
      return Success([]);
    }
    var board := new real[size * size](p => 0.0);
    var row := 0;
    while row < half
      invariant row <= half
      invariant forall p :: 0 <= p < size * size && Filled(size, p, row, 0) ==> board[p] == Mirrored(size, grid, halite, total, p)
    {
      var col := 0;
      while col < half
        invariant col <= half
        invariant forall p :: 0 <= p < size * size && Filled(size, p, row, col) ==> board[p] == Mirrored(size, grid, halite, total, p)
      {
        FillMirrors(board, size, grid, halite, total, row, col);
        col := col + 1;
      }
      assert forall p :: 0 <= p < size * size && Filled(size, p, row + 1, 0) ==> Filled(size, p, row, half);
      row := row + 1;
    }
    var expected := Setup.NormalizedBoard(size, grid, halite).value;
    forall p | 0 <= p < size * size ensures board[p] == expected[p] {
      assert Filled(size, p, half, 0);
    }
    assert board[..] == expected;
    return Success(board[..]);
  }

  /**
   * The four cells _normalize_halite writes for quarter entry (row, col) are
   * on the board, have that entry as their origin, and are the only cells
   * that do.
   */
  lemma MirrorCells(size: nat, row: nat, col: nat)
    requires row < Setup.Half(size) && col < Setup.Half(size)
    ensures var p1, p2 := size * row + col, size * row + (size - col - 1);
            var p3, p4 := size * (size - 1) - size * row + col, size * (size - 1) - size * row + (size - col - 1);
            p1 < size * size && p2 < size * size && p3 < size * size && p4 < size * size &&
            Setup.Origin(size, p1) == (row, col) && Setup.Origin(size, p2) == (row, col) &&
            Setup.Origin(size, p3) == (row, col) && Setup.Origin(size, p4) == (row, col) &&
            forall p :: 0 <= p < size * size && Setup.Origin(size, p) == (row, col) ==> p == p1 || p == p2 || p == p3 || p == p4
  {
    MirrorRow(size, row);
    assert size * row == row * size;
    MirrorCellsFrom(size, row, col, size * row, size * (size - 1) - size * row);
  }

  /** MirrorCells with the starts of the two mirrored rows given: top for row, bottom for size - 1 - row. */
  lemma MirrorCellsFrom(size: nat, row: nat, col: nat, top: nat, bottom: nat)
    requires row < Setup.Half(size) && col < Setup.Half(size)
    requires top == row * size && bottom == (size - 1 - row) * size
    ensures var p1, p2, p3, p4 := top + col, top + (size - col - 1), bottom + col, bottom + (size - col - 1);
            p1 < size * size && p2 < size * size && p3 < size * size && p4 < size * size &&
            Setup.Origin(size, p1) == (row, col) && Setup.Origin(size, p2) == (row, col) &&
            Setup.Origin(size, p3) == (row, col) && Setup.Origin(size, p4) == (row, col) &&
            forall p :: 0 <= p < size * size && Setup.Origin(size, p) == (row, col) ==> p == p1 || p == p2 || p == p3 || p == p4
  {
    Setup.MirrorIndex(size, row, col, row, col);
    Setup.MirrorIndex(size, row, col, row, size - 1 - col);
    Setup.MirrorIndex(size, row, col, size - 1 - row, col);
    Setup.MirrorIndex(size, row, col, size - 1 - row, size - 1 - col);
    forall p | 0 <= p < size * size && Setup.Origin(size, p) == (row, col)
      ensures p == top + col || p == top + (size - col - 1) || p == bottom + col || p == bottom + (size - col - 1)
    {
      Setup.OriginCover(size, p);
      var r := p / size;
      if r == row {
        assert r * size == top;
      } else {
        assert r * size == bottom;
      }
    }
  }

  /** The body of the inner loop of _normalize_halite: quarter entry (row, col) written to its four mirror cells. */
  method FillMirrors(board: array<real>, size: nat, grid: seq<seq<int>>, halite: real, total: int, row: nat, col: nat)
    requires Setup.QuarterGrid(size, grid) && total != 0 && row < Setup.Half(size) && col < Setup.Half(size)
    requires board.Length == size * size
    modifies board
    ensures forall p :: 0 <= p < size * size && Filled(size, p, row, col) ==> board[p] == old(board[p])
    ensures forall p :: 0 <= p < size * size && Setup.Origin(size, p) == (row, col) ==> board[p] == Mirrored(size, grid, halite, total, p)
  {
    var val := Setup.Scaled(grid[row][col], halite, total);
    MirrorCells(size, row, col);
    var p1, p2 := size * row + col, size * row + (size - col - 1);
    var p3, p4 := size * (size - 1) - size * row + col, size * (size - 1) - size * row + (size - col - 1);
    board[p1] := val;
    board[p2] := val;
    board[p3] := val;
    board[p4] := val;
  }

  class Game {
    const cfg: Configuration
    const nPlayers: nat
    const startingHalite: real
    /** The module-level _UID counter, shared with every other game of the process. */
    const uids: UidCounter

    var step: nat
    var units: seq<UnitState>
    var haliteScore: seq<real>
    var haliteBoard: seq<real>

    constructor (cfg: Configuration, nPlayers: nat, startingHalite: real, uids: UidCounter)
      ensures this.cfg == cfg && this.nPlayers == nPlayers && this.startingHalite == startingHalite
      ensures this.uids == uids
      ensures step == 0 && units == [] && haliteScore == [] && haliteBoard == []
    {
      this.cfg := cfg;
      this.nPlayers := nPlayers;
      this.startingHalite := startingHalite;
      this.uids := uids;
      step := 0;
      units := [];
      haliteScore := [];
      haliteBoard := [];
    }

    /** The loaded state. */
    function Snapshot(): State
      reads this
    {
      State(step, units, haliteScore, haliteBoard)
    }

    /** The loaded state together with the counter. */
    function Current(): World
      reads this, uids
    {
      World(Snapshot(), uids.next)
    }

    ghost predicate Valid()
      reads this
    {
      WellFormed(cfg, Snapshot())
    }

    // -------------------------------------------------------------------------
    // The actions.

    /** _delete_ship. */
    method DeleteShip(i: nat, status: UnitStatus)
      requires i < |units|
      modifies this
      ensures Snapshot() == GameRules.DeleteShip(old(Snapshot()), i, status)
    {
      units := units[i := units[i].(halite := None, pos := None, status := status, deletedAt := Some(step))];
    }

    /** _spawn. */
    method Spawn(player: nat, i: nat) returns (r: Raise)
      requires Valid() && i < |units|
      modifies this, uids
      ensures var o := GameRules.Spawn(cfg, old(Current()), player, i);
              r == Report(o) && Current() == After(o, old(Current()))
      ensures Valid() && step == old(step) && |haliteScore| == old(|haliteScore|)
    {
      ghost var w0 := Current();
      var check := ValidateUnit(Snapshot(), player, i, Shipyard);
      if check.Some? {
        return Report(check.value);
      }
      var shipyard := units[i];
      var cost := cfg.spawnCost;
      if haliteScore[player] < cost {
        return Impossible(CantSpawn);
      }
      haliteScore := haliteScore[shipyard.playerIndex := haliteScore[shipyard.playerIndex] - cost];
      var uid := uids.CreateUid(step);
      var ship := CreateShip(uid, shipyard.pos, shipyard.playerIndex, step, Some(shipyard.uid), 0.0);
      units := Put(units, ship);
      SpawnWellFormed(cfg, w0, player, i);
      return Ok;
    }

    /** _convert. */
    method Convert(player: nat, i: nat) returns (r: Raise)
      requires Valid() && i < |units|
      modifies this, uids
      ensures var o := GameRules.Convert(cfg, old(Current()), player, i);
              r == Report(o) && Current() == After(o, old(Current()))
      ensures Valid() && step == old(step) && |haliteScore| == old(|haliteScore|)
    {
      var check := ValidateUnit(Snapshot(), player, i, Ship);
      if check.Some? {
        return Report(check.value);
      }
      var ship := units[i];
      assert UnitOk(cfg, |haliteScore|, ship);
      var cost := cfg.convertCost - Cargo(ship);
      if haliteScore[player] < cost {
        return Impossible(CantConvert);
      }
      if FriendlyShipyardAt(Snapshot(), player, ship.pos) {
        return Impossible(CantConvert);
      }
      ghost var w0 := Current();
      ConvertWellFormed(cfg, w0, i);
      Converting(i);
      return Ok;
    }

    /** The successful part of _convert: pay, create the shipyard, empty the cell, delete the ship. */
    method Converting(i: nat)
      requires Valid() && i < |units| && units[i].unitType == Ship && units[i].status == Active
      modifies this, uids
      ensures Current() == AfterConvert(cfg, old(Current()), i)
    {
      ghost var w0 := Current();
      var ship := units[i];
      assert UnitOk(cfg, |haliteScore|, ship);
      var score := Charge(haliteScore, ship.playerIndex, ConvertCost(cfg, ship));
      var uid := uids.CreateUid(step);
      var shipyard := CreateShipyard(uid, ship.pos, ship.playerIndex, step, Some(ship.uid));
      assert shipyard == ConvertedYard(w0, ship);
      var table := Put(units, shipyard);
      // The lookup of the ship by uid finds it where it was.
      var j := i;
      haliteScore, units, haliteBoard := score, table[j := table[j].(convertedToUid := Some(shipyard.uid))], haliteBoard[ship.pos.value := 0.0];
      ghost var marked := table[j := table[j].(convertedToUid := Some(shipyard.uid))];
      ghost var emptied := w0.state.haliteBoard[ship.pos.value := 0.0];
      assert haliteBoard == emptied;
      assert Snapshot() == State(w0.state.step, marked, score, emptied);
      DeleteShip(j, Converted);
      assert Snapshot() == GameRules.DeleteShip(State(w0.state.step, marked, score, emptied), j, Converted);
      assert uids.next == w0.nextUid + 1;
      assert score == Charge(w0.state.haliteScore, ship.playerIndex, ConvertCost(cfg, ship));
      assert shipyard.uid == ConvertedYard(w0, ship).uid;
      assert table == Put(w0.state.units, ConvertedYard(w0, ship));
      assert Current() == AfterConvert(cfg, w0, i) by {
        GameRules.ConvertedShipIndex(cfg, w0, i);
        GameRules.AfterConvertParts(cfg, w0, i, j, table);
      }
    }

    /** _move. */
    method Move(player: nat, i: nat, d: Topology.Direction) returns (r: Raise)
      requires Valid() && i < |units|
      modifies this
      ensures var o := GameRules.Move(cfg, old(Current()), player, i, d);
              r == Report(o) && Current() == After(o, old(Current()))
      ensures Valid() && step == old(step) && |haliteScore| == old(|haliteScore|)
    {
      ghost var w0 := Current();
      var check := ValidateUnit(Snapshot(), player, i, Ship);
      if check.Some? {
        return Report(check.value);
      }
      var ship := units[i];
      assert UnitOk(cfg, |haliteScore|, ship);
      var cargo := Cargo(ship) * (1.0 - cfg.moveCost);
      var to := Topology.Neighbour(cfg.size, ship.pos.value, d);
      ghost var moved := Moved(cfg, ship, d);
      assert moved.halite.value == cargo;
      assert moved == ship.(halite := Some(cargo), pos := Some(to));
      units := units[i := ship.(halite := Some(cargo), pos := Some(to))];
      MoveLedger(cfg, w0, player, i, d);
      return Ok;
    }

    /** _mine. */
    method Mine(player: nat, i: nat) returns (r: Raise)
      requires Valid() && i < |units|
      modifies this
      ensures var o := GameRules.Mine(cfg, old(Current()), player, i);
              r == Report(o) && Current() == After(o, old(Current()))
    {
      var check := ValidateUnit(Snapshot(), player, i, Ship);
      if check.Some? {
        return Report(check.value);
      }
      var ship := units[i];
      assert UnitOk(cfg, |haliteScore|, ship);
      var pos := ship.pos.value;
      var mined := MinedAmount(cfg, haliteBoard[pos]);
      units := units[i := ship.(halite := Some(ship.halite.value + mined))];
      haliteBoard := haliteBoard[pos := haliteBoard[pos] - mined];
      return Ok;
    }

    /** _deposit. */
    method Deposit(player: nat, i: nat) returns (r: Raise)
      requires Valid() && i < |units|
      modifies this
      ensures var o := GameRules.Deposit(cfg, old(Current()), player, i);
              r == Report(o) && Current() == After(o, old(Current()))
    {
      var check := ValidateUnit(Snapshot(), player, i, Ship);
      if check.Some? {
        return Report(check.value);
      }
      if !FriendlyShipyardAt(Snapshot(), player, units[i].pos) {
        return Impossible(CantDeposit);
      }
      var deposited := Cargo(units[i]);
      haliteScore := haliteScore[player := haliteScore[player] + deposited];
      units := units[i := units[i].(halite := Some(0.0))];
      return Ok;
    }

    // -------------------------------------------------------------------------
    // The passes of the turn.

    /** detect_collision_with_shipyards, ship by ship over the table. */
    method CollideWithShipyards()
      modifies this
      ensures Snapshot() == Collisions.CollideWithShipyards(old(Snapshot()))
    {
      ghost var s0 := Snapshot();
      var k := 0;
      while k < |units|
        invariant k <= |units| == |s0.units|
        invariant step == s0.step && haliteScore == s0.haliteScore && haliteBoard == s0.haliteBoard
        invariant forall j :: 0 <= j < k ==>
                    units[j] == if Collisions.OnEnemyShipyard(s0, s0.units[j]) then Deleted(s0.units[j], Destroyed, step) else s0.units[j]
        invariant forall j :: k <= j < |units| ==> units[j] == s0.units[j]
        invariant forall j :: 0 <= j < |units| ==> units[j].unitType == s0.units[j].unitType
        invariant forall j :: 0 <= j < |units| && s0.units[j].unitType == Shipyard ==> units[j] == s0.units[j]
      {
        CollideWithShipyardsAt(s0, k);
        k := k + 1;
      }
      assert units == Collisions.CollideWithShipyards(s0).units;
    }

    /** One ship of detect_collision_with_shipyards: destroyed when it stands on an enemy shipyard. */
    method CollideWithShipyardsAt(ghost s0: State, k: nat)
      requires k < |units| == |s0.units|
      requires forall j :: 0 <= j < |units| ==> units[j].unitType == s0.units[j].unitType
      requires forall j :: 0 <= j < |units| && s0.units[j].unitType == Shipyard ==> units[j] == s0.units[j]
      modifies this
      ensures step == old(step) && haliteScore == old(haliteScore) && haliteBoard == old(haliteBoard)
      ensures var u := old(units[k]);
              units == old(units)[k := if Collisions.OnEnemyShipyard(s0, u) then Deleted(u, Destroyed, step) else u]
    {
      Collisions.EnemyShipyardStable(s0, Snapshot(), units[k]);
      if Collisions.OnEnemyShipyard(Snapshot(), units[k]) {
        DeleteShip(k, Destroyed);
      }
    }

    /** One cell of detect_collision_between_ships: every ship there but a surviving leader is destroyed, and the cell is emptied. */
    method CollideShipsAt(c: nat)
      requires c < |haliteBoard|
      modifies this
      ensures Snapshot() == Collisions.ResolveCell(old(Snapshot()), c)
    {
      var ships := Collisions.ShipsAt(units, c);
      if |ships| <= 1 {
        return;
      }
      ghost var s0 := Snapshot();
      var leader := ships[Collisions.LeaderIndex(ships)];
      var second := Collisions.SecondLargest(ships);
      var k := 0;
      while k < |units|
        invariant k <= |units| == |s0.units|
        invariant step == s0.step && haliteScore == s0.haliteScore && haliteBoard == s0.haliteBoard
        invariant forall j :: 0 <= j < k ==>
                    units[j] == Collisions.CellFate(ships, s0.units[j], c, step)
        invariant forall j :: k <= j < |units| ==> units[j] == s0.units[j]
      {
        CollideShipAt(ships, leader, second, c, k);
        k := k + 1;
      }
      assert units == Collisions.ResolveCell(s0, c).units;
      haliteBoard := haliteBoard[c := 0.0];
    }

    /** The ship at table index k meets its fate if it is one of the colliding ships at cell c. */
    method CollideShipAt(ships: seq<UnitState>, leader: UnitState, second: real, c: nat, k: nat)
      requires |ships| >= 2 && k < |units|
      requires leader == ships[Collisions.LeaderIndex(ships)] && second == Collisions.SecondLargest(ships)
      modifies this
      ensures step == old(step) && haliteScore == old(haliteScore) && haliteBoard == old(haliteBoard)
      ensures var u := old(units[k]);
              units == old(units)[k := Collisions.CellFate(ships, u, c, step)]
    {
      if Collisions.ShipAt(units[k], c) {
        if units[k] == leader && Cargo(units[k]) != second {
          units := units[k := units[k].(halite := Some(Cargo(units[k]) - second))];
        } else {
          DeleteShip(k, Destroyed);
        }
      }
    }

    /** _detect_collision: ships on enemy shipyards first, then the board cell by cell. */
    method DetectCollision()
      requires Valid()
      modifies this
      ensures Snapshot() == Collisions.Collide(old(Snapshot()))
    {
      ghost var s0 := Snapshot();
      CollideWithShipyards();
      ghost var s1 := Snapshot();
      CollideAllCells();
      Collisions.CollideWellFormed(cfg, s0);
      Collisions.ResolveAllCells(cfg, s1);
    }

    /** The cell loop of _detect_collision, cells 0 .. size * size - 1 in order. */
    method CollideAllCells()
      modifies this
      ensures Snapshot() == Collisions.ResolveCells(old(Snapshot()), |old(haliteBoard)|)
    {
      ghost var s1 := Snapshot();
      var c := 0;
      while c < |haliteBoard|
        invariant c <= |haliteBoard| == |s1.haliteBoard|
        invariant Snapshot() == Collisions.ResolveCells(s1, c)
      {
        CollideShipsAt(c);
        c := c + 1;
      }
    }

    /** The loop of _collect_halite for one player: each of its active ships without an action entry deposits or mines. */
    method CollectPlayer(player: nat, actions: Turn.ActionMap)
      requires Valid() && player < |haliteScore|
      modifies this
      ensures Valid() && Snapshot() == Turn.CollectFrom(cfg, old(Snapshot()), player, actions, 0)
    {
      ghost var s0 := Snapshot();
      var k := 0;
      while k < |units|
        invariant Valid() && |haliteScore| == |s0.haliteScore| && |units| == |s0.units|
        invariant Turn.CollectFrom(cfg, Snapshot(), player, actions, k) == Turn.CollectFrom(cfg, s0, player, actions, 0)
      {
        if Turn.Idle(Snapshot(), player, actions, k) {
          ghost var s := Snapshot();
          var r;
          if FriendlyShipyardAt(Snapshot(), player, units[k].pos) {
            r := Deposit(player, k);
          } else {
            r := Mine(player, k);
          }
          assert Snapshot() == Turn.CollectOne(cfg, s, player, k);
        }
        k := k + 1;
      }
    }

    /** _collect_halite: zip(players, actions_list), player by player. */
    method CollectHalite(actionsList: seq<Turn.ActionMap>)
      requires Valid()
      modifies this
      ensures Snapshot() == Turn.Collect(cfg, old(Snapshot()), actionsList, 0)
    {
      ghost var s0 := Snapshot();
      var p := 0;
      while p < |haliteScore| && p < |actionsList|
        invariant Valid() && |haliteScore| == |s0.haliteScore|
        invariant Turn.Collect(cfg, Snapshot(), actionsList, p) == Turn.Collect(cfg, s0, actionsList, 0)
      {
        CollectPlayer(p, actionsList[p]);
        p := p + 1;
      }
    }

    /** _regenerate_halite: cell by cell, an unoccupied cell holding halite grows by halite * regen_rate. */
    method RegenerateHalite()
      modifies this
      ensures Snapshot() == Turn.Regenerate(cfg, old(Snapshot()))
    {
      ghost var s0 := Snapshot();
      ghost var goal := Turn.Regenerate(cfg, s0);
      var c := 0;
      while c < |haliteBoard|
        invariant c <= |haliteBoard| == |s0.haliteBoard|
        invariant step == s0.step && units == s0.units && haliteScore == s0.haliteScore
        invariant forall p :: 0 <= p < c ==> haliteBoard[p] == Turn.Regrown(cfg, s0, p)
        invariant forall p :: c <= p < |haliteBoard| ==> haliteBoard[p] == s0.haliteBoard[p]
      {
        RegenerateCell(c, s0);
        c := c + 1;
      }
      assert haliteBoard == goal.haliteBoard;
    }

    /** regenerate_board_cell for cell c, on a board whose cell c still holds what it held in s0. */
    method RegenerateCell(c: nat, ghost s0: State)
      requires c < |haliteBoard| == |s0.haliteBoard| && units == s0.units && haliteBoard[c] == s0.haliteBoard[c]
      modifies this
      ensures haliteBoard == old(haliteBoard)[c := Turn.Regrown(cfg, s0, c)]
      ensures step == old(step) && units == old(units) && haliteScore == old(haliteScore)
    {
      var vacant := Turn.Vacant(Snapshot(), c);
      assert vacant == Turn.Vacant(s0, c);
      var cell := haliteBoard[c];
      if vacant && cell != 0.0 {
        cell := cell + cell * cfg.regenRate;
      }
      assert cell == Turn.Regrown(cfg, s0, c);
      haliteBoard := haliteBoard[c := cell];
    }

    /** interpret_action on the unit at table index i: check the constant, then dispatch. */
    method InterpretAction(player: nat, i: nat, action: string) returns (r: Raise)
      requires Valid() && i < |units| && units[i].playerIndex == player && units[i].status == Active
      modifies this, uids
      ensures var o := Turn.InterpretAction(cfg, old(Current()), player, i, action);
              r == Report(o) && Current() == After(o, old(Current()))
      ensures Valid()
      ensures step == old(step) && |haliteScore| == old(|haliteScore|)
    {
      ghost var w0 := Current();
      var command := Turn.ParseAction(action);
      if command.None? {
        return Fatal(InvalidConstant(action));
      }
      match command.value
      case SpawnCmd => r := Spawn(player, i);
      case ConvertCmd => r := Convert(player, i);
      case MoveCmd(d) => r := Move(player, i, d);
    }

    /** The loop over one player's action dict in _interpret_actions. */
    method PlayerActions(player: nat, actions: Turn.ActionMap) returns (raised: Option<Abort>)
      requires Valid()
      modifies this, uids
      ensures Valid()
      ensures Turn.PlayerActions(cfg, old(Current()), player, actions) ==
              if raised.None? then Turn.Finished(Current()) else Turn.Raised(raised.value, uids.next)
    {
      ghost var w0 := Current();
      var k := 0;
      while k < |actions|
        invariant k <= |actions| && Valid()
        invariant Turn.PlayerActions(cfg, Current(), player, actions[k..]) == Turn.PlayerActions(cfg, w0, player, actions)
      {
        assert actions[k..] == [actions[k]] + actions[k + 1..];
        raised := PlayerAction(player, actions[k].0, actions[k].1, actions[k + 1..]);
        if raised.Some? {
          return;
        }
        k := k + 1;
      }
      assert actions[k..] == [];
      return None;
    }

    /** One entry of a player's action dict: look the uid up among the player's units, then interpret the action. */
    method PlayerAction(player: nat, uid: string, action: string, ghost rest: Turn.ActionMap) returns (raised: Option<Abort>)
      requires Valid()
      modifies this, uids
      ensures Valid()
      ensures Turn.PlayerActions(cfg, old(Current()), player, [(uid, action)] + rest) ==
              if raised.None? then Turn.PlayerActions(cfg, Current(), player, rest) else Turn.Raised(raised.value, uids.next)
    {
      assert ([(uid, action)] + rest)[0] == (uid, action) && ([(uid, action)] + rest)[1..] == rest;
      var found := Turn.LookupUnit(Snapshot(), player, uid);
      if found.None? {
        return Some(InvalidUnit(uid));
      }
      var r := InterpretAction(player, found.value, action);
      if r.Fatal? {
        return Some(r.error);
      }
      return None;
    }

    /** _interpret_actions: zip(players, actions_list), player by player, the first escaping error ending it. */
    method InterpretActions(actionsList: seq<Turn.ActionMap>) returns (raised: Option<Abort>)
      requires Valid()
      modifies this, uids
      ensures Valid()
      ensures Turn.ApplyActions(cfg, old(Current()), actionsList, 0) ==
              if raised.None? then Turn.Finished(Current()) else Turn.Raised(raised.value, uids.next)
    {
      ghost var w0 := Current();
      var p := 0;
      while p < |haliteScore| && p < |actionsList|
        invariant Valid() && |haliteScore| == |w0.state.haliteScore| && step == w0.state.step
        invariant Turn.ApplyActions(cfg, Current(), actionsList, p) == Turn.ApplyActions(cfg, w0, actionsList, 0)
      {
        ghost var w := Current();
        raised := PlayerActions(p, actionsList[p]);
        if raised.Some? {
          assert Turn.ApplyActions(cfg, w, actionsList, p) == Turn.Raised(raised.value, uids.next);
          return;
        }
        assert Turn.ApplyActions(cfg, w, actionsList, p) == Turn.ApplyActions(cfg, Current(), actionsList, p + 1);
        p := p + 1;
      }
      assert Turn.ApplyActions(cfg, Current(), actionsList, p) == Turn.Finished(Current());
      return None;
    }

    /** The passes of interpret after the actions: collisions, collection, regeneration. */
    method ResolveTurn(actionsList: seq<Turn.ActionMap>)
      requires Valid()
      modifies this
      ensures Snapshot() == Turn.Resolve(cfg, old(Snapshot()), actionsList)
    {
      ghost var s0 := Snapshot();
      DetectCollision();
      Collisions.CollideWellFormed(cfg, s0);
      CollectHalite(actionsList);
      RegenerateHalite();
    }

    /**
     * interpret: load the state, advance the step, then actions, collisions,
     * collection and regeneration; an escaping error ends the turn.
     */
    method Interpret(s: State, actionsList: seq<Turn.ActionMap>) returns (raised: Option<Abort>)
      requires WellFormed(cfg, s)
      modifies this, uids
      ensures var o := Turn.Interpret(cfg, World(s, old(uids.next)), actionsList);
              if raised.None? then o == Turn.Finished(Current()) else o == Turn.Raised(raised.value, uids.next)
    {
      ghost var w0 := World(s, uids.next);
      step, units, haliteScore, haliteBoard := s.step + 1, s.units, s.haliteScore, s.haliteBoard;
      assert Current() == w0.(state := s.(step := s.step + 1));
      raised := InterpretActions(actionsList);
      if raised.Some? {
        return;
      }
      ResolveTurn(actionsList);
    }

    // -------------------------------------------------------------------------
    // The first state.

    /**
     * initial: step 0, the starting balances and the normalized board, then
     * one ship per player at its start position, each with a fresh uid.
     */
    method Initial(grid: seq<seq<int>>) returns (r: Result<State, string>)
      requires 0 < cfg.size && Setup.QuarterGrid(cfg.size, grid)
      modifies this, uids
      ensures var o := Setup.Initial(cfg, nPlayers, startingHalite, grid, old(uids.next));
              (o.Failure? ==> r == Failure(o.error)) &&
              (o.Success? ==> r == Success(Snapshot()) && Current() == o.value)
    {
      var board := NormalizeHalite(cfg.size, cfg.halite, grid);
      if board.Failure? {
        return Failure(board.error);
      }
      step, units, haliteScore, haliteBoard := 0, [], seq(nPlayers, p => startingHalite), board.value;
      var positions := Setup.StartingPositions(cfg.size, nPlayers);
      Setup.StartingPositionsOnBoard(cfg.size, nPlayers);
      PlaceStartingShips(seq(nPlayers, p requires 0 <= p < nPlayers => positions[p] as nat));
      return Success(Snapshot());
    }

    /** The ships loop of initial: player p's ship at positions[p], under the next uid of the counter. */
    method PlaceStartingShips(positions: seq<nat>)
      requires units == [] && step == 0
      modifies this, uids
      ensures step == 0 && haliteScore == old(haliteScore) && haliteBoard == old(haliteBoard)
      ensures units == Setup.StartingShips(positions, old(uids.next)) && uids.next == old(uids.next) + |positions|
    {
      ghost var n0 := uids.next;
      ghost var ships := Setup.StartingShips(positions, n0);
      var p := 0;
      while p < |positions|
        invariant p <= |positions| && uids.next == n0 + p
        invariant step == 0 && haliteScore == old(haliteScore) && haliteBoard == old(haliteBoard)
        invariant units == ships[..p]
      {
        PlaceStartingShip(positions, p, n0);
        p := p + 1;
      }
    }

    /** One iteration of the ships loop of initial. */
    method PlaceStartingShip(positions: seq<nat>, p: nat, ghost n0: nat)
      requires p < |positions| && step == 0 && uids.next == n0 + p
      requires units == Setup.StartingShips(positions, n0)[..p]
      modifies this, uids
      ensures step == 0 && haliteScore == old(haliteScore) && haliteBoard == old(haliteBoard)
      ensures units == Setup.StartingShips(positions, n0)[..p + 1] && uids.next == n0 + p + 1
    {
      var uid := uids.CreateUid(step);
      var ship := CreateShip(uid, Some(positions[p]), p, step, None, 0.0);
      assert ship == Setup.StartingShips(positions, n0)[p];
      Setup.StartingShipsPut(positions, n0, p);
      units := Put(units, ship);
    }
  }
}
