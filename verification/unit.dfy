/**
 * The units of the object-based prototype, halite/interpreter/unit.py: a Ship
 * or a Shipyard object wraps a UnitState and its actions update that state in
 * place, together with the BoardMap cell it stands on. What the actions read
 * of the game (the step, the configuration, the owner's balance and
 * shipyards, the units in the cell) is passed in.
 */
module Unit {
  import opened Wrappers
  import opened StateModel
  import GameRules
  import Topology
  import Numbers
  import BoardMap

  /** The exceptions the unit actions raise. */
  datatype UnitError =
    | InactiveUnit(uid: string)
    | CantSpawn(message: string)
    | CantConvert(message: string)
    | CantDeposit(message: string)

  /** _assert_is_active: InactiveUnitError naming the unit unless it is ACTIVE. */
  function ActiveCheck(u: UnitState): (r: Option<UnitError>)
    ensures r.None? <==> u.status == Active
    ensures r.Some? ==> r.value == InactiveUnit(u.uid)
  {
    if u.status != Active then Some(InactiveUnit(u.uid)) else None
  }

  /** The ship Shipyard.spawn creates: empty, at the shipyard, owned by its player, created this step. */
  function SpawnedFrom(yard: UnitState, uid: string, step: int): (u: UnitState)
    ensures u.uid == uid && u.unitType == Ship && u.status == Active && u.halite == Some(0.0)
    ensures u.pos == yard.pos && u.playerIndex == yard.playerIndex && u.createdAt == step
    ensures u.spawnedFromUid == Some(yard.uid)
  {
    CreateShip(uid, yard.pos, yard.playerIndex, step, Some(yard.uid), 0.0)
  }

  /** The shipyard Ship.convert creates: where the ship stands, owned by its player, converted from it. */
  function ConvertedFrom(ship: UnitState, uid: string, step: int): (u: UnitState)
    ensures u.uid == uid && u.unitType == Shipyard && u.status == Active && u.halite.None?
    ensures u.pos == ship.pos && u.playerIndex == ship.playerIndex && u.createdAt == step
    ensures u.convertedFromUid == Some(ship.uid) && u.depositLog == Some([])
  {
    CreateShipyard(uid, ship.pos, ship.playerIndex, step, Some(ship.uid))
  }

  /** The cost Ship.convert charges: int() of convert_cost less the cargo, truncated toward zero. */
  function ConvertCharge(convertCost: real, ship: UnitState): (r: int)
    ensures var c := convertCost - GameRules.Cargo(ship);
            (0.0 <= c ==> r as real <= c < r as real + 1.0) && (c < 0.0 ==> r as real - 1.0 < c <= r as real)
  {
    Numbers.Trunc(convertCost - GameRules.Cargo(ship))
  }

  /**
   * Given the uid and step the turn interpreter would use, the prototype
   * spawns the same ship and converts to the same shipyard as game.py does.
   */
  lemma SameRulesAsGame(w: GameRules.World, u: UnitState)
    ensures SpawnedFrom(u, MakeUid(w.state.step, w.nextUid), w.state.step) == GameRules.SpawnedShip(w, u)
    ensures ConvertedFrom(u, MakeUid(w.state.step, w.nextUid), w.state.step) == GameRules.ConvertedYard(w, u)
  {
  }

  class Unit {
    var state: UnitState

    constructor (state: UnitState)
      ensures this.state == state
    {
      this.state := state;
    }

    /** What an active ship always has: a position and a cargo. */
    ghost predicate ShipOk()
      reads this
    {
      state.unitType == Ship && (state.status == Active ==> state.pos.Some? && state.halite.Some?)
    }

    // -------------------------------------------------------------------------
    // Shipyard

    /**
     * Shipyard.deposit: an active shipyard appends one record of the ship's
     * cargo to its deposit log; an inactive one raises and keeps its state.
     */
    method ReceiveDeposit(ship: UnitState, step: int) returns (err: Option<UnitError>)
      requires state.depositLog.Some?
      modifies this
      ensures err == ActiveCheck(old(state))
      ensures err.Some? ==> state == old(state)
      ensures err.None? ==>
                state == old(state).(depositLog := Some(old(state).depositLog.value +
                                                        [DepositRecord(step, old(state).uid, ship.uid, GameRules.Cargo(ship))]))
    {
      err := ActiveCheck(state);
      if err.None? {
        var entry := DepositRecord(step, state.uid, ship.uid, GameRules.Cargo(ship));
        state := state.(depositLog := Some(state.depositLog.value + [entry]));
      }
    }

    /**
     * Shipyard.spawn: an inactive shipyard raises InactiveUnitError, a balance
     * below spawn_cost raises CantSpawnError; otherwise the new ship and the
     * spawn cost are returned, the shipyard records the new uid, and the
     * balance is left to the caller.
     */
    method Spawn(uid: string, playerHalite: real, step: int, spawnCost: real)
      returns (r: Result<(UnitState, real), UnitError>)
      requires state.spawnedShipUids.Some?
      modifies this
      ensures old(state).status != Active ==> r == Failure(InactiveUnit(old(state).uid)) && state == old(state)
      ensures old(state).status == Active && playerHalite < spawnCost ==>
                r == Failure(CantSpawn("Insufficient halite.")) && state == old(state)
      ensures old(state).status == Active && spawnCost <= playerHalite ==>
                r == Success((SpawnedFrom(old(state), uid, step), spawnCost)) &&
                state == old(state).(spawnedShipUids := Some(old(state).spawnedShipUids.value + [uid]))
    {
      var err := ActiveCheck(state);
      if err.Some? {
        return Failure(err.value);
      }
      if playerHalite < spawnCost {
        return Failure(CantSpawn("Insufficient halite."));
      }
      var ship := SpawnedFrom(state, uid, step);
      state := state.(spawnedShipUids := Some(state.spawnedShipUids.value + [ship.uid]));
      r := Success((ship, spawnCost));
    }

    // -------------------------------------------------------------------------
    // Ship

    /** _delete: the ship loses its cargo and position, takes the status and records the step. */
    method Delete(status: UnitStatus, step: nat)
      modifies this
      ensures state == GameRules.Deleted(old(state), status, step)
    {
      state := state.(halite := None, pos := None, status := status, deletedAt := Some(step));
    }

    /**
     * Ship.move: the cargo shrinks by the factor 1 - move_cost and the ship
     * stands on the neighbouring cell of the map, exactly the ship game.py's
     * _move produces.
     */
    method Move(d: Topology.Direction, board: BoardMap.Map, cfg: GameRules.Configuration) returns (err: Option<UnitError>)
      requires ShipOk() && 0 < cfg.size
      requires board.Valid() && |board.cells| == cfg.size * cfg.size
      requires state.status == Active ==> state.pos.value < cfg.size * cfg.size
      modifies this
      ensures err == ActiveCheck(old(state))
      ensures err.Some? ==> state == old(state)
      ensures err.None? ==> state == GameRules.Moved(cfg, old(state), d)
      ensures ShipOk()
    {
      err := ActiveCheck(state);
      if err.None? {
        var next := board.Neighbour(cfg.size, state.pos.value, d);
        var cargo := GameRules.Cargo(state) * (1.0 - cfg.moveCost);
        ghost var moved := GameRules.Moved(cfg, state, d);
        assert moved.halite.value == cargo;
        state := state.(halite := Some(cargo), pos := Some(next.pos));
      }
    }

    /**
     * Ship.mine: the cargo grows by exactly what the occupied cell gives up,
     * so cargo and cell together hold what they held before.
     */
    method Mine(cell: BoardMap.Cell, collectRate: real) returns (err: Option<UnitError>)
      requires ShipOk() && (state.status == Active ==> state.pos == Some(cell.pos))
      modifies this, cell
      ensures err == ActiveCheck(old(state))
      ensures err.Some? ==> state == old(state) && cell.halite == old(cell.halite)
      ensures err.None? ==>
                cell.halite == BoardMap.MineSplit(old(cell.halite), collectRate).1 &&
                state == old(state).(halite := Some(old(state).halite.value + BoardMap.MineSplit(old(cell.halite), collectRate).0))
      ensures GameRules.Cargo(state) + cell.halite == GameRules.Cargo(old(state)) + old(cell.halite)
      ensures ShipOk()
    {
      err := ActiveCheck(state);
      if err.None? {
        var mined := cell.Mine(collectRate);
        state := state.(halite := Some(state.halite.value + mined));
      }
    }

    /**
     * Ship.convert: InactiveUnitError, then CantConvertError when the balance
     * is below convert_cost - cargo or one of the player's shipyards already
     * stands here; otherwise the new shipyard and int(convert_cost - cargo)
     * are returned, the cell is emptied and the ship is deleted as CONVERTED.
     */
    method Convert(uid: string, playerHalite: real, playerShipyards: seq<UnitState>, cell: BoardMap.Cell,
                   step: nat, convertCost: real)
      returns (r: Result<(UnitState, int), UnitError>)
      requires ShipOk() && (state.status == Active ==> state.pos == Some(cell.pos))
      modifies this, cell
      ensures old(state).status != Active ==>
                r == Failure(InactiveUnit(old(state).uid)) && state == old(state) && cell.halite == old(cell.halite)
      ensures old(state).status == Active && playerHalite < convertCost - GameRules.Cargo(old(state)) ==>
                r == Failure(CantConvert("Insufficient halite.")) && state == old(state) && cell.halite == old(cell.halite)
      ensures old(state).status == Active && convertCost - GameRules.Cargo(old(state)) <= playerHalite &&
              (exists y :: y in playerShipyards && y.pos == old(state).pos) ==>
                r == Failure(CantConvert("Shipyard already present.")) && state == old(state) && cell.halite == old(cell.halite)
      ensures old(state).status == Active && convertCost - GameRules.Cargo(old(state)) <= playerHalite &&
              (forall y :: y in playerShipyards ==> y.pos != old(state).pos) ==>
                r == Success((ConvertedFrom(old(state), uid, step), ConvertCharge(convertCost, old(state)))) &&
                cell.halite == 0.0 && state == GameRules.Deleted(old(state), Converted, step)
      ensures ShipOk()
    {
      var err := ActiveCheck(state);
      if err.Some? {
        return Failure(err.value);
      }
      if playerHalite < convertCost - state.halite.value {
        return Failure(CantConvert("Insufficient halite."));
      }
      var k := 0;
      while k < |playerShipyards|
        invariant k <= |playerShipyards|
        invariant forall j :: 0 <= j < k ==> playerShipyards[j].pos != state.pos
      {
        if playerShipyards[k].pos == state.pos {
          return Failure(CantConvert("Shipyard already present."));
        }
        k := k + 1;
      }
      var shipyard := ConvertedFrom(state, uid, step);
      var cost := Numbers.Trunc(convertCost - state.halite.value);
      cell.Convert();
      Delete(Converted, step);
      r := Success((shipyard, cost));
    }

    /** A unit of the cell that Ship.deposit may deposit at: a shipyard of the same player. */
    predicate FriendlyYard(u: Unit)
      reads this, u
    {
      u.state.playerIndex == state.playerIndex && u.state.unitType == Shipyard
    }

    /** The index of the first friendly shipyard among occupants[from..], if any. */
    function FirstFriendlyYard(occupants: seq<Unit>, from: nat): (r: Option<nat>)
      reads this, set u | u in occupants
      decreases |occupants| - from
      ensures r.None? <==> forall j :: from <= j < |occupants| ==> !FriendlyYard(occupants[j])
      ensures r.Some? ==> from <= r.value < |occupants| && FriendlyYard(occupants[r.value]) &&
                          forall j :: from <= j < r.value ==> !FriendlyYard(occupants[j])
    {
      if from >= |occupants| then None
      else if FriendlyYard(occupants[from]) then Some(from)
      else FirstFriendlyYard(occupants, from + 1)
    }

    /**
     * Ship.deposit: InactiveUnitError, then CantDepositError when no shipyard
     * of the player is among the units of the cell; otherwise the first such
     * shipyard logs the cargo (raising if it is inactive), and the ship
     * returns its cargo and keeps none. No other unit changes.
     */
    method Deposit(occupants: seq<Unit>, step: int) returns (r: Result<real, UnitError>)
      requires ShipOk()
      requires forall u :: u in occupants ==> u.state.pos == state.pos
      requires forall u :: u in occupants && u.state.unitType == Shipyard ==> u.state.depositLog.Some?
      modifies this, set u | u in occupants
      ensures ShipOk()
      ensures forall u :: u in occupants && u != this && !old(FriendlyYard(u)) ==> u.state == old(u.state)
      ensures old(state).status != Active ==> r == Failure(InactiveUnit(old(state).uid)) && state == old(state)
      ensures old(state).status == Active && old(FirstFriendlyYard(occupants, 0)).None? ==>
                r == Failure(CantDeposit("Not over a friendly shipyard.")) && state == old(state)
      ensures old(state).status == Active && old(FirstFriendlyYard(occupants, 0)).Some? ==>
                var yard := occupants[old(FirstFriendlyYard(occupants, 0)).value];
                (forall u :: u in occupants && u != this && u != yard ==> u.state == old(u.state)) &&
                (old(yard.state).status != Active ==>
                   r == Failure(InactiveUnit(old(yard.state).uid)) && state == old(state) && yard.state == old(yard.state)) &&
                (old(yard.state).status == Active ==>
                   r == Success(old(state).halite.value) && state == old(state).(halite := Some(0.0)) &&
                   yard.state == old(yard.state).(depositLog := Some(old(yard.state).depositLog.value +
                                                    [DepositRecord(step, old(yard.state).uid, old(state).uid, old(state).halite.value)])))
    {
      var err := ActiveCheck(state);
      if err.Some? {
        return Failure(err.value);
      }
      var k := FirstFriendlyYard(occupants, 0);
      if k.None? {
        return Failure(CantDeposit("Not over a friendly shipyard."));
      }
      var yard := occupants[k.value];
      err := yard.ReceiveDeposit(state, step);
      if err.Some? {
        return Failure(err.value);
      }
      var halite := state.halite.value;
      state := state.(halite := Some(0.0));
      r := Success(halite);
    }

    /** Ship.destroy: InactiveUnitError, or the ship is deleted as DESTROYED. */
    method Destroy(step: nat) returns (err: Option<UnitError>)
      requires ShipOk()
      modifies this
      ensures err == ActiveCheck(old(state))
      ensures err.Some? ==> state == old(state)
      ensures err.None? ==> state == GameRules.Deleted(old(state), Destroyed, step)
      ensures ShipOk()
    {
      err := ActiveCheck(state);
      if err.None? {
        Delete(Destroyed, step);
      }
    }

    /** Ship.damage: InactiveUnitError, or the cargo drops by exactly the amount. */
    method Damage(amount: real) returns (err: Option<UnitError>)
      requires ShipOk()
      modifies this
      ensures err == ActiveCheck(old(state))
      ensures err.Some? ==> state == old(state)
      ensures err.None? ==> state == old(state).(halite := Some(old(state).halite.value - amount))
      ensures GameRules.Cargo(state) == GameRules.Cargo(old(state)) - (if err.None? then amount else 0.0)
      ensures ShipOk()
    {
      err := ActiveCheck(state);
      if err.None? {
        state := state.(halite := Some(state.halite.value - amount));
      }
    }
  }
}
