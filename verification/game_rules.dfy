/**
 * The per-unit rules of the turn interpreter (halite/interpreter/game.py):
 * spawning, converting, moving, mining, depositing and deleting a ship, each
 * as a function from the state before to the state after, together with the
 * halite ledger they move balances, cargo and cells on.
 */
module GameRules {
  import opened Wrappers
  import opened StateModel
  import Topology
  import PlayerView

  /** The configuration values the rules read. */
  datatype Configuration = Configuration(
    size: nat,
    spawnCost: real,
    convertCost: real,
    moveCost: real,
    collectRate: real,
    regenRate: real,
    halite: real)

  /** The state together with the process-wide uid counter that every created unit advances. */
  datatype World = World(state: State, nextUid: nat)

  /**
   * What the rules rely on in a loaded state: one balance per player, one
   * cell per position, distinct uids, and every active unit on the board
   * (an active ship also carrying a cargo).
   */
  predicate UnitOk(cfg: Configuration, players: nat, u: UnitState)
  {
    u.playerIndex < players &&
    (u.status == Active ==> u.pos.Some? && u.pos.value < cfg.size * cfg.size) &&
    (u.status == Active && u.unitType == Ship ==> u.halite.Some?)
  }

  predicate WellFormed(cfg: Configuration, s: State)
  {
    0 < cfg.size && |s.haliteBoard| == cfg.size * cfg.size && DistinctUids(s.units) &&
    forall k :: 0 <= k < |s.units| ==> UnitOk(cfg, |s.haliteScore|, s.units[k])
  }

  /** A balance paid from: the player's entry drops by the amount and no other entry changes. */
  function Charge(scores: seq<real>, player: nat, amount: real): (r: seq<real>)
    requires player < |scores|
    ensures |r| == |scores| && r[player] == scores[player] - amount
    ensures forall q :: 0 <= q < |scores| && q != player ==> r[q] == scores[q]
  {
    scores[player := scores[player] - amount]
  }

  /** Charging a balance takes the amount out of the sum of all balances. */
  lemma SumCharge(scores: seq<real>, player: nat, amount: real)
    requires player < |scores|
    ensures Sum(Charge(scores, player, amount)) == Sum(scores) - amount
  {
    SumUpdate(scores, player, scores[player] - amount);
  }

  /** The cargo a unit carries; a shipyard or a deleted ship carries None, which holds no halite. */
  function Cargo(u: UnitState): real
  {
    if u.halite.Some? then u.halite.value else 0.0
  }

  // ---------------------------------------------------------------------------
  // The halite ledger: balances, cargo and cells.

  function Sum(xs: seq<real>): real
  {
    if xs == [] then 0.0 else Sum(xs[..|xs| - 1]) + xs[|xs| - 1]
  }

  function SumCargo(units: seq<UnitState>): real
  {
    if units == [] then 0.0 else SumCargo(units[..|units| - 1]) + Cargo(units[|units| - 1])
  }

  /** All the halite in the game: every balance, every cargo and every cell. */
  function TotalHalite(s: State): real
  {
    Sum(s.haliteScore) + SumCargo(s.units) + Sum(s.haliteBoard)
  }

  /** Replacing one entry changes the sum by the difference. */
  lemma {:induction false} SumUpdate(xs: seq<real>, i: nat, v: real)
    requires i < |xs|
    ensures Sum(xs[i := v]) == Sum(xs) - xs[i] + v
    decreases |xs|
  {
    var ys := xs[i := v];
    if i < |xs| - 1 {
      assert ys[..|ys| - 1] == xs[..|xs| - 1][i := v];
      SumUpdate(xs[..|xs| - 1], i, v);
    } else {
      assert ys[..|ys| - 1] == xs[..|xs| - 1];
    }
  }

  /** Replacing one unit changes the cargo sum by the difference of cargo. */
  lemma {:induction false} SumCargoUpdate(units: seq<UnitState>, i: nat, u: UnitState)
    requires i < |units|
    ensures SumCargo(units[i := u]) == SumCargo(units) - Cargo(units[i]) + Cargo(u)
    decreases |units|
  {
    var vs := units[i := u];
    if i < |units| - 1 {
      assert vs[..|vs| - 1] == units[..|units| - 1][i := u];
      SumCargoUpdate(units[..|units| - 1], i, u);
    } else {
      assert vs[..|vs| - 1] == units[..|units| - 1];
    }
  }

  /** Appending a unit adds its cargo. */
  lemma SumCargoAppend(units: seq<UnitState>, u: UnitState)
    ensures SumCargo(units + [u]) == SumCargo(units) + Cargo(u)
  {
    assert (units + [u])[..|units|] == units;
  }

  // ---------------------------------------------------------------------------
  // Outcomes of one action.

  /** ImpossibleAction and IllegalAction: logged or ignored, and the turn goes on. */
  datatype Refusal = InactiveUnit(uid: string) | CantSpawn | CantConvert | CantDeposit

  /** Errors that escape the turn: an unknown uid, an unknown action, a failed assert. */
  datatype Abort = InvalidUnit(uid: string) | InvalidConstant(value: string) | AssertionFailed(uid: string)

  datatype ActionOutcome = Applied(world: World) | Refused(reason: Refusal) | Aborted(error: Abort)

  /**
   * _assert_valid_action: the unit must be the player's and of the required
   * type (an AssertionError otherwise), and active (InactiveUnitError otherwise).
   */
  function ValidateUnit(s: State, player: nat, i: nat, t: UnitType): (r: Option<ActionOutcome>)
    requires i < |s.units|
    ensures r.None? <==> s.units[i].playerIndex == player && s.units[i].unitType == t && s.units[i].status == Active
    ensures r.Some? ==> !r.value.Applied?
    ensures r.Some? && (s.units[i].playerIndex != player || s.units[i].unitType != t) ==>
              r.value == Aborted(AssertionFailed(s.units[i].uid))
    ensures r.Some? && s.units[i].playerIndex == player && s.units[i].unitType == t ==>
              r.value == Refused(InactiveUnit(s.units[i].uid))
  {
    var u := s.units[i];
    if u.playerIndex != player || u.unitType != t then Some(Aborted(AssertionFailed(u.uid)))
    else if u.status != Active then Some(Refused(InactiveUnit(u.uid)))
    else None
  }

  /** The unit after _delete_ship: no cargo, no position, the given status, deleted at this step. */
  function Deleted(u: UnitState, status: UnitStatus, step: nat): (r: UnitState)
    ensures r.uid == u.uid && r.unitType == u.unitType && r.playerIndex == u.playerIndex
    ensures r.halite.None? && r.pos.None? && r.status == status && r.deletedAt == Some(step)
    ensures Cargo(r) == 0.0
  {
    u.(halite := None, pos := None, status := status, deletedAt := Some(step))
  }

  /** _delete_ship: only the ship's entry changes; the halite it carried leaves the game. */
  function DeleteShip(s: State, i: nat, status: UnitStatus): (r: State)
    requires i < |s.units|
    ensures r.step == s.step && r.haliteScore == s.haliteScore && r.haliteBoard == s.haliteBoard
    ensures |r.units| == |s.units| && r.units[i] == Deleted(s.units[i], status, s.step)
    ensures forall k :: 0 <= k < |s.units| && k != i ==> r.units[k] == s.units[k]
    ensures TotalHalite(r) == TotalHalite(s) - Cargo(s.units[i])
  {
    var r := s.(units := s.units[i := Deleted(s.units[i], status, s.step)]);
    SumCargoUpdate(s.units, i, Deleted(s.units[i], status, s.step));
    r
  }

  /** The player has an active shipyard at the position: player.shipyards searched by position. */
  predicate FriendlyShipyardAt(s: State, player: nat, pos: Option<nat>)
  {
    exists y :: y in PlayerView.Shipyards(s, player) && y.pos == pos
  }

  // ---------------------------------------------------------------------------
  // _spawn

  /** The ship _spawn creates: at the shipyard, owned by its player, empty, created this step. */
  function SpawnedShip(w: World, yard: UnitState): (u: UnitState)
    ensures u.uid == MakeUid(w.state.step, w.nextUid) && u.unitType == Ship && u.status == Active
    ensures u.pos == yard.pos && u.playerIndex == yard.playerIndex && u.createdAt == w.state.step
    ensures u.spawnedFromUid == Some(yard.uid) && u.halite == Some(0.0)
  {
    CreateShip(MakeUid(w.state.step, w.nextUid), yard.pos, yard.playerIndex, w.state.step, Some(yard.uid), 0.0)
  }

  /**
   * _spawn: CantSpawn when the player's balance is below spawn_cost;
   * otherwise the balance drops by exactly spawn_cost and a new ship joins
   * the unit table, drawing one uid from the counter.
   */
  function Spawn(cfg: Configuration, w: World, player: nat, i: nat): (r: ActionOutcome)
    requires WellFormed(cfg, w.state) && i < |w.state.units|
    ensures ValidateUnit(w.state, player, i, Shipyard).Some? ==> r == ValidateUnit(w.state, player, i, Shipyard).value
    ensures ValidateUnit(w.state, player, i, Shipyard).None? ==>
              (r.Refused? <==> w.state.haliteScore[player] < cfg.spawnCost) && (r.Refused? ==> r.reason == CantSpawn)
    ensures r.Applied? ==>
              var s, s' := w.state, r.world.state;
              r.world.nextUid == w.nextUid + 1 && s'.step == s.step && s'.haliteBoard == s.haliteBoard &&
              s'.haliteScore == s.haliteScore[player := s.haliteScore[player] - cfg.spawnCost] &&
              s'.units == Put(s.units, SpawnedShip(w, s.units[i]))
  {
    var s := w.state;
    var yard := s.units[i];
    match ValidateUnit(s, player, i, Shipyard)
    case Some(err) => err
    case None =>
      if s.haliteScore[player] < cfg.spawnCost then Refused(CantSpawn)
      else
        var score := s.haliteScore[player := s.haliteScore[player] - cfg.spawnCost];
        Applied(World(s.(haliteScore := score, units := Put(s.units, SpawnedShip(w, yard))), w.nextUid + 1))
  }

  // ---------------------------------------------------------------------------
  // _convert

  /** The shipyard _convert creates: where the ship stood, owned by its player, converted from it. */
  function ConvertedYard(w: World, ship: UnitState): (u: UnitState)
    ensures u.uid == MakeUid(w.state.step, w.nextUid) && u.unitType == Shipyard && u.status == Active
    ensures u.pos == ship.pos && u.playerIndex == ship.playerIndex && u.createdAt == w.state.step
    ensures u.convertedFromUid == Some(ship.uid) && u.halite.None?
  {
    CreateShipyard(MakeUid(w.state.step, w.nextUid), ship.pos, ship.playerIndex, w.state.step, Some(ship.uid))
  }

  /** The cost _convert charges: convert_cost less the ship's cargo. */
  function ConvertCost(cfg: Configuration, ship: UnitState): real
  {
    cfg.convertCost - Cargo(ship)
  }

  /**
   * The state after a successful _convert: the balance pays the cost, a
   * shipyard joins the table, the cell is emptied, and the ship entry (looked
   * up again by uid) records the shipyard and is deleted as CONVERTED.
   */
  function AfterConvert(cfg: Configuration, w: World, i: nat): (r: World)
    requires WellFormed(cfg, w.state) && i < |w.state.units|
    requires w.state.units[i].unitType == Ship && w.state.units[i].status == Active
    ensures var s, s', ship := w.state, r.state, w.state.units[i];
            var yard := ConvertedYard(w, ship);
            r.nextUid == w.nextUid + 1 && s'.step == s.step &&
            s'.haliteScore == Charge(s.haliteScore, ship.playerIndex, ConvertCost(cfg, ship)) &&
            s'.haliteBoard == s.haliteBoard[ship.pos.value := 0.0] &&
            (yard.uid !in Uids(s.units) ==>
               s'.units == s.units[i := Deleted(ship.(convertedToUid := Some(yard.uid)), Converted, s.step)] + [yard])
  {
    var s := w.state;
    var ship := s.units[i];
    assert UnitOk(cfg, |s.haliteScore|, ship);
    var player := ship.playerIndex;
    var yard := ConvertedYard(w, ship);
    var units := Put(s.units, yard);
    assert ship.uid in Uids(s.units);
    var j := IndexOf(units, ship.uid).value;
    var s1 := s.(haliteScore := Charge(s.haliteScore, player, ConvertCost(cfg, ship)),
                 units := units[j := units[j].(convertedToUid := Some(yard.uid))],
                 haliteBoard := s.haliteBoard[ship.pos.value := 0.0]);
    assert yard.uid !in Uids(s.units) ==> j == i && units == s.units + [yard] by {
      if yard.uid !in Uids(s.units) {
        assert units == s.units + [yard] && units[i].uid == ship.uid;
      }
    }
    World(DeleteShip(s1, j, Converted), w.nextUid + 1)
  }

  /** With distinct uids, looking up the uid of entry i finds entry i. */
  lemma IndexOfDistinct(units: seq<UnitState>, i: nat)
    requires DistinctUids(units) && i < |units|
    ensures IndexOf(units, units[i].uid) == Some(i)
  {
    assert units[i].uid in Uids(units);
  }

  /** Uids are distinct, so after the shipyard is put the lookup by uid finds the converted ship where it was. */
  lemma ConvertedShipIndex(cfg: Configuration, w: World, i: nat)
    requires WellFormed(cfg, w.state) && i < |w.state.units|
    ensures IndexOf(Put(w.state.units, ConvertedYard(w, w.state.units[i])), w.state.units[i].uid) == Some(i)
  {
    var units := w.state.units;
    var yard := ConvertedYard(w, units[i]);
    var table := Put(units, yard);
    match IndexOf(units, yard.uid)
    case None =>
      assert table[i] == units[i];
    case Some(m) =>
      assert table[i] == if m == i then yard else units[i];
      if m == i {
        assert yard.uid == units[i].uid;
      }
    IndexOfDistinct(table, i);
  }

  /** AfterConvert from its parts: the table with the shipyard put and the ship's entry marked, then the deletion. */
  lemma AfterConvertParts(cfg: Configuration, w: World, i: nat, j: nat, units: seq<UnitState>)
    requires WellFormed(cfg, w.state) && i < |w.state.units|
    requires w.state.units[i].unitType == Ship && w.state.units[i].status == Active
    requires units == Put(w.state.units, ConvertedYard(w, w.state.units[i]))
    requires IndexOf(units, w.state.units[i].uid) == Some(j)
    ensures var s, ship := w.state, w.state.units[i];
            AfterConvert(cfg, w, i) ==
            World(DeleteShip(s.(haliteScore := Charge(s.haliteScore, ship.playerIndex, ConvertCost(cfg, ship)),
                                units := units[j := units[j].(convertedToUid := Some(ConvertedYard(w, ship).uid))],
                                haliteBoard := s.haliteBoard[ship.pos.value := 0.0]), j, Converted),
                  w.nextUid + 1)
  {
  }

  /**
   * _convert: CantConvert when the balance is below convert_cost - cargo or
   * the player already has a shipyard there; otherwise AfterConvert.
   */
  function Convert(cfg: Configuration, w: World, player: nat, i: nat): (r: ActionOutcome)
    requires WellFormed(cfg, w.state) && i < |w.state.units|
    ensures ValidateUnit(w.state, player, i, Ship).Some? ==> r == ValidateUnit(w.state, player, i, Ship).value
    ensures ValidateUnit(w.state, player, i, Ship).None? ==>
              (r.Refused? <==> w.state.haliteScore[player] < ConvertCost(cfg, w.state.units[i]) ||
                               FriendlyShipyardAt(w.state, player, w.state.units[i].pos)) &&
              (r.Refused? ==> r.reason == CantConvert) &&
              (r.Applied? ==> r.world == AfterConvert(cfg, w, i))
  {
    var s := w.state;
    var ship := s.units[i];
    match ValidateUnit(s, player, i, Ship)
    case Some(err) => err
    case None =>
      if s.haliteScore[player] < ConvertCost(cfg, ship) || FriendlyShipyardAt(s, player, ship.pos) then Refused(CantConvert)
      else Applied(AfterConvert(cfg, w, i))
  }

  // ---------------------------------------------------------------------------
  // _move, _mine, _deposit

  /** The ship after _move: the cargo shrinks by the factor 1 - move_cost and it stands on the neighbouring cell. */
  function Moved(cfg: Configuration, ship: UnitState, d: Topology.Direction): (u: UnitState)
    requires 0 < cfg.size && ship.pos.Some?
    ensures u.halite == Some(Cargo(ship) * (1.0 - cfg.moveCost))
    ensures u.pos == Some(Topology.Neighbour(cfg.size, ship.pos.value, d))
    ensures u == ship.(halite := u.halite, pos := u.pos)
  {
    ship.(halite := Some(Cargo(ship) * (1.0 - cfg.moveCost)), pos := Some(Topology.Neighbour(cfg.size, ship.pos.value, d)))
  }

  /** _move: only the ship's entry changes, to Moved. */
  function Move(cfg: Configuration, w: World, player: nat, i: nat, d: Topology.Direction): (r: ActionOutcome)
    requires WellFormed(cfg, w.state) && i < |w.state.units|
    ensures ValidateUnit(w.state, player, i, Ship).Some? ==> r == ValidateUnit(w.state, player, i, Ship).value
    ensures ValidateUnit(w.state, player, i, Ship).None? ==>
              r.Applied? && r.world == w.(state := w.state.(units := w.state.units[i := Moved(cfg, w.state.units[i], d)]))
  {
    var s := w.state;
    var ship := s.units[i];
    match ValidateUnit(s, player, i, Ship)
    case Some(err) => err
    case None =>
      assert UnitOk(cfg, |s.haliteScore|, ship);
      Applied(w.(state := s.(units := s.units[i := Moved(cfg, ship, d)])))
  }

  /** An active ship of the given player: what _assert_valid_action lets through for a ship. */
  predicate ActiveShipOf(s: State, player: nat, i: nat)
  {
    i < |s.units| && s.units[i].playerIndex == player && s.units[i].unitType == Ship && s.units[i].status == Active
  }

  /** The amount _mine extracts: max(cell * collect_rate, 1), so never below one. */
  function MinedAmount(cfg: Configuration, cell: real): (m: real)
    ensures m >= 1.0 && m >= cell * cfg.collectRate
    ensures m == cell * cfg.collectRate || m == 1.0
  {
    if cell * cfg.collectRate >= 1.0 then cell * cfg.collectRate else 1.0
  }

  /** The body of _mine for an active ship: cargo gains what the cell loses, with no clamp on the cell. */
  function MineShip(cfg: Configuration, s: State, i: nat): (r: State)
    requires WellFormed(cfg, s) && i < |s.units| && s.units[i].unitType == Ship && s.units[i].status == Active
    ensures var pos, m := s.units[i].pos.value, MinedAmount(cfg, s.haliteBoard[s.units[i].pos.value]);
            r.step == s.step && r.haliteScore == s.haliteScore &&
            r.units == s.units[i := s.units[i].(halite := Some(Cargo(s.units[i]) + m))] &&
            r.haliteBoard == s.haliteBoard[pos := s.haliteBoard[pos] - m]
    ensures TotalHalite(r) == TotalHalite(s)
  {
    var ship := s.units[i];
    var pos := ship.pos.value;
    var m := MinedAmount(cfg, s.haliteBoard[pos]);
    var mined := ship.(halite := Some(ship.halite.value + m));
    SumCargoUpdate(s.units, i, mined);
    SumUpdate(s.haliteBoard, pos, s.haliteBoard[pos] - m);
    s.(units := s.units[i := mined], haliteBoard := s.haliteBoard[pos := s.haliteBoard[pos] - m])
  }

  /** _mine with its validity check. */
  function Mine(cfg: Configuration, w: World, player: nat, i: nat): (r: ActionOutcome)
    requires WellFormed(cfg, w.state) && i < |w.state.units|
    ensures ValidateUnit(w.state, player, i, Ship).Some? ==> r == ValidateUnit(w.state, player, i, Ship).value
    ensures ValidateUnit(w.state, player, i, Ship).None? ==> r == Applied(w.(state := MineShip(cfg, w.state, i)))
  {
    match ValidateUnit(w.state, player, i, Ship)
    case Some(err) => err
    case None => Applied(w.(state := MineShip(cfg, w.state, i)))
  }

  /** The body of _deposit for an active ship: the cargo moves onto the player's balance. */
  function DepositShip(cfg: Configuration, s: State, player: nat, i: nat): (r: State)
    requires WellFormed(cfg, s) && i < |s.units| && player < |s.haliteScore|
    ensures r.step == s.step && r.haliteBoard == s.haliteBoard
    ensures r.haliteScore == s.haliteScore[player := s.haliteScore[player] + Cargo(s.units[i])]
    ensures r.units == s.units[i := s.units[i].(halite := Some(0.0))]
    ensures TotalHalite(r) == TotalHalite(s)
  {
    var ship := s.units[i];
    var emptied := ship.(halite := Some(0.0));
    SumCargoUpdate(s.units, i, emptied);
    SumUpdate(s.haliteScore, player, s.haliteScore[player] + Cargo(ship));
    s.(haliteScore := s.haliteScore[player := s.haliteScore[player] + Cargo(ship)], units := s.units[i := emptied])
  }

  /** _deposit: CantDeposit unless a friendly shipyard stands on the ship's cell. */
  function Deposit(cfg: Configuration, w: World, player: nat, i: nat): (r: ActionOutcome)
    requires WellFormed(cfg, w.state) && i < |w.state.units|
    ensures ValidateUnit(w.state, player, i, Ship).Some? ==> r == ValidateUnit(w.state, player, i, Ship).value
    ensures ValidateUnit(w.state, player, i, Ship).None? ==>
              if FriendlyShipyardAt(w.state, player, w.state.units[i].pos)
              then r == Applied(w.(state := DepositShip(cfg, w.state, player, i)))
              else r == Refused(CantDeposit)
  {
    match ValidateUnit(w.state, player, i, Ship)
    case Some(err) => err
    case None =>
      if FriendlyShipyardAt(w.state, player, w.state.units[i].pos)
      then Applied(w.(state := DepositShip(cfg, w.state, player, i)))
      else Refused(CantDeposit)
  }

  // ---------------------------------------------------------------------------
  // What each action does to the ledger and to well-formedness.

  /** Every unit of the list satisfies UnitOk. */
  predicate AllOk(cfg: Configuration, players: nat, units: seq<UnitState>)
  {
    forall k :: 0 <= k < |units| ==> UnitOk(cfg, players, units[k])
  }

  lemma PutOk(cfg: Configuration, players: nat, units: seq<UnitState>, u: UnitState)
    requires AllOk(cfg, players, units) && UnitOk(cfg, players, u)
    ensures AllOk(cfg, players, Put(units, u))
  {
  }

  lemma UpdateOk(cfg: Configuration, players: nat, units: seq<UnitState>, i: nat, u: UnitState)
    requires AllOk(cfg, players, units) && UnitOk(cfg, players, u) && i < |units|
    ensures AllOk(cfg, players, units[i := u])
  {
  }

  /** Replacing a unit by one with the same uid keeps the uids distinct. */
  lemma UpdateDistinct(units: seq<UnitState>, i: nat, u: UnitState)
    requires DistinctUids(units) && i < |units| && u.uid == units[i].uid
    ensures DistinctUids(units[i := u])
  {
  }

  /** A successful spawn keeps the state well formed, whether or not the new uid was already taken. */
  lemma SpawnWellFormed(cfg: Configuration, w: World, player: nat, i: nat)
    requires WellFormed(cfg, w.state) && i < |w.state.units| && Spawn(cfg, w, player, i).Applied?
    ensures var s' := Spawn(cfg, w, player, i).world.state;
            WellFormed(cfg, s') && |s'.haliteScore| == |w.state.haliteScore|
  {
    var s := w.state;
    assert UnitOk(cfg, |s.haliteScore|, s.units[i]);
    PutOk(cfg, |s.haliteScore|, s.units, SpawnedShip(w, s.units[i]));
  }

  /** A successful spawn with a fresh uid removes exactly spawn_cost from the game. */
  lemma SpawnLedger(cfg: Configuration, w: World, player: nat, i: nat)
    requires WellFormed(cfg, w.state) && i < |w.state.units| && Spawn(cfg, w, player, i).Applied?
    requires MakeUid(w.state.step, w.nextUid) !in Uids(w.state.units)
    ensures TotalHalite(Spawn(cfg, w, player, i).world.state) == TotalHalite(w.state) - cfg.spawnCost
  {
    var s := w.state;
    var ship := SpawnedShip(w, s.units[i]);
    SumUpdate(s.haliteScore, player, s.haliteScore[player] - cfg.spawnCost);
    SumCargoAppend(s.units, ship);
  }

  /**
   * A successful convert keeps the state well formed, whether or not the new
   * uid was already taken (a taken uid overwrites that entry, as a dict does).
   */
  lemma ConvertWellFormed(cfg: Configuration, w: World, i: nat)
    requires WellFormed(cfg, w.state) && i < |w.state.units|
    requires w.state.units[i].unitType == Ship && w.state.units[i].status == Active
    ensures WellFormed(cfg, AfterConvert(cfg, w, i).state)
    ensures |AfterConvert(cfg, w, i).state.haliteScore| == |w.state.haliteScore|
  {
    var s := w.state;
    var players := |s.haliteScore|;
    var ship := s.units[i];
    assert UnitOk(cfg, players, ship);
    var yard := ConvertedYard(w, ship);
    var units := Put(s.units, yard);
    PutOk(cfg, players, s.units, yard);
    assert ship.uid in Uids(s.units);
    var j := IndexOf(units, ship.uid).value;
    var marked := units[j].(convertedToUid := Some(yard.uid));
    assert UnitOk(cfg, players, units[j]);
    UpdateOk(cfg, players, units, j, marked);
    UpdateDistinct(units, j, marked);
    var units1 := units[j := marked];
    var gone := Deleted(marked, Converted, s.step);
    UpdateOk(cfg, players, units1, j, gone);
    UpdateDistinct(units1, j, gone);
    assert AfterConvert(cfg, w, i).state.units == units1[j := gone];
  }

  /**
   * A successful convert removes convert_cost from the game (the cargo it is
   * paid with leaves the ship) together with the halite of the emptied cell.
   */
  lemma ConvertLedger(cfg: Configuration, w: World, i: nat)
    requires WellFormed(cfg, w.state) && i < |w.state.units|
    requires w.state.units[i].unitType == Ship && w.state.units[i].status == Active
    requires MakeUid(w.state.step, w.nextUid) !in Uids(w.state.units)
    ensures var s := w.state;
            TotalHalite(AfterConvert(cfg, w, i).state) ==
            TotalHalite(s) - cfg.convertCost - s.haliteBoard[s.units[i].pos.value]
  {
    var s := w.state;
    var ship := s.units[i];
    assert UnitOk(cfg, |s.haliteScore|, ship);
    var p, pos := ship.playerIndex, ship.pos.value;
    var cost := ConvertCost(cfg, ship);
    var yard := ConvertedYard(w, ship);
    var gone := Deleted(ship.(convertedToUid := Some(yard.uid)), Converted, s.step);
    var s' := AfterConvert(cfg, w, i).state;
    assert Sum(s'.haliteScore) == Sum(s.haliteScore) - cost by {
      SumCharge(s.haliteScore, p, cost);
    }
    assert Sum(s'.haliteBoard) == Sum(s.haliteBoard) - s.haliteBoard[pos] by {
      SumUpdate(s.haliteBoard, pos, 0.0);
    }
    assert SumCargo(s'.units) == SumCargo(s.units) - Cargo(ship) by {
      assert s'.units == s.units[i := gone] + [yard];
      SumCargoUpdate(s.units, i, gone);
      SumCargoAppend(s.units[i := gone], yard);
    }
  }

  /** A move keeps the state well formed and removes move_cost of the ship's cargo from the game. */
  lemma MoveLedger(cfg: Configuration, w: World, player: nat, i: nat, d: Topology.Direction)
    requires WellFormed(cfg, w.state) && i < |w.state.units| && ValidateUnit(w.state, player, i, Ship).None?
    ensures var s' := Move(cfg, w, player, i, d).world.state;
            WellFormed(cfg, s') && |s'.haliteScore| == |w.state.haliteScore| &&
            TotalHalite(s') == TotalHalite(w.state) - Cargo(w.state.units[i]) * cfg.moveCost
  {
    var s := w.state;
    var ship := s.units[i];
    assert UnitOk(cfg, |s.haliteScore|, ship);
    var moved := Moved(cfg, ship, d);
    Topology.NeighbourOnBoard(cfg.size, ship.pos.value, d);
    UpdateOk(cfg, |s.haliteScore|, s.units, i, moved);
    UpdateDistinct(s.units, i, moved);
    SumCargoUpdate(s.units, i, moved);
  }

  /** Mining and depositing keep the state well formed. */
  lemma MineDepositWellFormed(cfg: Configuration, s: State, i: nat)
    requires WellFormed(cfg, s) && i < |s.units| && s.units[i].unitType == Ship && s.units[i].status == Active
    ensures WellFormed(cfg, MineShip(cfg, s, i)) && |MineShip(cfg, s, i).haliteScore| == |s.haliteScore|
    ensures WellFormed(cfg, DepositShip(cfg, s, s.units[i].playerIndex, i))
    ensures |DepositShip(cfg, s, s.units[i].playerIndex, i).haliteScore| == |s.haliteScore|
  {
    var ship := s.units[i];
    assert UnitOk(cfg, |s.haliteScore|, ship);
    var mined := MineShip(cfg, s, i).units[i];
    UpdateOk(cfg, |s.haliteScore|, s.units, i, mined);
    UpdateDistinct(s.units, i, mined);
    var emptied := ship.(halite := Some(0.0));
    UpdateOk(cfg, |s.haliteScore|, s.units, i, emptied);
    UpdateDistinct(s.units, i, emptied);
  }
}
