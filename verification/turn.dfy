/**
 * One turn of the interpreter (halite/interpreter/game.py, interpret): the
 * step advances, the players' explicit actions are applied in order, ships
 * collide, ships left without an action deposit or mine, and empty cells
 * regenerate. The state is a value, so the caller's state is never touched.
 */
module Turn {
  import opened Wrappers
  import opened StateModel
  import opened GameRules
  import Constants
  import Topology
  import PlayerView
  import BoardView
  import Collisions

  /** One player's action dict, uid to action string, in the dict's order. */
  type ActionMap = seq<(string, string)>

  function Keys(actions: ActionMap): set<string>
  {
    set k | 0 <= k < |actions| :: actions[k].0
  }

  /** How a turn ends: with the next world, or with the error that escaped and the uid counter as it was left. */
  datatype TurnOutcome = Finished(world: World) | Raised(error: Abort, nextUid: nat)

  // ---------------------------------------------------------------------------
  // _interpret_actions

  /** units[uid] in dict(player.units): the index of the uid among the player's active units, if it is one. */
  function LookupUnit(s: State, player: nat, uid: string): (r: Option<nat>)
    requires DistinctUids(s.units)
    ensures r.Some? ==> r.value < |s.units| && s.units[r.value].uid == uid &&
                        s.units[r.value].playerIndex == player && s.units[r.value].status == Active
    ensures r.None? <==> forall u :: u in PlayerView.Units(s, player) ==> u.uid != uid
  {
    match IndexOf(s.units, uid)
    case None => None
    case Some(i) =>
      if s.units[i].playerIndex == player && s.units[i].status == Active then Some(i)
      else
        assert forall u :: u in PlayerView.Units(s, player) ==> u.uid != uid by {
          forall u | u in PlayerView.Units(s, player) ensures u.uid != uid {
            var k :| 0 <= k < |s.units| && s.units[k] == u;
            assert k != i ==> s.units[k].uid != s.units[i].uid;
          }
        }
        None
  }

  /** The six action strings, read. */
  datatype Command = SpawnCmd | ConvertCmd | MoveCmd(d: Topology.Direction)

  /**
   * Actions.assert_valid followed by the dispatch on the action string: None
   * exactly when assert_valid raises InvalidConstantError.
   */
  function ParseAction(action: string): (r: Option<Command>)
    ensures r.None? <==> action !in Constants.ActionValues()
    ensures r.None? <==> Constants.AssertValid(Constants.ActionsAttrs, action).Fail?
    ensures r == Some(SpawnCmd) <==> action == "SPAWN"
    ensures r == Some(ConvertCmd) <==> action == "CONVERT"
    ensures r.Some? && r.value.MoveCmd? ==> action == Topology.Name(r.value.d)
  {
    Constants.ActionsAssertValid(action);
    if action == "SPAWN" then Some(SpawnCmd)
    else if action == "CONVERT" then Some(ConvertCmd)
    else
      match Topology.ParseDirection(action)
      case Some(d) => Some(MoveCmd(d))
      case None => None
  }

  /**
   * interpret_action on one of the player's active units: an action string
   * outside Actions aborts the turn, as does an action for the other kind of
   * unit (the assert in _assert_valid_action: SPAWN is for shipyards, every
   * other action for ships); a spawn or a convert may be refused, a move
   * never is.
   */
  function InterpretAction(cfg: Configuration, w: World, player: nat, i: nat, action: string): (r: ActionOutcome)
    requires WellFormed(cfg, w.state) && i < |w.state.units|
    requires w.state.units[i].playerIndex == player && w.state.units[i].status == Active
    ensures r.Aborted? <==> ParseAction(action).None? ||
                            (ParseAction(action).value.SpawnCmd? <==> w.state.units[i].unitType == Ship)
    ensures ParseAction(action).None? ==> r == Aborted(InvalidConstant(action))
    ensures r.Refused? ==> (ParseAction(action) == Some(SpawnCmd) && r.reason == CantSpawn) ||
                           (ParseAction(action) == Some(ConvertCmd) && r.reason == CantConvert)
    ensures r.Applied? && ParseAction(action) == Some(SpawnCmd) ==> r == Spawn(cfg, w, player, i)
    ensures r.Applied? && ParseAction(action) == Some(ConvertCmd) ==> r.world == AfterConvert(cfg, w, i)
    ensures forall d :: ParseAction(action) == Some(MoveCmd(d)) && w.state.units[i].unitType == Ship ==>
              r == Applied(w.(state := w.state.(units := w.state.units[i := Moved(cfg, w.state.units[i], d)])))
  {
    match ParseAction(action)
    case None => Aborted(InvalidConstant(action))
    case Some(SpawnCmd) => Spawn(cfg, w, player, i)
    case Some(ConvertCmd) => Convert(cfg, w, player, i)
    case Some(MoveCmd(d)) => Move(cfg, w, player, i, d)
  }

  /** An applied action keeps the state well formed, the step and the players, and draws at most one uid. */
  lemma InterpretActionWellFormed(cfg: Configuration, w: World, player: nat, i: nat, action: string)
    requires WellFormed(cfg, w.state) && i < |w.state.units|
    requires w.state.units[i].playerIndex == player && w.state.units[i].status == Active
    requires InterpretAction(cfg, w, player, i, action).Applied?
    ensures var w' := InterpretAction(cfg, w, player, i, action).world;
            WellFormed(cfg, w'.state) && w'.state.step == w.state.step &&
            |w'.state.haliteScore| == |w.state.haliteScore| && w.nextUid <= w'.nextUid <= w.nextUid + 1
  {
    match ParseAction(action).value
    case SpawnCmd => SpawnWellFormed(cfg, w, player, i);
    case ConvertCmd => ConvertWellFormed(cfg, w, i);
    case MoveCmd(d) => MoveLedger(cfg, w, player, i, d);
  }

  /**
   * The loop over one player's action dict: a uid that is not one of the
   * player's active units raises InvalidUnitError and ends the turn, an
   * aborting action ends it too, and a refused action is skipped.
   */
  function PlayerActions(cfg: Configuration, w: World, player: nat, actions: ActionMap): (r: TurnOutcome)
    requires WellFormed(cfg, w.state)
    ensures r.Finished? ==> WellFormed(cfg, r.world.state) && r.world.state.step == w.state.step &&
                            |r.world.state.haliteScore| == |w.state.haliteScore| &&
                            w.nextUid <= r.world.nextUid <= w.nextUid + |actions|
    ensures r.Raised? ==> w.nextUid <= r.nextUid <= w.nextUid + |actions|
    decreases |actions|
  {
    if actions == [] then Finished(w)
    else
      var uid, action := actions[0].0, actions[0].1;
      match LookupUnit(w.state, player, uid)
      case None => Raised(InvalidUnit(uid), w.nextUid)
      case Some(i) =>
        match InterpretAction(cfg, w, player, i, action)
        case Aborted(e) => Raised(e, w.nextUid)
        case Refused(_) => PlayerActions(cfg, w, player, actions[1..])
        case Applied(w') =>
          InterpretActionWellFormed(cfg, w, player, i, action);
          PlayerActions(cfg, w', player, actions[1..])
  }

  /** A uid outside the player's active units ends the turn with InvalidUnitError, whatever follows it. */
  lemma UnknownUidAborts(cfg: Configuration, w: World, player: nat, actions: ActionMap)
    requires WellFormed(cfg, w.state) && actions != []
    requires forall u :: u in PlayerView.Units(w.state, player) ==> u.uid != actions[0].0
    ensures PlayerActions(cfg, w, player, actions) == Raised(InvalidUnit(actions[0].0), w.nextUid)
  {
  }

  /** A refused action changes nothing: the actions after it apply to the state it was refused in. */
  lemma RefusedIsSkipped(cfg: Configuration, w: World, player: nat, actions: ActionMap)
    requires WellFormed(cfg, w.state) && actions != []
    requires LookupUnit(w.state, player, actions[0].0).Some?
    requires InterpretAction(cfg, w, player, LookupUnit(w.state, player, actions[0].0).value, actions[0].1).Refused?
    ensures PlayerActions(cfg, w, player, actions) == PlayerActions(cfg, w, player, actions[1..])
  {
  }

  /** Running two stretches of a player's actions is running the first, then the second on its result. */
  lemma {:induction false} PlayerActionsAppend(cfg: Configuration, w: World, player: nat, a: ActionMap, b: ActionMap)
    requires WellFormed(cfg, w.state)
    ensures PlayerActions(cfg, w, player, a + b) ==
            match PlayerActions(cfg, w, player, a)
            case Finished(w') => PlayerActions(cfg, w', player, b)
            case Raised(e, n) => Raised(e, n)
    decreases |a|
  {
    if a == [] {
      assert a + b == b;
    } else {
      assert (a + b)[0] == a[0] && (a + b)[1..] == a[1..] + b;
      var uid, action := a[0].0, a[0].1;
      match LookupUnit(w.state, player, uid)
      case None =>
      case Some(i) =>
        match InterpretAction(cfg, w, player, i, action)
        case Aborted(e) =>
        case Refused(_) =>
          PlayerActionsAppend(cfg, w, player, a[1..], b);
        case Applied(w') =>
          InterpretActionWellFormed(cfg, w, player, i, action);
          PlayerActionsAppend(cfg, w', player, a[1..], b);
    }
  }

  /** _interpret_actions: zip(players, actions_list), player by player from p on. */
  function ApplyActions(cfg: Configuration, w: World, actionsList: seq<ActionMap>, p: nat): (r: TurnOutcome)
    requires WellFormed(cfg, w.state)
    ensures r.Finished? ==> WellFormed(cfg, r.world.state) && r.world.state.step == w.state.step &&
                            |r.world.state.haliteScore| == |w.state.haliteScore| && w.nextUid <= r.world.nextUid
    ensures r.Raised? ==> w.nextUid <= r.nextUid
    decreases |actionsList| - p
  {
    if p >= |w.state.haliteScore| || p >= |actionsList| then Finished(w)
    else
      match PlayerActions(cfg, w, p, actionsList[p])
      case Raised(e, n) => Raised(e, n)
      case Finished(w') => ApplyActions(cfg, w', actionsList, p + 1)
  }

  // ---------------------------------------------------------------------------
  // _collect_halite

  /** A ship collection touches: an active ship of the player whose uid has no entry in the player's actions. */
  predicate Idle(s: State, player: nat, actions: ActionMap, j: nat)
  {
    ActiveShipOf(s, player, j) && s.units[j].uid !in Keys(actions)
  }

  /** The ship at j deposits when a shipyard of its player stands on its cell, and mines otherwise. */
  function CollectOne(cfg: Configuration, s: State, player: nat, j: nat): (r: State)
    requires WellFormed(cfg, s) && player < |s.haliteScore| && ActiveShipOf(s, player, j)
    ensures WellFormed(cfg, r) && r.step == s.step && |r.haliteScore| == |s.haliteScore| && |r.units| == |s.units|
    ensures TotalHalite(r) == TotalHalite(s)
    ensures forall k :: 0 <= k < |s.units| && k != j ==> r.units[k] == s.units[k]
    ensures r.units[j] == s.units[j].(halite := r.units[j].halite)
    ensures FriendlyShipyardAt(s, player, s.units[j].pos) ==> r.units[j].halite == Some(0.0)
    ensures !FriendlyShipyardAt(s, player, s.units[j].pos) ==>
              r.units[j].halite.Some? && r.units[j].halite.value >= Cargo(s.units[j]) + 1.0
  {
    MineDepositWellFormed(cfg, s, j);
    if FriendlyShipyardAt(s, player, s.units[j].pos) then DepositShip(cfg, s, player, j) else MineShip(cfg, s, j)
  }

  /** The loop over player.ships for one player, from table index k on. */
  function CollectFrom(cfg: Configuration, s: State, player: nat, actions: ActionMap, k: nat): (r: State)
    requires WellFormed(cfg, s) && player < |s.haliteScore|
    ensures WellFormed(cfg, r) && r.step == s.step && |r.haliteScore| == |s.haliteScore| && |r.units| == |s.units|
    ensures TotalHalite(r) == TotalHalite(s)
    decreases |s.units| - k
  {
    if k >= |s.units| then s
    else if Idle(s, player, actions, k) then CollectFrom(cfg, CollectOne(cfg, s, player, k), player, actions, k + 1)
    else CollectFrom(cfg, s, player, actions, k + 1)
  }

  /** _collect_halite: every player zipped with an action dict collects, in player order. */
  function Collect(cfg: Configuration, s: State, actionsList: seq<ActionMap>, p: nat): (r: State)
    requires WellFormed(cfg, s)
    ensures WellFormed(cfg, r) && r.step == s.step && |r.haliteScore| == |s.haliteScore| && |r.units| == |s.units|
    ensures TotalHalite(r) == TotalHalite(s)
    decreases |actionsList| - p
  {
    if p >= |s.haliteScore| || p >= |actionsList| then s
    else Collect(cfg, CollectFrom(cfg, s, p, actionsList[p], 0), actionsList, p + 1)
  }

  /** When every shipyard entry of a is carried over unchanged to b, a friendly shipyard at pos in a is one in b. */
  lemma ShipyardsCarried(a: State, b: State, player: nat, pos: Option<nat>)
    requires |b.units| == |a.units|
    requires forall k :: 0 <= k < |a.units| && a.units[k].unitType == Shipyard ==> b.units[k] == a.units[k]
    ensures FriendlyShipyardAt(a, player, pos) ==> FriendlyShipyardAt(b, player, pos)
  {
    if FriendlyShipyardAt(a, player, pos) {
      var y :| y in PlayerView.Shipyards(a, player) && y.pos == pos;
      var k :| 0 <= k < |a.units| && a.units[k] == y;
      assert b.units[k] == y;
      assert y in PlayerView.Shipyards(b, player);
    }
  }

  /** Shipyards are as they were and ships stay ships: then the friendly-shipyard test answers as before. */
  lemma FriendlyShipyardStable(s: State, s': State, player: nat, pos: Option<nat>)
    requires |s'.units| == |s.units|
    requires forall k :: 0 <= k < |s.units| ==> s'.units[k].unitType == s.units[k].unitType
    requires forall k :: 0 <= k < |s.units| && s.units[k].unitType == Shipyard ==> s'.units[k] == s.units[k]
    ensures FriendlyShipyardAt(s', player, pos) <==> FriendlyShipyardAt(s, player, pos)
  {
    ShipyardsCarried(s, s', player, pos);
    ShipyardsCarried(s', s, player, pos);
  }

  /** The ship at j, idle in s, was collected as the rule says: a deposit on a friendly shipyard, a mine elsewhere. */
  predicate CollectedAs(s: State, r: State, player: nat, j: nat)
    requires j < |s.units| && j < |r.units|
  {
    r.units[j] == s.units[j].(halite := r.units[j].halite) &&
    (FriendlyShipyardAt(s, player, s.units[j].pos) ==> r.units[j].halite == Some(0.0)) &&
    (!FriendlyShipyardAt(s, player, s.units[j].pos) ==>
       r.units[j].halite.Some? && r.units[j].halite.value >= Cargo(s.units[j]) + 1.0)
  }

  /** Collecting the idle ship at k leaves every other unit, and whether it is idle, as it was. */
  lemma IdleElsewhere(cfg: Configuration, s: State, player: nat, actions: ActionMap, k: nat)
    requires WellFormed(cfg, s) && player < |s.haliteScore| && k < |s.units| && Idle(s, player, actions, k)
    ensures forall j :: 0 <= j < |s.units| && j != k ==>
              CollectOne(cfg, s, player, k).units[j] == s.units[j] &&
              (Idle(CollectOne(cfg, s, player, k), player, actions, j) <==> Idle(s, player, actions, j))
  {
    var s1 := CollectOne(cfg, s, player, k);
    forall j | 0 <= j < |s.units| && j != k
      ensures s1.units[j] == s.units[j] && (Idle(s1, player, actions, j) <==> Idle(s, player, actions, j))
    {
      assert s1.units[j] == s.units[j];
    }
  }

  /**
   * The loop over a player's ships from index k on leaves every unit before k,
   * and every unit that is not an idle ship of the player (in particular
   * every ship that had an action entry), exactly as it was.
   */
  lemma {:induction false} CollectFromKeeps(cfg: Configuration, s: State, player: nat, actions: ActionMap, k: nat)
    requires WellFormed(cfg, s) && player < |s.haliteScore|
    ensures forall j :: 0 <= j < |s.units| && (j < k || !Idle(s, player, actions, j)) ==>
              CollectFrom(cfg, s, player, actions, k).units[j] == s.units[j]
    decreases |s.units| - k
  {
    if k < |s.units| {
      var r := CollectFrom(cfg, s, player, actions, k);
      if Idle(s, player, actions, k) {
        var s1 := CollectOne(cfg, s, player, k);
        assert r == CollectFrom(cfg, s1, player, actions, k + 1);
        CollectFromKeeps(cfg, s1, player, actions, k + 1);
        IdleElsewhere(cfg, s, player, actions, k);
        forall j | 0 <= j < |s.units| && (j < k || !Idle(s, player, actions, j)) ensures r.units[j] == s.units[j] {
          assert j != k && (j < k + 1 || !Idle(s1, player, actions, j));
        }
      } else {
        assert r == CollectFrom(cfg, s, player, actions, k + 1);
        CollectFromKeeps(cfg, s, player, actions, k + 1);
      }
    }
  }

  /** Collecting the ship at k changes neither the unit at j nor the shipyards, so ship j's rule reads the same. */
  lemma CollectedAsLater(cfg: Configuration, s: State, player: nat, k: nat, j: nat, r: State)
    requires WellFormed(cfg, s) && player < |s.haliteScore| && ActiveShipOf(s, player, k)
    requires k < j < |s.units| == |r.units|
    requires CollectedAs(CollectOne(cfg, s, player, k), r, player, j)
    ensures CollectedAs(s, r, player, j)
  {
    var s1 := CollectOne(cfg, s, player, k);
    assert s1.units[j] == s.units[j];
    FriendlyShipyardStable(s, s1, player, s.units[j].pos);
  }

  /**
   * The loop over a player's ships from index k on collects every idle ship
   * of the player at or after k: it deposits its whole cargo when a shipyard
   * of its player stands on its cell and otherwise mines at least one unit
   * of halite, only its cargo changing.
   */
  lemma {:induction false} CollectFromCollects(cfg: Configuration, s: State, player: nat, actions: ActionMap, k: nat)
    requires WellFormed(cfg, s) && player < |s.haliteScore|
    ensures forall j :: k <= j < |s.units| && Idle(s, player, actions, j) ==>
              CollectedAs(s, CollectFrom(cfg, s, player, actions, k), player, j)
    decreases |s.units| - k
  {
    if k < |s.units| {
      var r := CollectFrom(cfg, s, player, actions, k);
      if Idle(s, player, actions, k) {
        var s1 := CollectOne(cfg, s, player, k);
        assert r == CollectFrom(cfg, s1, player, actions, k + 1);
        CollectFromKeeps(cfg, s1, player, actions, k + 1);
        CollectFromCollects(cfg, s1, player, actions, k + 1);
        assert r.units[k] == s1.units[k];
        assert CollectedAs(s, s1, player, k);
        forall j | k < j < |s.units| && Idle(s, player, actions, j) ensures CollectedAs(s, r, player, j) {
          assert s1.units[j] == s.units[j];
          assert Idle(s1, player, actions, j);
          CollectedAsLater(cfg, s, player, k, j, r);
        }
      } else {
        CollectFromCollects(cfg, s, player, actions, k + 1);
      }
    }
  }

  // ---------------------------------------------------------------------------
  // _regenerate_halite

  /** No active unit stands on the cell. */
  predicate Vacant(s: State, pos: nat)
  {
    BoardView.OccupiedBy(s, BoardView.BoardCell(pos)) == []
  }

  /** regenerate_board_cell on every cell: an unoccupied cell holding halite grows by halite * regen_rate. */
  function Regenerate(cfg: Configuration, s: State): (r: State)
    ensures r.step == s.step && r.units == s.units && r.haliteScore == s.haliteScore
    ensures |r.haliteBoard| == |s.haliteBoard|
    ensures forall p :: 0 <= p < |s.haliteBoard| && Vacant(s, p) && s.haliteBoard[p] != 0.0 ==>
              r.haliteBoard[p] == s.haliteBoard[p] * (1.0 + cfg.regenRate)
    ensures forall p :: 0 <= p < |s.haliteBoard| && (!Vacant(s, p) || s.haliteBoard[p] == 0.0) ==>
              r.haliteBoard[p] == s.haliteBoard[p]
  {
    s.(haliteBoard := seq(|s.haliteBoard|, p requires 0 <= p < |s.haliteBoard| => Regrown(cfg, s, p)))
  }

  /** regenerate_board_cell for cell p: a vacant cell holding halite grows by halite * regen_rate. */
  function Regrown(cfg: Configuration, s: State, p: nat): real
    requires p < |s.haliteBoard|
  {
    if Vacant(s, p) && s.haliteBoard[p] != 0.0 then s.haliteBoard[p] + s.haliteBoard[p] * cfg.regenRate
    else s.haliteBoard[p]
  }

  /** A cell where an active unit stands never regenerates; in particular no cell under a ship does. */
  lemma OccupiedCellsKeepHalite(cfg: Configuration, s: State, k: nat)
    requires k < |s.units| && s.units[k].status == Active && s.units[k].pos.Some?
    requires s.units[k].pos.value < |s.haliteBoard|
    ensures Regenerate(cfg, s).haliteBoard[s.units[k].pos.value] == s.haliteBoard[s.units[k].pos.value]
  {
    var p := s.units[k].pos.value;
    assert s.units[k] in BoardView.OccupiedBy(s, BoardView.BoardCell(p));
  }

  // ---------------------------------------------------------------------------
  // interpret

  /** Game.interpret: step + 1, then actions, collisions, collection and regeneration. */
  function Interpret(cfg: Configuration, w: World, actionsList: seq<ActionMap>): (r: TurnOutcome)
    requires WellFormed(cfg, w.state)
    ensures r.Finished? ==> WellFormed(cfg, r.world.state) && r.world.state.step == w.state.step + 1 &&
                            |r.world.state.haliteScore| == |w.state.haliteScore| && w.nextUid <= r.world.nextUid
    ensures r.Raised? ==> w.nextUid <= r.nextUid
  {
    var w1 := w.(state := w.state.(step := w.state.step + 1));
    match ApplyActions(cfg, w1, actionsList, 0)
    case Raised(e, n) => Raised(e, n)
    case Finished(w2) => Finished(World(Resolve(cfg, w2.state, actionsList), w2.nextUid))
  }

  /** The passes after the actions: collisions, then collection, then regeneration. */
  function Resolve(cfg: Configuration, s: State, actionsList: seq<ActionMap>): (r: State)
    requires WellFormed(cfg, s)
    ensures WellFormed(cfg, r) && r.step == s.step && |r.haliteScore| == |s.haliteScore|
  {
    Collisions.CollideWellFormed(cfg, s);
    Regenerate(cfg, Collect(cfg, Collisions.Collide(s), actionsList, 0))
  }
}
