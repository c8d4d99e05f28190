/**
 * The derived per-player views of halite/interpreter/player.py: the player's
 * balance and its active units, ships and shipyards, read from the state.
 */
module PlayerView {
  import opened Wrappers
  import opened StateModel
  import GameUnits

  /** Player.halite: the balance at the player's index in halite_score. */
  function Halite(s: State, index: nat): (r: real)
    requires index < |s.haliteScore|
    ensures r in s.haliteScore
    ensures forall t: State :: t.haliteScore == s.haliteScore ==> r == t.haliteScore[index]
  {
    s.haliteScore[index]
  }

  /** Player.units: the active units this player owns, in table order. */
  function Units(s: State, index: nat): (r: seq<UnitState>)
    ensures forall u :: u in r <==> u in s.units && u.playerIndex == index && u.status == Active
  {
    GameUnits.Units(s.units, Some(index), Some(Active))
  }

  /** Player.ships: the active ships this player owns. */
  function Ships(s: State, index: nat): (r: seq<UnitState>)
    ensures forall u :: u in r <==> u in s.units && u.playerIndex == index && u.status == Active && u.unitType == Ship
  {
    GameUnits.Ships(s.units, Some(index), Some(Active))
  }

  /** Player.shipyards: the active shipyards this player owns. */
  function Shipyards(s: State, index: nat): (r: seq<UnitState>)
    ensures forall u :: u in r <==> u in s.units && u.playerIndex == index && u.status == Active && u.unitType == Shipyard
  {
    GameUnits.Shipyards(s.units, Some(index), Some(Active))
  }

  /** A player's ships and shipyards together are exactly its units, each counted once. */
  lemma ShipsAndShipyardsAreUnits(s: State, index: nat)
    ensures |Ships(s, index)| + |Shipyards(s, index)| == |Units(s, index)|
    ensures forall u :: u in Units(s, index) <==> u in Ships(s, index) || u in Shipyards(s, index)
  {
    GameUnits.ShipsAndShipyardsPartition(s.units, Some(index), Some(Active));
  }

  /** Units of two different players never overlap. */
  lemma PlayersDisjoint(s: State, i: nat, j: nat, u: UnitState)
    requires i != j && u in Units(s, i)
    ensures u !in Units(s, j)
  {
  }
}
