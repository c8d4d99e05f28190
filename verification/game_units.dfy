/**
 * The unit queries of the game (halite/interpreter/game.py, _filter_units,
 * units, ships and shipyards): the unit table filtered by owner, type and
 * status, in the table's insertion order.
 */
module GameUnits {
  import opened Wrappers
  import opened StateModel

  /** The optional criteria of _filter_units; a criterion left out keeps every unit. */
  datatype UnitFilter = UnitFilter(player: Option<nat>, unitType: Option<UnitType>, status: Option<UnitStatus>)

  /** The inner _filter predicate. */
  predicate Matches(f: UnitFilter, u: UnitState)
  {
    (f.player.None? || u.playerIndex == f.player.value) &&
    (f.unitType.None? || u.unitType == f.unitType.value) &&
    (f.status.None? || u.status == f.status.value)
  }

  /** _filter_units: the units that match, in table order. */
  function Filter(units: seq<UnitState>, f: UnitFilter): (r: seq<UnitState>)
    ensures |r| <= |units|
  {
    if units == [] then []
    else (if Matches(f, units[0]) then [units[0]] else []) + Filter(units[1..], f)
  }

  /** A unit is kept exactly when it is in the table and matches. */
  lemma {:induction false} FilterMembers(units: seq<UnitState>, f: UnitFilter)
    ensures forall u :: u in Filter(units, f) <==> u in units && Matches(f, u)
  {
    if units != [] {
      FilterMembers(units[1..], f);
      assert units == [units[0]] + units[1..];
    }
  }

  /** Filtering a concatenation filters each part and keeps them in order. */
  lemma {:induction false} FilterAppend(a: seq<UnitState>, b: seq<UnitState>, f: UnitFilter)
    ensures Filter(a + b, f) == Filter(a, f) + Filter(b, f)
  {
    if a != [] {
      assert (a + b)[1..] == a[1..] + b;
      FilterAppend(a[1..], b, f);
    } else {
      assert a + b == b;
    }
  }

  /** Filtering a non-empty table decides its first unit and filters the rest. */
  lemma FilterCons(units: seq<UnitState>, f: UnitFilter)
    requires units != []
    ensures Filter(units, f) == (if Matches(f, units[0]) then [units[0]] else []) + Filter(units[1..], f)
  {
  }

  /** Without criteria every unit is kept, in order. */
  lemma {:induction false} FilterAll(units: seq<UnitState>)
    ensures Filter(units, UnitFilter(None, None, None)) == units
  {
    if units != [] {
      FilterAll(units[1..]);
    }
  }

  /** Filtering by type after filtering by owner and status is filtering by all three at once. */
  lemma {:induction false} FilterByType(units: seq<UnitState>, player: Option<nat>, t: UnitType, status: Option<UnitStatus>)
    ensures Filter(units, UnitFilter(player, Some(t), status)) ==
            Filter(Filter(units, UnitFilter(player, None, status)), UnitFilter(None, Some(t), None))
  {
    if units != [] {
      FilterByType(units[1..], player, t, status);
      var all := Filter(units, UnitFilter(player, None, status));
      if Matches(UnitFilter(player, None, status), units[0]) {
        assert all[0] == units[0] && all[1..] == Filter(units[1..], UnitFilter(player, None, status));
        FilterCons(all, UnitFilter(None, Some(t), None));
      } else {
        assert all == Filter(units[1..], UnitFilter(player, None, status));
      }
      FilterCons(units, UnitFilter(player, Some(t), status));
    }
  }

  /** Every unit is a ship or a shipyard, so the two type filters split any list between them. */
  lemma {:induction false} TypesSplit(units: seq<UnitState>)
    ensures var ships, yards := Filter(units, UnitFilter(None, Some(Ship), None)), Filter(units, UnitFilter(None, Some(Shipyard), None));
            |ships| + |yards| == |units| &&
            forall u :: u in units <==> u in ships || u in yards
  {
    FilterMembers(units, UnitFilter(None, Some(Ship), None));
    FilterMembers(units, UnitFilter(None, Some(Shipyard), None));
    if units != [] {
      TypesSplit(units[1..]);
    }
  }

  /**
   * ships and shipyards split units: the ships and the shipyards are the
   * units filtered by type, in order, and every unit is exactly one of them.
   */
  lemma ShipsAndShipyardsPartition(units: seq<UnitState>, player: Option<nat>, status: Option<UnitStatus>)
    ensures var all := Filter(units, UnitFilter(player, None, status));
            var ships := Filter(units, UnitFilter(player, Some(Ship), status));
            var yards := Filter(units, UnitFilter(player, Some(Shipyard), status));
            ships == Filter(all, UnitFilter(None, Some(Ship), None)) &&
            yards == Filter(all, UnitFilter(None, Some(Shipyard), None)) &&
            |ships| + |yards| == |all| && (forall u :: u in all <==> u in ships || u in yards)
  {
    FilterByType(units, player, Ship, status);
    FilterByType(units, player, Shipyard, status);
    TypesSplit(Filter(units, UnitFilter(player, None, status)));
  }

  /** Game.units: the filter on any criteria. */
  function Units(units: seq<UnitState>, player: Option<nat>, status: Option<UnitStatus>): (r: seq<UnitState>)
    ensures forall u :: u in r <==> u in units && (player.None? || u.playerIndex == player.value) &&
                                    (status.None? || u.status == status.value)
  {
    FilterMembers(units, UnitFilter(player, None, status));
    Filter(units, UnitFilter(player, None, status))
  }

  /** Game.ships: the filter restricted to ships. */
  function Ships(units: seq<UnitState>, player: Option<nat>, status: Option<UnitStatus>): (r: seq<UnitState>)
    ensures forall u :: u in r <==> u in units && u.unitType == Ship && (player.None? || u.playerIndex == player.value) &&
                                    (status.None? || u.status == status.value)
  {
    FilterMembers(units, UnitFilter(player, Some(Ship), status));
    Filter(units, UnitFilter(player, Some(Ship), status))
  }

  /** Game.shipyards: the filter restricted to shipyards. */
  function Shipyards(units: seq<UnitState>, player: Option<nat>, status: Option<UnitStatus>): (r: seq<UnitState>)
    ensures forall u :: u in r <==> u in units && u.unitType == Shipyard && (player.None? || u.playerIndex == player.value) &&
                                    (status.None? || u.status == status.value)
  {
    FilterMembers(units, UnitFilter(player, Some(Shipyard), status));
    Filter(units, UnitFilter(player, Some(Shipyard), status))
  }
}
