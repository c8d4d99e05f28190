/**
 * The collision pass of the turn interpreter (halite/interpreter/game.py,
 * _detect_collision): first every active ship on another player's shipyard
 * is destroyed, then in every cell holding several active ships all but the
 * one with the most cargo are destroyed, the survivor loses the second
 * largest cargo (or is destroyed too on a tie), and the cell is emptied.
 */
module Collisions {
  import opened Wrappers
  import opened StateModel
  import opened GameRules
  import BoardView

  // ---------------------------------------------------------------------------
  // First phase: ships on enemy shipyards.

  /** An active ship whose cell is occupied by an active shipyard of another player. */
  predicate OnEnemyShipyard(s: State, u: UnitState)
  {
    u.unitType == Ship && u.status == Active && u.pos.Some? &&
    exists y :: y in BoardView.OccupiedBy(s, BoardView.BoardCell(u.pos.value)) &&
                y.unitType == Shipyard && y.playerIndex != u.playerIndex
  }

  /**
   * detect_collision_with_shipyards: each ship on an enemy shipyard is
   * destroyed at this step; shipyards and every other unit are untouched.
   */
  function CollideWithShipyards(s: State): (r: State)
    ensures r.step == s.step && r.haliteScore == s.haliteScore && r.haliteBoard == s.haliteBoard
    ensures |r.units| == |s.units|
    ensures forall k :: 0 <= k < |s.units| && OnEnemyShipyard(s, s.units[k]) ==>
              r.units[k] == Deleted(s.units[k], Destroyed, s.step)
    ensures forall k :: 0 <= k < |s.units| && !OnEnemyShipyard(s, s.units[k]) ==> r.units[k] == s.units[k]
  {
    s.(units := seq(|s.units|, k requires 0 <= k < |s.units| =>
                      if OnEnemyShipyard(s, s.units[k]) then Deleted(s.units[k], Destroyed, s.step) else s.units[k]))
  }

  /** A shipyard in the table after the first phase was in the table before it, unchanged. */
  lemma ShipyardsKept(s: State, y: UnitState)
    requires y.unitType == Shipyard
    ensures y in CollideWithShipyards(s).units <==> y in s.units
  {
    var r := CollideWithShipyards(s);
    if y in r.units {
      var k :| 0 <= k < |r.units| && r.units[k] == y;
      assert s.units[k] == y;
    }
    if y in s.units {
      var k :| 0 <= k < |s.units| && s.units[k] == y;
      assert r.units[k] == y;
    }
  }

  /** After the first phase no active ship stands on an enemy shipyard, and the shipyards are as they were. */
  lemma NoShipOnEnemyShipyard(s: State)
    ensures var r := CollideWithShipyards(s);
            forall k :: 0 <= k < |r.units| ==> !OnEnemyShipyard(r, r.units[k])
    ensures var r := CollideWithShipyards(s);
            forall k :: 0 <= k < |s.units| && s.units[k].unitType == Shipyard ==> r.units[k] == s.units[k]
  {
    forall y: UnitState | y.unitType == Shipyard ensures y in CollideWithShipyards(s).units <==> y in s.units {
      ShipyardsKept(s, y);
    }
  }

  /** Ships stay ships and shipyards stay as they were: then whether a ship stands on an enemy shipyard is as before. */
  lemma EnemyShipyardStable(s: State, s': State, u: UnitState)
    requires |s'.units| == |s.units|
    requires forall k :: 0 <= k < |s.units| ==> s'.units[k].unitType == s.units[k].unitType
    requires forall k :: 0 <= k < |s.units| && s.units[k].unitType == Shipyard ==> s'.units[k] == s.units[k]
    ensures OnEnemyShipyard(s', u) <==> OnEnemyShipyard(s, u)
  {
    if OnEnemyShipyard(s', u) {
      EnemyShipyardKept(s', s, u);
    }
    if OnEnemyShipyard(s, u) {
      EnemyShipyardKept(s, s', u);
    }
  }

  /** One direction of EnemyShipyardStable: the enemy shipyard of one table is in the other. */
  lemma EnemyShipyardKept(a: State, b: State, u: UnitState)
    requires |a.units| == |b.units| && OnEnemyShipyard(a, u)
    requires forall k :: 0 <= k < |a.units| && a.units[k].unitType == Shipyard ==> b.units[k] == a.units[k]
    ensures OnEnemyShipyard(b, u)
  {
    var c := BoardView.BoardCell(u.pos.value);
    var y :| y in BoardView.OccupiedBy(a, c) && y.unitType == Shipyard && y.playerIndex != u.playerIndex;
    var k :| 0 <= k < |a.units| && a.units[k] == y;
    assert b.units[k] == y;
    assert y in BoardView.OccupiedBy(b, c);
  }

  // ---------------------------------------------------------------------------
  // Second phase: several ships in one cell.

  /** An active ship standing at the position. */
  predicate ShipAt(u: UnitState, pos: nat)
  {
    u.unitType == Ship && u.status == Active && u.pos == Some(pos)
  }

  /** The ships among board_cell.occupied_by, in table order. */
  function ShipsAt(units: seq<UnitState>, pos: nat): (r: seq<UnitState>)
    ensures |r| <= |units|
    ensures forall u :: u in r <==> u in units && ShipAt(u, pos)
  {
    if units == [] then []
    else (if ShipAt(units[0], pos) then [units[0]] else []) + ShipsAt(units[1..], pos)
  }

  /** Two lists that agree on which entries are ships at the position, and on those entries, give the same ships. */
  lemma {:induction false} ShipsAtAgree(a: seq<UnitState>, b: seq<UnitState>, pos: nat)
    requires |a| == |b|
    requires forall k :: 0 <= k < |a| ==> (ShipAt(a[k], pos) <==> ShipAt(b[k], pos))
    requires forall k :: 0 <= k < |a| && ShipAt(a[k], pos) ==> a[k] == b[k]
    ensures ShipsAt(a, pos) == ShipsAt(b, pos)
  {
    if a != [] {
      assert forall k :: 0 <= k < |a| - 1 ==> a[1..][k] == a[k + 1] && b[1..][k] == b[k + 1];
      ShipsAtAgree(a[1..], b[1..], pos);
    }
  }

  /** The largest cargo among the ships. */
  function MaxCargo(ships: seq<UnitState>): (m: real)
    requires |ships| > 0
    ensures forall k :: 0 <= k < |ships| ==> Cargo(ships[k]) <= m
    ensures exists k :: 0 <= k < |ships| && Cargo(ships[k]) == m
  {
    if |ships| == 1 then Cargo(ships[0])
    else
      var rest := MaxCargo(ships[1..]);
      assert forall k :: 1 <= k < |ships| ==> ships[k] == ships[1..][k - 1];
      if Cargo(ships[0]) >= rest then Cargo(ships[0]) else rest
  }

  /**
   * The position of ships[0] after the stable sort by descending cargo: the
   * first ship carrying the largest cargo.
   */
  function LeaderIndex(ships: seq<UnitState>): (l: nat)
    requires |ships| > 0
    ensures l < |ships| && Cargo(ships[l]) == MaxCargo(ships)
    ensures forall k :: 0 <= k < l ==> Cargo(ships[k]) < MaxCargo(ships)
  {
    FirstWith(ships, MaxCargo(ships), 0)
  }

  function FirstWith(ships: seq<UnitState>, m: real, from: nat): (l: nat)
    requires from < |ships| && exists k :: from <= k < |ships| && Cargo(ships[k]) == m
    requires forall k :: 0 <= k < |ships| ==> Cargo(ships[k]) <= m
    requires forall k :: 0 <= k < from ==> Cargo(ships[k]) < m
    ensures from <= l < |ships| && Cargo(ships[l]) == m
    ensures forall k :: 0 <= k < l ==> Cargo(ships[k]) < m
    decreases |ships| - from
  {
    if Cargo(ships[from]) == m then from else FirstWith(ships, m, from + 1)
  }

  /** The ships other than the leader, in order: ships[1:] after the sort, as a set. */
  function Others(ships: seq<UnitState>): (r: seq<UnitState>)
    requires |ships| > 0
    ensures |r| == |ships| - 1
  {
    ships[..LeaderIndex(ships)] + ships[LeaderIndex(ships) + 1..]
  }

  /** ships[1].halite after the sort: the largest cargo among the others. */
  function SecondLargest(ships: seq<UnitState>): (m: real)
    requires |ships| >= 2
    ensures m <= MaxCargo(ships)
  {
    var o := Others(ships);
    var k :| 0 <= k < |o| && Cargo(o[k]) == MaxCargo(o);
    assert o[k] in ships;
    MaxCargo(o)
  }

  /**
   * What the second phase does to one ship of a crowded cell: the leader
   * survives with its cargo less the second largest cargo unless the two are
   * equal; every other ship is destroyed.
   */
  function Fate(ships: seq<UnitState>, u: UnitState, step: nat): (r: UnitState)
    requires |ships| >= 2
    ensures r.uid == u.uid && r.unitType == u.unitType && r.playerIndex == u.playerIndex
    ensures (r.status == u.status && r.pos == u.pos) || (r.status == Destroyed && r.pos.None?)
  {
    var leader := ships[LeaderIndex(ships)];
    if u == leader && Cargo(u) != SecondLargest(ships) then u.(halite := Some(Cargo(u) - SecondLargest(ships)))
    else Deleted(u, Destroyed, step)
  }

  /** A unit when cell c, crowded with ships, is resolved: a ship at c meets its Fate, any other unit stays. */
  function CellFate(ships: seq<UnitState>, u: UnitState, c: nat, step: nat): (r: UnitState)
    requires |ships| >= 2
    ensures !ShipAt(u, c) ==> r == u
    ensures ShipAt(u, c) ==> r == Fate(ships, u, step)
  {
    if ShipAt(u, c) then Fate(ships, u, step) else u
  }

  /** The second phase on one unit: a ship in a cell shared with another active ship meets its Fate. */
  function Resolve(s: State, u: UnitState): (r: UnitState)
  {
    if u.unitType == Ship && u.status == Active && u.pos.Some? && |ShipsAt(s.units, u.pos.value)| >= 2
    then Fate(ShipsAt(s.units, u.pos.value), u, s.step)
    else u
  }

  /** A cell the second phase empties: it held at least two active ships. */
  predicate Crowded(s: State, pos: nat)
  {
    |ShipsAt(s.units, pos)| >= 2
  }

  /** The second phase as a whole: every unit resolved, every crowded cell emptied. */
  function CollideShips(s: State): (r: State)
    ensures r.step == s.step && r.haliteScore == s.haliteScore
    ensures |r.units| == |s.units| && |r.haliteBoard| == |s.haliteBoard|
    ensures forall k :: 0 <= k < |s.units| ==> r.units[k] == Resolve(s, s.units[k])
    ensures forall p :: 0 <= p < |s.haliteBoard| ==> r.haliteBoard[p] == if Crowded(s, p) then 0.0 else s.haliteBoard[p]
  {
    s.(units := seq(|s.units|, k requires 0 <= k < |s.units| => Resolve(s, s.units[k])),
       haliteBoard := seq(|s.haliteBoard|, p requires 0 <= p < |s.haliteBoard| =>
                            if Crowded(s, p) then 0.0 else s.haliteBoard[p]))
  }

  /**
   * The rule of the second phase, ship by ship: in a crowded cell a ship
   * that is not the leader is destroyed, the leader is destroyed on a tie
   * with the second largest cargo and otherwise keeps its place with exactly
   * that much less cargo; a ship alone in its cell is untouched.
   */
  lemma SecondPhaseRule(s: State, k: nat)
    requires k < |s.units| && s.units[k].unitType == Ship && s.units[k].status == Active && s.units[k].pos.Some?
    ensures var u, ships := s.units[k], ShipsAt(s.units, s.units[k].pos.value);
            var r := CollideShips(s).units[k];
            (|ships| < 2 ==> r == u) &&
            (|ships| >= 2 && u != ships[LeaderIndex(ships)] ==> r == Deleted(u, Destroyed, s.step)) &&
            (|ships| >= 2 && u == ships[LeaderIndex(ships)] && Cargo(u) == SecondLargest(ships) ==>
               r == Deleted(u, Destroyed, s.step)) &&
            (|ships| >= 2 && u == ships[LeaderIndex(ships)] && Cargo(u) != SecondLargest(ships) ==>
               r.status == Active && r.pos == u.pos && Cargo(r) == Cargo(u) - SecondLargest(ships) > 0.0)
  {
  }

  /** No cell holds two active ships. */
  ghost predicate ShipsApart(units: seq<UnitState>)
  {
    forall j, k, p: nat :: 0 <= j < k < |units| && ShipAt(units[j], p) ==> !ShipAt(units[k], p)
  }

  /** Two different members make a list of at least two. */
  lemma TwoMembers(a: seq<UnitState>, x: UnitState, y: UnitState)
    requires x in a && y in a && x != y
    ensures |a| >= 2
  {
  }

  /** Whatever crowding the second phase starts from, afterwards no two active ships share a cell. */
  lemma SecondPhaseSeparates(s: State)
    requires DistinctUids(s.units)
    ensures ShipsApart(CollideShips(s).units)
  {
    var r := CollideShips(s);
    forall j, k, p: nat | 0 <= j < k < |r.units| && ShipAt(r.units[j], p) ensures !ShipAt(r.units[k], p) {
      if ShipAt(r.units[k], p) {
        var a, b := s.units[j], s.units[k];
        assert a.uid != b.uid;
        assert ShipAt(a, p) && ShipAt(b, p);
        var ships := ShipsAt(s.units, p);
        TwoMembers(ships, a, b);
        assert false;
      }
    }
  }

  // ---------------------------------------------------------------------------
  // The loop of the source, cell by cell.

  /** One iteration of detect_collision_between_ships, on the state as the earlier cells left it. */
  function ResolveCell(s: State, c: nat): (r: State)
    requires c < |s.haliteBoard|
  {
    var ships := ShipsAt(s.units, c);
    if |ships| <= 1 then s
    else
      s.(units := seq(|s.units|, k requires 0 <= k < |s.units| => CellFate(ships, s.units[k], c, s.step)),
         haliteBoard := s.haliteBoard[c := 0.0])
  }

  /** The cells 0 .. m - 1 resolved in order. */
  function ResolveCells(s: State, m: nat): (r: State)
    requires m <= |s.haliteBoard|
    ensures |r.haliteBoard| == |s.haliteBoard|
    ensures r.step == s.step && r.haliteScore == s.haliteScore
  {
    if m == 0 then s else ResolveCell(ResolveCells(s, m - 1), m - 1)
  }

  /** The pointwise second phase restricted to the cells below m. */
  function Partial(s: State, m: nat): State
  {
    s.(units := seq(|s.units|, k requires 0 <= k < |s.units| =>
                      if s.units[k].pos.Some? && s.units[k].pos.value < m then Resolve(s, s.units[k]) else s.units[k]),
       haliteBoard := seq(|s.haliteBoard|, p requires 0 <= p < |s.haliteBoard| =>
                            if p < m && Crowded(s, p) then 0.0 else s.haliteBoard[p]))
  }

  /** Restricted to no cell, the pass changes nothing. */
  lemma PartialNone(s: State)
    ensures Partial(s, 0) == s
  {
    assert Partial(s, 0).units == s.units;
    assert Partial(s, 0).haliteBoard == s.haliteBoard;
  }

  /** Cells below m are already resolved, so the ships at cell m are those the pass started with. */
  lemma PartialShipsAt(s: State, m: nat)
    ensures ShipsAt(Partial(s, m).units, m) == ShipsAt(s.units, m)
  {
    var p := Partial(s, m);
    forall k | 0 <= k < |s.units|
      ensures (ShipAt(p.units[k], m) <==> ShipAt(s.units[k], m))
      ensures ShipAt(p.units[k], m) ==> p.units[k] == s.units[k]
    {
      var u := s.units[k];
      if u.pos.Some? && u.pos.value < m && u.unitType == Ship && u.status == Active &&
         |ShipsAt(s.units, u.pos.value)| >= 2 {
        var f := Fate(ShipsAt(s.units, u.pos.value), u, s.step);
        assert p.units[k] == f;
      }
    }
    ShipsAtAgree(p.units, s.units, m);
  }

  /** Resolving cell m after the cells below it gives the pointwise pass restricted to the cells up to m. */
  lemma ResolveCellStep(s: State, m: nat)
    requires m < |s.haliteBoard|
    ensures ResolveCell(Partial(s, m), m) == Partial(s, m + 1)
  {
    var q := ResolveCell(Partial(s, m), m);
    var n := Partial(s, m + 1);
    assert q.units == n.units by {
      forall k | 0 <= k < |s.units| ensures q.units[k] == n.units[k] {
        ResolveCellStepUnit(s, m, k);
      }
    }
    ResolveCellStepBoard(s, m);
  }

  /** ResolveCellStep for the board: cell m is emptied exactly when it is crowded. */
  lemma ResolveCellStepBoard(s: State, m: nat)
    requires m < |s.haliteBoard|
    ensures ResolveCell(Partial(s, m), m).haliteBoard == Partial(s, m + 1).haliteBoard
  {
    var q := ResolveCell(Partial(s, m), m).haliteBoard;
    var n := Partial(s, m + 1).haliteBoard;
    PartialShipsAt(s, m);
    forall p | 0 <= p < |s.haliteBoard| ensures q[p] == n[p] {
    }
  }

  /** ResolveCellStep for the unit at index k. */
  lemma ResolveCellStepUnit(s: State, m: nat, k: nat)
    requires m < |s.haliteBoard| && k < |s.units|
    ensures |ResolveCell(Partial(s, m), m).units| == |s.units|
    ensures ResolveCell(Partial(s, m), m).units[k] == Partial(s, m + 1).units[k]
  {
    var p := Partial(s, m);
    PartialShipsAt(s, m);
    var u := s.units[k];
    if u.pos.Some? && u.pos.value < m && u.unitType == Ship && u.status == Active &&
       |ShipsAt(s.units, u.pos.value)| >= 2 {
      var f := Fate(ShipsAt(s.units, u.pos.value), u, s.step);
      assert p.units[k] == f;
    }
  }

  /** The loop of the source and the pointwise pass agree, cell by cell. */
  lemma {:induction false} ResolveCellsPartial(s: State, m: nat)
    requires m <= |s.haliteBoard|
    ensures ResolveCells(s, m) == Partial(s, m)
  {
    if m == 0 {
      PartialNone(s);
    } else {
      calc {
        ResolveCells(s, m);
        ResolveCell(ResolveCells(s, m - 1), m - 1);
        { ResolveCellsPartial(s, m - 1); }
        ResolveCell(Partial(s, m - 1), m - 1);
        { ResolveCellStep(s, m - 1); }
        Partial(s, m);
      }
    }
  }

  /** On a well-formed state, resolving every cell in order is the pointwise second phase. */
  lemma ResolveAllCells(cfg: Configuration, s: State)
    requires WellFormed(cfg, s)
    ensures ResolveCells(s, |s.haliteBoard|) == CollideShips(s)
  {
    ResolveCellsPartial(s, |s.haliteBoard|);
    var p := Partial(s, |s.haliteBoard|);
    forall k | 0 <= k < |s.units| ensures p.units[k] == Resolve(s, s.units[k]) {
      assert UnitOk(cfg, |s.haliteScore|, s.units[k]);
    }
    assert p.units == CollideShips(s).units;
  }

  // ---------------------------------------------------------------------------
  // Both phases.

  /** _detect_collision: the shipyard phase, then the ship phase on what it left. */
  function Collide(s: State): (r: State)
    ensures r.step == s.step && r.haliteScore == s.haliteScore && |r.units| == |s.units|
    ensures |r.haliteBoard| == |s.haliteBoard|
  {
    CollideShips(CollideWithShipyards(s))
  }

  /** Collisions only delete ships or lower the cargo of an active one, so a well-formed state stays well formed. */
  lemma CollideWellFormed(cfg: Configuration, s: State)
    requires WellFormed(cfg, s)
    ensures WellFormed(cfg, CollideWithShipyards(s))
    ensures WellFormed(cfg, Collide(s))
    ensures forall k :: 0 <= k < |s.units| ==> Collide(s).units[k].uid == s.units[k].uid
  {
    var s1 := CollideWithShipyards(s);
    forall k | 0 <= k < |s.units| ensures UnitOk(cfg, |s.haliteScore|, s1.units[k]) && s1.units[k].uid == s.units[k].uid {
      assert UnitOk(cfg, |s.haliteScore|, s.units[k]);
    }
    assert WellFormed(cfg, s1);
    var r := CollideShips(s1);
    forall k | 0 <= k < |s.units| ensures UnitOk(cfg, |s.haliteScore|, r.units[k]) && r.units[k].uid == s.units[k].uid {
      assert UnitOk(cfg, |s.haliteScore|, s1.units[k]);
    }
  }
}
