/**
 * The random agent's view of the board (halite/agents/random_agent/board.py):
 * three occupancy lists of size * size entries (the owner of the shipyard on
 * each cell, the ship on each cell, and the ships that could reach each cell
 * next turn), two tables by uid, and the actions the agent has chosen so far.
 * The agent moves, converts and spawns on this view so that later choices see
 * the earlier ones.
 */
module RandomBoard {
  import opened Wrappers
  import Topology

  /** A player entry of the observation: balance, shipyards {uid: pos} and ships {uid: [pos, cargo]}, each dict in its order. */
  datatype ObsPlayer = ObsPlayer(halite: real, shipyards: seq<(string, nat)>, ships: seq<(string, (nat, real))>)

  /** What the board reads of the observation: the observing player and every player entry. */
  datatype Observation = Observation(player: nat, players: seq<ObsPlayer>)

  /** The dict the board keeps per shipyard. */
  datatype YardDetails = YardDetails(playerIndex: nat, uid: string, pos: nat)

  /** The dict the board keeps per ship. */
  datatype ShipDetails = ShipDetails(halite: real, playerIndex: nat, uid: string, pos: nat)

  /** The order in which the board visits the four directions. */
  const Directions: seq<Topology.Direction> := [Topology.North, Topology.East, Topology.South, Topology.West]

  /** Every position in the observation is a cell of a board of n cells. */
  predicate OnBoard(n: nat, players: seq<ObsPlayer>)
  {
    forall i :: 0 <= i < |players| ==>
      (forall k :: 0 <= k < |players[i].shipyards| ==> players[i].shipyards[k].1 < n) &&
      (forall k :: 0 <= k < |players[i].ships| ==> players[i].ships[k].1.0 < n)
  }

  // ---------------------------------------------------------------------------
  // The entries the constructor visits, in its order: player by player, each
  // dict in its own order.

  function YardsOf(index: nat, p: ObsPlayer): (r: seq<YardDetails>)
    ensures |r| == |p.shipyards|
    ensures forall k :: 0 <= k < |r| ==> r[k] == YardDetails(index, p.shipyards[k].0, p.shipyards[k].1)
  {
    seq(|p.shipyards|, k requires 0 <= k < |p.shipyards| => YardDetails(index, p.shipyards[k].0, p.shipyards[k].1))
  }

  function ShipsOf(index: nat, p: ObsPlayer): (r: seq<ShipDetails>)
    ensures |r| == |p.ships|
    ensures forall k :: 0 <= k < |r| ==>
              r[k] == ShipDetails(p.ships[k].1.1, index, p.ships[k].0, p.ships[k].1.0)
  {
    seq(|p.ships|, k requires 0 <= k < |p.ships| => ShipDetails(p.ships[k].1.1, index, p.ships[k].0, p.ships[k].1.0))
  }

  /** Extending a prefix of s by one entry appends that entry. */
  lemma AppendNext<T>(a: seq<T>, s: seq<T>, k: nat)
    requires k < |s|
    ensures a + s[..k + 1] == a + s[..k] + [s[k]]
  {
    assert s[..k + 1] == s[..k] + [s[k]];
  }

  function YardEntries(players: seq<ObsPlayer>): seq<YardDetails>
  {
    if players == [] then []
    else YardEntries(players[..|players| - 1]) + YardsOf(|players| - 1, players[|players| - 1])
  }

  function ShipEntries(players: seq<ObsPlayer>): seq<ShipDetails>
  {
    if players == [] then []
    else ShipEntries(players[..|players| - 1]) + ShipsOf(|players| - 1, players[|players| - 1])
  }

  lemma EntriesStep(players: seq<ObsPlayer>, i: nat)
    requires i < |players|
    ensures YardEntries(players[..i + 1]) == YardEntries(players[..i]) + YardsOf(i, players[i])
    ensures ShipEntries(players[..i + 1]) == ShipEntries(players[..i]) + ShipsOf(i, players[i])
  {
    assert players[..i + 1][..i] == players[..i];
  }

  // ---------------------------------------------------------------------------
  // Later writes win: the last entry with a key.

  /** The index of the last occurrence of key, if any. */
  function LastIndexOf<K(==)>(keys: seq<K>, key: K): (r: Option<nat>)
    ensures r.None? <==> key !in keys
    ensures r.Some? ==> r.value < |keys| && keys[r.value] == key && forall j :: r.value < j < |keys| ==> keys[j] != key
  {
    if keys == [] then None
    else if keys[|keys| - 1] == key then Some(|keys| - 1)
    else LastIndexOf(keys[..|keys| - 1], key)
  }

  lemma LastIndexOfAppend<K>(keys: seq<K>, x: K, key: K)
    ensures LastIndexOf(keys + [x], key) == if key == x then Some(|keys|) else LastIndexOf(keys, key)
  {
    assert (keys + [x])[..|keys|] == keys;
  }

  function YardPos(es: seq<YardDetails>): (r: seq<nat>)
    ensures |r| == |es| && forall k :: 0 <= k < |es| ==> r[k] == es[k].pos
  {
    seq(|es|, k requires 0 <= k < |es| => es[k].pos)
  }

  function YardUids(es: seq<YardDetails>): (r: seq<string>)
    ensures |r| == |es| && forall k :: 0 <= k < |es| ==> r[k] == es[k].uid
  {
    seq(|es|, k requires 0 <= k < |es| => es[k].uid)
  }

  function ShipPos(es: seq<ShipDetails>): (r: seq<nat>)
    ensures |r| == |es| && forall k :: 0 <= k < |es| ==> r[k] == es[k].pos
  {
    seq(|es|, k requires 0 <= k < |es| => es[k].pos)
  }

  function ShipUids(es: seq<ShipDetails>): (r: seq<string>)
    ensures |r| == |es| && forall k :: 0 <= k < |es| ==> r[k] == es[k].uid
  {
    seq(|es|, k requires 0 <= k < |es| => es[k].uid)
  }

  /** shipyards: the owner of the last shipyard listed on each cell, -1 on a cell with none. */
  function YardGrid(n: nat, es: seq<YardDetails>): (r: seq<int>)
    ensures |r| == n
  {
    seq(n, p => var k := LastIndexOf(YardPos(es), p); if k.None? then -1 else es[k.value].playerIndex)
  }

  /** ships: the last ship listed on each cell, None on a cell with none. */
  function ShipGrid(n: nat, es: seq<ShipDetails>): (r: seq<Option<ShipDetails>>)
    ensures |r| == n
  {
    seq(n, p => var k := LastIndexOf(ShipPos(es), p); if k.None? then None else Some(es[k.value]))
  }

  /** shipyards_by_uid: every listed uid, with the last shipyard listed under it. */
  function YardIndex(es: seq<YardDetails>): map<string, YardDetails>
  {
    map uid | uid in YardUids(es) :: es[LastIndexOf(YardUids(es), uid).value]
  }

  /** ships_by_uid: every listed uid, with the last ship listed under it. */
  function ShipIndex(es: seq<ShipDetails>): map<string, ShipDetails>
  {
    map uid | uid in ShipUids(es) :: es[LastIndexOf(ShipUids(es), uid).value]
  }

  /** Every neighbour of a cell on the board is on the board. */
  lemma NeighboursOnBoard(size: nat, pos: nat)
    requires 0 < size && pos < size * size
    ensures forall d :: Topology.Neighbour(size, pos, d) < size * size
  {
    forall d ensures Topology.Neighbour(size, pos, d) < size * size {
      Topology.NeighbourOnBoard(size, pos, d);
    }
  }

  /** The four cells get_to_pos reaches from pos, NORTH, EAST, SOUTH and WEST in that order. */
  function Reach(size: nat, pos: nat): (r: seq<nat>)
    requires 0 < size
    ensures |r| == 4 && forall j :: 0 <= j < 4 ==> r[j] == Topology.Neighbour(size, pos, Directions[j])
    ensures pos < size * size ==> forall q :: q in r ==> q < size * size
  {
    if pos < size * size then NeighboursOnBoard(size, pos); seq(4, j requires 0 <= j < 4 => Topology.Neighbour(size, pos, Directions[j]))
    else seq(4, j requires 0 <= j < 4 => Topology.Neighbour(size, pos, Directions[j]))
  }

  /** For cell q, entry k's uid when q is one of the four cells entry k's ship reaches. */
  function ReachKeys(size: nat, es: seq<ShipDetails>, q: int): (r: seq<Option<string>>)
    requires 0 < size
    ensures |r| == |es|
    ensures forall k :: 0 <= k < |es| ==> r[k] == if q in Reach(size, es[k].pos) then Some(es[k].uid) else None
  {
    seq(|es|, k requires 0 <= k < |es| => if q in Reach(size, es[k].pos) then Some(es[k].uid) else None)
  }

  /**
   * possible_ships: on each cell, every ship that reaches it in one move,
   * under its uid, the last such ship listed winning.
   */
  function PossibleGrid(size: nat, es: seq<ShipDetails>): (r: seq<map<string, ShipDetails>>)
    requires 0 < size
    ensures |r| == size * size
  {
    seq(size * size, q => LastWins(ReachKeys(size, es, q), es))
  }

  /** The dict that writing vals[k] under keys[k] in order leaves, entries with no key skipped. */
  function LastWins<V>(keys: seq<Option<string>>, vals: seq<V>): (r: map<string, V>)
    requires |keys| == |vals|
    ensures forall uid :: uid in r <==> Some(uid) in keys
  {
    map uid | uid in Named(keys) :: vals[LastIndexOf(keys, Some(uid)).value]
  }

  /** The keys present among the optional keys. */
  function Named(keys: seq<Option<string>>): (r: set<string>)
    ensures forall uid :: uid in r <==> Some(uid) in keys
  {
    set k | k in keys && k.Some? :: k.value
  }

  /** One more write: under its key if it has one, and nothing otherwise. */
  lemma LastWinsAppend<V>(keys: seq<Option<string>>, vals: seq<V>, key: Option<string>, v: V)
    requires |keys| == |vals|
    ensures LastWins(keys + [key], vals + [v]) == if key.Some? then LastWins(keys, vals)[key.value := v] else LastWins(keys, vals)
  {
    var m, m' := LastWins(keys, vals), LastWins(keys + [key], vals + [v]);
    var expected := if key.Some? then m[key.value := v] else m;
    forall uid | uid in m' ensures uid in expected && m'[uid] == expected[uid] {
      LastIndexOfAppend(keys, key, Some(uid));
      var i := LastIndexOf(keys, Some(uid));
      if i.Some? {
        assert (vals + [v])[i.value] == vals[i.value];
      }
    }
    forall uid | uid in expected ensures uid in m' {
      assert Some(uid) in keys + [key];
    }
  }

  /** The possible_ships lists after entry e marked the first j of its four reachable cells. */
  function ReachedAlong(g: seq<map<string, ShipDetails>>, size: nat, e: ShipDetails, j: nat): (r: seq<map<string, ShipDetails>>)
    requires 0 < size && j <= 4
    ensures |r| == |g|
  {
    seq(|g|, q requires 0 <= q < |g| => if q in Reach(size, e.pos)[..j] then g[q][e.uid := e] else g[q])
  }

  /** Marking one more reachable cell writes the ship into that cell's dict and leaves the rest. */
  lemma ReachedAlongStep(g: seq<map<string, ShipDetails>>, size: nat, e: ShipDetails, j: nat)
    requires 0 < size && j < 4 && Reach(size, e.pos)[j] < |g|
    ensures var q := Reach(size, e.pos)[j];
            var before := ReachedAlong(g, size, e, j);
            ReachedAlong(g, size, e, j + 1) == before[q := before[q][e.uid := e]]
  {
    var q := Reach(size, e.pos)[j];
    var before := ReachedAlong(g, size, e, j);
    var after := ReachedAlong(g, size, e, j + 1);
    assert Reach(size, e.pos)[..j + 1] == Reach(size, e.pos)[..j] + [q];
    forall p | 0 <= p < |g| ensures after[p] == before[q := before[q][e.uid := e]][p] {
      if p == q && q in Reach(size, e.pos)[..j] {
        assert before[q][e.uid := e] == g[q][e.uid := e];
      }
    }
  }

  lemma YardGridPut(n: nat, es: seq<YardDetails>, e: YardDetails)
    requires e.pos < n
    ensures YardGrid(n, es + [e]) == YardGrid(n, es)[e.pos := e.playerIndex]
  {
    forall p | 0 <= p < n ensures YardGrid(n, es + [e])[p] == YardGrid(n, es)[e.pos := e.playerIndex][p] {
      YardGridPutAt(n, es, e, p);
    }
  }

  lemma YardGridPutAt(n: nat, es: seq<YardDetails>, e: YardDetails, p: nat)
    requires e.pos < n && p < n
    ensures YardGrid(n, es + [e])[p] == if p == e.pos then e.playerIndex else YardGrid(n, es)[p]
  {
    var keys := YardPos(es + [e]);
    assert keys == YardPos(es) + [e.pos];
    LastIndexOfAppend(YardPos(es), e.pos, p);
    var k := LastIndexOf(keys, p);
    if p != e.pos && k.Some? {
      assert (es + [e])[k.value] == es[k.value];
    }
  }

  lemma YardIndexPut(es: seq<YardDetails>, e: YardDetails)
    ensures YardIndex(es + [e]) == YardIndex(es)[e.uid := e]
  {
    assert YardUids(es + [e]) == YardUids(es) + [e.uid];
    forall uid | uid in YardIndex(es + [e]) ensures YardIndex(es + [e])[uid] == YardIndex(es)[e.uid := e][uid] {
      LastIndexOfAppend(YardUids(es), e.uid, uid);
    }
  }

  lemma ShipGridPut(n: nat, es: seq<ShipDetails>, e: ShipDetails)
    requires e.pos < n
    ensures ShipGrid(n, es + [e]) == ShipGrid(n, es)[e.pos := Some(e)]
  {
    assert ShipPos(es + [e]) == ShipPos(es) + [e.pos];
    forall p | 0 <= p < n ensures ShipGrid(n, es + [e])[p] == ShipGrid(n, es)[e.pos := Some(e)][p] {
      LastIndexOfAppend(ShipPos(es), e.pos, p);
    }
  }

  lemma ShipIndexPut(es: seq<ShipDetails>, e: ShipDetails)
    ensures ShipIndex(es + [e]) == ShipIndex(es)[e.uid := e]
  {
    assert ShipUids(es + [e]) == ShipUids(es) + [e.uid];
    forall uid | uid in ShipIndex(es + [e]) ensures ShipIndex(es + [e])[uid] == ShipIndex(es)[e.uid := e][uid] {
      LastIndexOfAppend(ShipUids(es), e.uid, uid);
    }
  }

  /** Listing one more ship adds it, under its uid, to exactly the four cells it reaches. */
  lemma PossiblePut(size: nat, es: seq<ShipDetails>, e: ShipDetails)
    requires 0 < size
    ensures PossibleGrid(size, es + [e]) == ReachedAlong(PossibleGrid(size, es), size, e, 4)
  {
    var g, g' := PossibleGrid(size, es), PossibleGrid(size, es + [e]);
    forall q | 0 <= q < size * size ensures g'[q] == ReachedAlong(g, size, e, 4)[q] {
      PossiblePutAt(size, es, e, q);
      assert Reach(size, e.pos)[..4] == Reach(size, e.pos);
    }
  }

  /** PossiblePut on cell q. */
  lemma PossiblePutAt(size: nat, es: seq<ShipDetails>, e: ShipDetails, q: nat)
    requires 0 < size && q < size * size
    ensures PossibleGrid(size, es + [e])[q] ==
            if q in Reach(size, e.pos) then PossibleGrid(size, es)[q][e.uid := e] else PossibleGrid(size, es)[q]
  {
    var reached := q in Reach(size, e.pos);
    assert ReachKeys(size, es + [e], q) == ReachKeys(size, es, q) + [if reached then Some(e.uid) else None];
    LastWinsAppend(ReachKeys(size, es, q), es, if reached then Some(e.uid) else None, e);
  }

  // ---------------------------------------------------------------------------
  // __remove_possibles

  /** The possible_ships lists after the removal, and whether it got through all its directions. */
  datatype Removal = Removal(grid: seq<map<string, ShipDetails>>, ok: bool)

  /**
   * __remove_possibles from pos for the directions ds in order: delete the
   * uid from each reachable cell, stopping with a KeyError at the first cell
   * that does not list it (the earlier deletions stay done).
   */
  function Unreach(g: seq<map<string, ShipDetails>>, size: nat, pos: nat, uid: string, ds: seq<Topology.Direction>): (r: Removal)
    requires 0 < size && pos < size * size && |g| == size * size
    ensures |r.grid| == |g|
    decreases |ds|
  {
    if ds == [] then Removal(g, true)
    else
      var q := Topology.Neighbour(size, pos, ds[0]);
      Topology.NeighbourOnBoard(size, pos, ds[0]);
      if uid !in g[q] then Removal(g, false)
      else Unreach(g[q := g[q] - {uid}], size, pos, uid, ds[1..])
  }

  /** The cells reached from pos along the directions ds. */
  function Along(size: nat, pos: nat, ds: seq<Topology.Direction>): (r: seq<nat>)
    requires 0 < size
    ensures |r| == |ds| && forall j :: 0 <= j < |ds| ==> r[j] == Topology.Neighbour(size, pos, ds[j])
    ensures pos < size * size ==> forall j :: 0 <= j < |ds| ==> r[j] < size * size
  {
    if pos < size * size then NeighboursOnBoard(size, pos); seq(|ds|, j requires 0 <= j < |ds| => Topology.Neighbour(size, pos, ds[j]))
    else seq(|ds|, j requires 0 <= j < |ds| => Topology.Neighbour(size, pos, ds[j]))
  }

  lemma AlongCons(size: nat, pos: nat, ds: seq<Topology.Direction>)
    requires 0 < size && ds != []
    ensures Along(size, pos, ds) == [Topology.Neighbour(size, pos, ds[0])] + Along(size, pos, ds[1..])
  {
  }

  /** No cell occurs twice. */
  predicate Distinct(qs: seq<nat>)
  {
    forall i, j :: 0 <= i < j < |qs| ==> qs[i] != qs[j]
  }

  /**
   * A removal that gets through found the uid on every reached cell and
   * deleted it from exactly those cells.
   */
  lemma {:induction false} UnreachClears(g: seq<map<string, ShipDetails>>, size: nat, pos: nat, uid: string, ds: seq<Topology.Direction>)
    requires 0 < size && pos < size * size && |g| == size * size
    requires Unreach(g, size, pos, uid, ds).ok
    ensures forall q :: q in Along(size, pos, ds) ==> uid in g[q]
    ensures forall q :: 0 <= q < |g| ==>
              Unreach(g, size, pos, uid, ds).grid[q] == if q in Along(size, pos, ds) then g[q] - {uid} else g[q]
    decreases |ds|
  {
    if ds != [] {
      var q0 := Topology.Neighbour(size, pos, ds[0]);
      Topology.NeighbourOnBoard(size, pos, ds[0]);
      AlongCons(size, pos, ds);
      var g1 := g[q0 := g[q0] - {uid}];
      UnreachClears(g1, size, pos, uid, ds[1..]);
    }
  }

  /** When the reached cells are distinct and all list the uid, the removal gets through. */
  lemma {:induction false} UnreachSucceeds(g: seq<map<string, ShipDetails>>, size: nat, pos: nat, uid: string, ds: seq<Topology.Direction>)
    requires 0 < size && pos < size * size && |g| == size * size
    requires Distinct(Along(size, pos, ds))
    requires forall q :: q in Along(size, pos, ds) ==> uid in g[q]
    ensures Unreach(g, size, pos, uid, ds).ok
    decreases |ds|
  {
    if ds != [] {
      var q0 := Topology.Neighbour(size, pos, ds[0]);
      Topology.NeighbourOnBoard(size, pos, ds[0]);
      AlongCons(size, pos, ds);
      var rest := Along(size, pos, ds[1..]);
      var g1 := g[q0 := g[q0] - {uid}];
      forall q | q in rest ensures uid in g1[q] {
        var j :| 0 <= j < |rest| && rest[j] == q;
        assert Along(size, pos, ds)[j + 1] == q;
      }
      assert Distinct(rest) by {
        forall i, j | 0 <= i < j < |rest| ensures rest[i] != rest[j] {
          assert Along(size, pos, ds)[i + 1] == rest[i] && Along(size, pos, ds)[j + 1] == rest[j];
        }
      }
      UnreachSucceeds(g1, size, pos, uid, ds[1..]);
    }
  }

  /** On a board of at least three columns the four cells a ship reaches are distinct. */
  lemma ReachDistinct(size: nat, pos: nat)
    requires 3 <= size && pos < size * size
    ensures Distinct(Reach(size, pos))
  {
    Topology.NorthStep(size, pos);
    Topology.EastStep(size, pos);
    Topology.SouthStep(size, pos);
    Topology.WestStep(size, pos);
  }

  /**
   * Removing a uid along distinct cells that list it only because the ship
   * was written into them gives back the lists as they were.
   */
  lemma RestoreAlong(g: seq<map<string, ShipDetails>>, g1: seq<map<string, ShipDetails>>, size: nat, pos: nat,
                     e: ShipDetails, ds: seq<Topology.Direction>)
    requires 0 < size && pos < size * size && |g| == size * size && |g1| == |g|
    requires Distinct(Along(size, pos, ds))
    requires forall q :: 0 <= q < |g| ==> g1[q] == if q in Along(size, pos, ds) then g[q][e.uid := e] else g[q]
    requires forall q :: q in Along(size, pos, ds) ==> e.uid !in g[q]
    ensures Unreach(g1, size, pos, e.uid, ds) == Removal(g, true)
  {
    UnreachSucceeds(g1, size, pos, e.uid, ds);
    UnreachClears(g1, size, pos, e.uid, ds);
    var r := Unreach(g1, size, pos, e.uid, ds);
    forall q | 0 <= q < |g| ensures r.grid[q] == g[q] {
      if q in Along(size, pos, ds) {
        assert g1[q] - {e.uid} == g[q];
      }
    }
  }

  /**
   * Marking a ship's four reachable cells and then removing them again gives
   * back the lists, on a board of at least three columns, when none of the
   * cells listed a ship under that uid before.
   */
  lemma ReachThenUnreach(g: seq<map<string, ShipDetails>>, size: nat, e: ShipDetails)
    requires 3 <= size && e.pos < size * size && |g| == size * size
    requires forall q :: q in Reach(size, e.pos) ==> e.uid !in g[q]
    ensures Unreach(ReachedAlong(g, size, e, 4), size, e.pos, e.uid, Directions) == Removal(g, true)
  {
    var reach := Reach(size, e.pos);
    ReachDistinct(size, e.pos);
    assert Along(size, e.pos, Directions) == reach;
    assert reach[..4] == reach;
    RestoreAlong(g, ReachedAlong(g, size, e, 4), size, e.pos, e, Directions);
  }

  // ---------------------------------------------------------------------------
  // spawn's uid table, as written and as intended

  /** ships_by_uid: a table by uid, or, once spawn has run, the spawned ship's own dict. */
  datatype UidTable = ByUid(ships: map<string, ShipDetails>) | Overwritten(details: ShipDetails)

  /** ships_by_uid[uid]["pos"]: the dict's own keys give a value that cannot be indexed by "pos". */
  function PositionOf(t: UidTable, uid: string): (r: Result<nat, string>)
    ensures t.Overwritten? ==> r.Failure?
    ensures t.ByUid? ==> (r.Success? <==> uid in t.ships) && (r.Success? ==> r.value == t.ships[uid].pos)
  {
    match t
    case ByUid(m) => if uid in m then Success(m[uid].pos) else Failure("KeyError")
    case Overwritten(_) => if uid in {"halite", "player_index", "uid", "pos"} then Failure("TypeError") else Failure("KeyError")
  }

  /** The details spawn writes: an empty ship of the observing player under a temporary uid. */
  function Spawned(player: nat, yardUid: string, pos: nat): (r: ShipDetails)
    ensures r.halite == 0.0 && r.playerIndex == player && r.pos == pos && r.uid == "Spawn_Ship_" + yardUid
  {
    ShipDetails(0.0, player, "Spawn_Ship_" + yardUid, pos)
  }

  /** Line 70 as written: the table is replaced by the spawned ship's dict. */
  function SpawnTableAsWritten(t: map<string, ShipDetails>, details: ShipDetails): (r: UidTable)
    ensures r.Overwritten? && r.details == details
  {
    Overwritten(details)
  }

  /** As written, every ship the table knew is lost: looking up its position fails. */
  lemma SpawnLosesShips(t: map<string, ShipDetails>, details: ShipDetails, uid: string)
    requires uid in t
    ensures PositionOf(ByUid(t), uid) == Success(t[uid].pos)
    ensures PositionOf(SpawnTableAsWritten(t, details), uid).Failure?
  {
  }

  /** The evident intent: the spawned ship is inserted under its uid. */
  function SpawnTable(t: map<string, ShipDetails>, details: ShipDetails): (r: map<string, ShipDetails>)
    ensures r.Keys == t.Keys + {details.uid} && r[details.uid] == details
    ensures forall uid :: uid in t && uid != details.uid ==> r[uid] == t[uid]
  {
    t[details.uid := details]
  }

  /** As intended, every ship the table knew keeps its position, and the spawned ship can be found. */
  lemma SpawnKeepsShips(t: map<string, ShipDetails>, details: ShipDetails, uid: string)
    requires uid in t && uid != details.uid
    ensures PositionOf(ByUid(SpawnTable(t, details)), uid) == PositionOf(ByUid(t), uid)
    ensures PositionOf(ByUid(SpawnTable(t, details)), details.uid) == Success(details.pos)
  {
  }

  // ---------------------------------------------------------------------------
  // The board

  class Board {
    var action: map<string, string>
    const obs: Observation
    const size: nat
    const shipyards: array<int>
    var shipyardsByUid: map<string, YardDetails>
    const ships: array<Option<ShipDetails>>
    var shipsByUid: map<string, ShipDetails>
    const possibleShips: array<map<string, ShipDetails>>

    /** Every list has one entry per cell, and every uid table entry stands on a cell. */
    ghost predicate Valid()
      reads this
    {
      0 < size && shipyards.Length == size * size && ships.Length == size * size &&
      possibleShips.Length == size * size &&
      (forall uid :: uid in shipyardsByUid ==> shipyardsByUid[uid].pos < size * size) &&
      (forall uid :: uid in shipsByUid ==> shipsByUid[uid].pos < size * size)
    }

    /** The lists and tables hold what writing the given entries in order leaves. */
    ghost predicate Built(yards: seq<YardDetails>, fleet: seq<ShipDetails>)
      requires 0 < size && possibleShips.Length == size * size
      reads this, shipyards, ships, possibleShips
    {
      shipyards[..] == YardGrid(size * size, yards) && shipyardsByUid == YardIndex(yards) &&
      ships[..] == ShipGrid(size * size, fleet) && shipsByUid == ShipIndex(fleet) &&
      possibleShips[..] == PossibleGrid(size, fleet)
    }

    /**
     * __init__: for each player in order, its shipyards and then its ships
     * are written to the lists and tables; each ship is also listed as
     * possible on the four cells it can reach.
     */
    constructor (obs: Observation, size: nat)
      requires 0 < size && OnBoard(size * size, obs.players)
      ensures Valid() && this.obs == obs && this.size == size && action == map[]
      ensures Built(YardEntries(obs.players), ShipEntries(obs.players))
      ensures fresh(shipyards) && fresh(ships) && fresh(possibleShips)
    {
      this.obs := obs;
      this.size := size;
      action := map[];
      shipyards := new int[size * size](_ => -1);
      shipyardsByUid := map[];
      ships := new Option<ShipDetails>[size * size](_ => None);
      shipsByUid := map[];
      possibleShips := new map<string, ShipDetails>[size * size](_ => map[]);
      new;
      assert shipyards[..] == YardGrid(size * size, []);
      assert ships[..] == ShipGrid(size * size, []);
      assert possibleShips[..] == PossibleGrid(size, []);
      var i := 0;
      while i < |obs.players|
        invariant i <= |obs.players| && Valid() && action == map[]
        invariant Built(YardEntries(obs.players[..i]), ShipEntries(obs.players[..i]))
      {
        EntriesStep(obs.players, i);
        PlaceShipyards(i, obs.players[i], YardEntries(obs.players[..i]), ShipEntries(obs.players[..i]));
        PlaceShips(i, obs.players[i], YardEntries(obs.players[..i + 1]), ShipEntries(obs.players[..i]));
        i := i + 1;
      }
      assert obs.players[..i] == obs.players;
    }

    /** The shipyards loop of __init__ for one player. */
    method PlaceShipyards(index: nat, p: ObsPlayer, ghost yards: seq<YardDetails>, ghost fleet: seq<ShipDetails>)
      requires Valid() && Built(yards, fleet)
      requires forall k :: 0 <= k < |p.shipyards| ==> p.shipyards[k].1 < size * size
      modifies this, shipyards
      ensures Valid() && Built(yards + YardsOf(index, p), fleet)
      ensures action == old(action)
    {
      var k := 0;
      assert yards + YardsOf(index, p)[..0] == yards;
      while k < |p.shipyards|
        invariant k <= |p.shipyards| && Valid() && action == old(action)
        invariant Built(yards + YardsOf(index, p)[..k], fleet)
      {
        var (uid, pos) := p.shipyards[k];
        var details := YardDetails(index, uid, pos);
        AppendNext(yards, YardsOf(index, p), k);
        PlaceShipyard(details, yards + YardsOf(index, p)[..k], fleet);
        k := k + 1;
      }
      assert YardsOf(index, p)[..k] == YardsOf(index, p);
    }

    /** One shipyard of the shipyards loop: the owner list and the uid table. */
    method PlaceShipyard(details: YardDetails, ghost before: seq<YardDetails>, ghost fleet: seq<ShipDetails>)
      requires Valid() && Built(before, fleet) && details.pos < size * size
      modifies this, shipyards
      ensures Valid() && Built(before + [details], fleet)
      ensures action == old(action)
    {
      ghost var grid := shipyards[..];
      YardGridPut(size * size, before, details);
      YardIndexPut(before, details);
      shipyards[details.pos] := details.playerIndex;
      shipyardsByUid := shipyardsByUid[details.uid := details];
      assert shipyards[..] == grid[details.pos := details.playerIndex];
      assert ships[..] == old(ships[..]) && possibleShips[..] == old(possibleShips[..]);
    }

    /** The ships loop of __init__ for one player. */
    method PlaceShips(index: nat, p: ObsPlayer, ghost yards: seq<YardDetails>, ghost fleet: seq<ShipDetails>)
      requires Valid() && Built(yards, fleet)
      requires forall k :: 0 <= k < |p.ships| ==> p.ships[k].1.0 < size * size
      modifies this, ships, possibleShips
      ensures Valid() && Built(yards, fleet + ShipsOf(index, p))
      ensures action == old(action)
    {
      var k := 0;
      assert fleet + ShipsOf(index, p)[..0] == fleet;
      while k < |p.ships|
        invariant k <= |p.ships| && Valid() && action == old(action)
        invariant Built(yards, fleet + ShipsOf(index, p)[..k])
      {
        var (uid, ship) := p.ships[k];
        var details := ShipDetails(ship.1, index, uid, ship.0);
        AppendNext(fleet, ShipsOf(index, p), k);
        PlaceShip(details, yards, fleet + ShipsOf(index, p)[..k]);
        k := k + 1;
      }
      assert ShipsOf(index, p)[..k] == ShipsOf(index, p);
    }

    /** One ship of the ships loop: the list, the uid table and the possibles of its reach. */
    method PlaceShip(details: ShipDetails, ghost yards: seq<YardDetails>, ghost before: seq<ShipDetails>)
      requires Valid() && Built(yards, before) && details.pos < size * size
      modifies this, ships, possibleShips
      ensures Valid() && Built(yards, before + [details])
      ensures action == old(action)
    {
      ShipGridPut(size * size, before, details);
      ShipIndexPut(before, details);
      PossiblePut(size, before, details);
      ships[details.pos] := Some(details);
      shipsByUid := shipsByUid[details.uid := details];
      MarkPossible(details);
    }

    /** The directions loop of __init__: the ship is possible on each cell it reaches. */
    method MarkPossible(e: ShipDetails)
      requires 0 < size && possibleShips.Length == size * size && e.pos < size * size
      modifies possibleShips
      ensures possibleShips[..] == ReachedAlong(old(possibleShips[..]), size, e, 4)
    {
      ghost var g := possibleShips[..];
      var j := 0;
      while j < 4
        invariant j <= 4 && possibleShips[..] == ReachedAlong(g, size, e, j)
      {
        var q := Topology.Neighbour(size, e.pos, Directions[j]);
        Topology.NeighbourOnBoard(size, e.pos, Directions[j]);
        ReachedAlongStep(g, size, e, j);
        possibleShips[q] := possibleShips[q][e.uid := e];
        j := j + 1;
      }
    }

    /**
     * __remove_possibles: a KeyError when the ship is not in the uid table;
     * otherwise the removal from its position, as Unreach describes it.
     */
    method RemovePossibles(uid: string) returns (r: Outcome<string>)
      requires Valid()
      modifies possibleShips
      ensures uid !in shipsByUid ==> r == Fail("KeyError") && possibleShips[..] == old(possibleShips[..])
      ensures uid in shipsByUid ==>
                var removal := Unreach(old(possibleShips[..]), size, shipsByUid[uid].pos, uid, Directions);
                possibleShips[..] == removal.grid && (r == Pass <==> removal.ok) && (r != Pass ==> r == Fail("KeyError"))
    {
      if uid !in shipsByUid {
        return Fail("KeyError");
      }
      var pos := shipsByUid[uid].pos;
      var j := 0;
      while j < 4
        invariant j <= 4
        invariant Unreach(possibleShips[..], size, pos, uid, Directions[j..]) ==
                  Unreach(old(possibleShips[..]), size, pos, uid, Directions)
      {
        var q := Topology.Neighbour(size, pos, Directions[j]);
        Topology.NeighbourOnBoard(size, pos, Directions[j]);
        assert Directions[j..][1..] == Directions[j + 1..];
        if uid !in possibleShips[q] {
          return Fail("KeyError");
        }
        possibleShips[q] := possibleShips[q] - {uid};
        j := j + 1;
      }
      r := Pass;
    }

    /**
     * move: records the direction, removes the ship's possibles (a KeyError
     * stops here), and moves its dict from its cell to the neighbouring one,
     * the uid table seeing the new position too.
     */
    method Move(uid: string, d: Topology.Direction) returns (r: Outcome<string>)
      requires Valid()
      modifies this, ships, possibleShips
      ensures Valid() && action == old(action)[uid := Topology.Name(d)]
      ensures shipyardsByUid == old(shipyardsByUid)
      ensures uid !in old(shipsByUid) ==>
                r == Fail("KeyError") && possibleShips[..] == old(possibleShips[..]) &&
                ships[..] == old(ships[..]) && shipsByUid == old(shipsByUid)
      ensures uid in old(shipsByUid) ==>
                var ship := old(shipsByUid)[uid];
                var removal := Unreach(old(possibleShips[..]), size, ship.pos, uid, Directions);
                possibleShips[..] == removal.grid &&
                (!removal.ok ==> r == Fail("KeyError") && ships[..] == old(ships[..]) && shipsByUid == old(shipsByUid)) &&
                (removal.ok ==>
                   var moved := Moved(ship, d);
                   r == Pass && shipsByUid == old(shipsByUid)[uid := moved] &&
                   ships[..] == old(ships[..])[ship.pos := None][moved.pos := Some(moved)])
    {
      action := action[uid := Topology.Name(d)];
      r := RemovePossibles(uid);
      if r != Pass {
        return;
      }
      Relocate(uid, d);
    }

    /** The ship's dict after one step in direction d. */
    function Moved(ship: ShipDetails, d: Topology.Direction): (r: ShipDetails)
      requires 0 < size
      ensures r.pos == Topology.Neighbour(size, ship.pos, d)
      ensures r.uid == ship.uid && r.halite == ship.halite && r.playerIndex == ship.playerIndex
      ensures ship.pos < size * size ==> r.pos < size * size
    {
      if ship.pos < size * size then Topology.NeighbourOnBoard(size, ship.pos, d); ship.(pos := Topology.Neighbour(size, ship.pos, d))
      else ship.(pos := Topology.Neighbour(size, ship.pos, d))
    }

    /** The second half of move: the ship's dict leaves its cell for the neighbouring one. */
    method Relocate(uid: string, d: Topology.Direction)
      requires Valid() && uid in shipsByUid
      modifies this, ships
      ensures Valid() && action == old(action) && shipyardsByUid == old(shipyardsByUid)
      ensures shipsByUid == old(shipsByUid)[uid := Moved(old(shipsByUid)[uid], d)]
      ensures ships[..] == old(ships[..])[old(shipsByUid)[uid].pos := None][Moved(old(shipsByUid)[uid], d).pos := Some(Moved(old(shipsByUid)[uid], d))]
    {
      var ship := shipsByUid[uid];
      var pos := ship.pos;
      var to := Topology.Neighbour(size, pos, d);
      Topology.NeighbourOnBoard(size, pos, d);
      var moved := Moved(ship, d);
      shipsByUid := shipsByUid[uid := moved];
      ghost var before := ships[..];
      ships[pos] := None;
      assert ships[..] == before[pos := None];
      ships[to] := Some(moved);
      assert ships[..] == before[pos := None][to := Some(moved)];
      assert old(shipsByUid)[uid] == ship && before == old(ships[..]);
    }

    /**
     * convert: records CONVERT, removes the ship's possibles (a KeyError stops
     * here), marks the observing player's shipyard on the ship's cell, clears
     * the cell's ship and drops the uid from the table.
     */
    method Convert(uid: string) returns (r: Outcome<string>)
      requires Valid()
      modifies this, shipyards, ships, possibleShips
      ensures Valid() && action == old(action)[uid := "CONVERT"]
      ensures shipyardsByUid == old(shipyardsByUid)
      ensures uid !in old(shipsByUid) ==>
                r == Fail("KeyError") && possibleShips[..] == old(possibleShips[..]) && shipyards[..] == old(shipyards[..]) &&
                ships[..] == old(ships[..]) && shipsByUid == old(shipsByUid)
      ensures uid in old(shipsByUid) ==>
                var pos := old(shipsByUid)[uid].pos;
                var removal := Unreach(old(possibleShips[..]), size, pos, uid, Directions);
                possibleShips[..] == removal.grid &&
                (!removal.ok ==> r == Fail("KeyError") && shipyards[..] == old(shipyards[..]) &&
                                 ships[..] == old(ships[..]) && shipsByUid == old(shipsByUid)) &&
                (removal.ok ==> r == Pass && shipyards[..] == old(shipyards[..])[pos := obs.player as int] &&
                                ships[..] == old(ships[..])[pos := None] && shipsByUid == old(shipsByUid) - {uid})
    {
      action := action[uid := "CONVERT"];
      r := RemovePossibles(uid);
      if r != Pass {
        return;
      }
      var pos := shipsByUid[uid].pos;
      shipyards[pos] := obs.player;
      ships[pos] := None;
      shipsByUid := shipsByUid - {uid};
    }

    /**
     * spawn: records SPAWN; a KeyError for an unknown shipyard; otherwise an
     * empty ship of the observing player under a temporary uid stands on the
     * shipyard's cell and is entered in the uid table (SpawnTable, the
     * intended line 70).
     */
    method Spawn(yardUid: string) returns (r: Outcome<string>)
      requires Valid()
      modifies this, ships
      ensures Valid() && action == old(action)[yardUid := "SPAWN"]
      ensures shipyardsByUid == old(shipyardsByUid)
      ensures yardUid !in shipyardsByUid ==>
                r == Fail("KeyError") && ships[..] == old(ships[..]) && shipsByUid == old(shipsByUid)
      ensures yardUid in shipyardsByUid ==>
                var details := Spawned(obs.player, yardUid, shipyardsByUid[yardUid].pos);
                r == Pass && ships[..] == old(ships[..])[details.pos := Some(details)] &&
                shipsByUid == SpawnTable(old(shipsByUid), details)
    {
      action := action[yardUid := "SPAWN"];
      var tempUid := "Spawn_Ship_" + yardUid;
      if yardUid !in shipyardsByUid {
        return Fail("KeyError");
      }
      var pos := shipyardsByUid[yardUid].pos;
      var details := ShipDetails(0.0, obs.player, tempUid, pos);
      ships[pos] := Some(details);
      shipsByUid := SpawnTable(shipsByUid, details);
      r := Pass;
    }
  }
}
