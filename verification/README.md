# Halite interpreter and agents, modelled in Dafny

This project models the core of a Python re-implementation of the Halite
game. Four players each own ships and shipyards on a square board whose
edges wrap around. Ships move, mine halite from the cells they stand on,
and deposit it at their player's shipyards. A ship can be converted into a
shipyard, and a shipyard can spawn a new ship.

The model covers:

- **The turn interpreter** (`halite/interpreter/game.py`). It has two layers:
  - `GameRules`, `Collisions`, `Turn` and `Setup` state the rules as pure
    functions from one state to the next;
  - class `Game.Game` holds the game's mutable state (step, unit table,
    balances, halite board) and the uid counter. Each of its methods updates
    that state in place and is proved to leave exactly the state the rule
    function prescribes.
- **The interpreter's data** (`state.py`, `constants.py`) and its views of
  that data: the board, the players, and the unit filters. The episode rules
  (`interpreter.py`) and the observation converters (`state_new.py`) are
  modelled too.
- **The object-based prototype**: units and board cells that update their
  own fields (`unit.py`, `board_map.py`).
- **The agents' helpers**:
  - the random agent's board bookkeeping;
  - the rule-based agent's navigator and its A* helpers;
  - the positions of `halite/dtypes.py`;
  - the merge helpers of `halite/utils`.

The model rests on these choices:

- **Units.** The unit table, a dict from uid to unit state, is a sequence
  of `UnitState` values in insertion order with distinct uids. Writing an
  existing uid replaces its entry in place, as a dict does.
- **Uids.** The global uid counter of `state.py` is an object
  (`StateModel.UidCounter`) that the game shares. A uid is `"<step>-<n>"`.
- **Numbers.** Halite amounts are `real`. Python's `int()` on a float is
  `Numbers.Trunc`, which truncates toward zero.
- **Turn outcomes.** A turn either finishes with a new world or raises an
  error that escapes it. A world is a state together with the next counter
  value. The escaping errors are an unknown uid, an action string outside
  `Actions`, and a failed type assertion. An action that is merely refused
  is skipped: an inactive unit, too little halite, or no friendly shipyard.
- **Board positions.** Positions are flat indices `row * size + col`. The
  four neighbours follow the random agent's `get_to_pos`, in
  `Topology.Neighbour`.

## Model

| member | source | states |
|---|---|---|
| Numbers.Trunc | halite/interpreter/game.py:487 | int() of a float: the result is within one of x, toward zero on either sign |
| Numbers.TruncOdd | halite/interpreter/game.py:487 | truncation commutes with negation: int(-x) == -int(x) |
| Constants.Enum | halite/interpreter/constants.py:5-11 | the enum holds exactly the class attributes whose name neither starts nor ends with "__", with their values |
| Constants.AssertValid | halite/interpreter/constants.py:13-17 | passes exactly when the value is the value of some public attribute; otherwise fails naming that value |
| Constants.DunderNames | halite/interpreter/constants.py:10 | the class bookkeeping names __module__ and __qualname__ are not part of any enum |
| Constants.PlainName | halite/interpreter/constants.py:10 | any name that neither starts nor ends with an underscore is public |
| Constants.ActionsEnum | halite/interpreter/constants.py:33-40 | Actions.enum() maps each of the six action names to the same string |
| Constants.ActionsValues | halite/interpreter/constants.py:33-40 | the values of Actions are exactly NORTH, EAST, SOUTH, WEST, CONVERT, SPAWN |
| Constants.UnitStatusValues | halite/interpreter/constants.py:20-24 | the values of UnitStatus are exactly ACTIVE, DESTROYED, CONVERTED |
| Constants.UnitTypeValues | halite/interpreter/constants.py:27-30 | the values of UnitType are exactly SHIP and SHIPYARD |
| Constants.ActionValues | halite/interpreter/constants.py:33-40 | the set of legal action strings is the six action names |
| Constants.ActionsAssertValid | halite/interpreter/constants.py:13-17 | Actions.assert_valid passes exactly on the six action strings |
| Topology.ParseDirection | halite/agents/random_agent/board.py:34-41 | exactly the four compass strings name a direction, and each names the direction it spells |
| Topology.NameParses | halite/agents/random_agent/board.py:34-41 | the name of every direction reads back as that direction |
| Topology.ColRow | halite/agents/random_agent/board.py:27-29 | (col, row) recompose the position as col + row * size with col < size, and row < size on the board |
| Topology.GetToPos | halite/agents/random_agent/board.py:31-41 | get_to_pos gives no cell for a string that is not a direction, and the direction's neighbour otherwise |
| Topology.NorthStep | halite/agents/random_agent/board.py:35 | NORTH keeps the column and goes up one row, wrapping from row 0 to the last row |
| Topology.SouthStep | halite/agents/random_agent/board.py:37 | SOUTH keeps the column and goes down one row, wrapping from the last row to row 0 |
| Topology.EastStep | halite/agents/random_agent/board.py:39 | EAST keeps the row and moves one column right, wrapping from the last column to column 0 |
| Topology.WestStep | halite/agents/random_agent/board.py:41 | WEST keeps the row and moves one column left, wrapping from column 0 to the last column |
| Topology.NeighbourOnBoard | halite/agents/random_agent/board.py:31-41 | every neighbour of a cell of the board is a cell of the board |
| Topology.NeighbourInverse | halite/agents/random_agent/board.py:31-41 | a step in a direction followed by a step in the opposite direction returns to the start |
| Dtypes.Add | halite/dtypes.py:60-70 | adding a direction moves one step on the torus and keeps positions on it; any other operand raises ValueError |
| Dtypes.NorthSouthInverse | halite/dtypes.py:61-64 | north then south, and south then north, return to the position |
| Dtypes.EastWestInverse | halite/dtypes.py:65-68 | east then west, and west then east, return to the position |
| Dtypes.SignedDistance1DAsWritten | halite/dtypes.py:52-57 | signed_distance_1D as written: x2 - x1, less size whenever its magnitude exceeds size / 2, whatever its sign |
| Dtypes.AsWrittenPositiveBranch | halite/dtypes.py:52-57 | when x2 - x1 exceeds size / 2 the written code gives the wrapped distance, negative and at most size / 2 in magnitude |
| Dtypes.SignedDistance1DAsWrittenOverflows | halite/dtypes.py:52-57 | on a ring of 8, from 5 to 0 the written code gives -13 where the shortest signed distance is +3 |
| Dtypes.SignedDistance1D | halite/dtypes.py:52-57 | the shortest signed distance: differs from x2 - x1 by a multiple of size, is at most size / 2 in magnitude, and agrees with the written code except on the negative branch |
| Dtypes.SignedDistance1DSymmetric | halite/dtypes.py:52-57 | the length of the signed distance is the same in both directions |
| Dtypes.AsWrittenAgreesUnlessNegativeWrap | halite/dtypes.py:52-57 | on the board, the written signed distance equals the shortest one exactly when x2 - x1 is not below -size / 2; it is zero exactly when x1 == x2 and is never shorter |
| Dtypes.SignedDistance2AsWritten | halite/dtypes.py:48-50 | signed_distance2 as written: (0, 0) exactly on the same cell, and each axis equals the shortest signed distance exactly when that axis does not wrap negatively |
| Dtypes.Distance2AsWritten | halite/dtypes.py:44-46 | distance2 as written: (0, 0) exactly on the same cell, never below the intended per-axis distances, and equal to them when no axis wraps negatively |
| Dtypes.DistanceAsWritten | halite/dtypes.py:41-42 | distance as written: zero exactly on the same cell, never below the intended wrap-around distance, and equal to it when no axis wraps negatively |
| Dtypes.DistanceAsWrittenAsymmetric | halite/dtypes.py:41-57 | on a board of 8 the written distance from x = 5 to x = 0 is 13, and 3 back, while the intended distance is 3 |
| Dtypes.SignedDistance2 | halite/dtypes.py:48-50 | as intended: the pair of shortest signed distances along x and along y |
| Dtypes.Distance2 | halite/dtypes.py:44-46 | as intended: the pair of absolute distances along each axis, each at most half the size on the torus |
| Dtypes.Distance | halite/dtypes.py:41-42 | as intended: zero from a position to itself and at most size between positions of one torus |
| Dtypes.DistanceSymmetric | halite/dtypes.py:41-46 | as intended: distance(p, q) == distance(q, p) on one torus |
| Dtypes.DistanceZero | halite/dtypes.py:41-46 | as intended: the distance is zero exactly when the positions coincide |
| StateModel.NamesAreConstants | halite/interpreter/state.py:20-27 | the unit types and statuses a unit state takes are exactly the values of UnitType and UnitStatus |
| StateModel.CreateShip | halite/interpreter/state.py:45-57 | create_ship: an active SHIP with the given fields, its cargo, no shipyard fields and nothing deleted or converted |
| StateModel.CreateShipyard | halite/interpreter/state.py:59-70 | create_shipyard: an active SHIPYARD with no cargo, empty spawn and deposit logs, and the ship it came from |
| StateModel.UnitStateEqIgnoresFields | halite/interpreter/state.py:16-43 | unit states compare equal exactly when their uids are equal, and order as their uids do, whatever the other fields |
| StateModel.UnitStateOrder | halite/interpreter/state.py:16-43 | the ordering of unit states is irreflexive, transitive and total up to uid |
| StateModel.StateCompareByStep | halite/interpreter/state.py:73-80 | states compare on the step alone: units, balances and board are ignored, and any two compare |
| StateModel.MakeUidInjective | halite/interpreter/state.py:82-83 | "<step>-<n>" determines both the step and n |
| StateModel.UidCounter.CreateUid | halite/interpreter/state.py:82-83 | create_uid returns "<step>-<n>" for the counter's current n and advances the counter by one |
| StateModel.SuccessiveUidsDistinct | halite/interpreter/state.py:13 | two draws of the shared counter give different uids, whatever the steps |
| StateModel.IndexOf | halite/interpreter/game.py:339 | the first entry of the table under the uid, and none exactly when the uid is absent |
| StateModel.Put | halite/interpreter/game.py:339 | a dict write: an existing uid is replaced where it stands, a new uid is appended; uids stay distinct |
| StateModel.PutFresh | halite/interpreter/game.py:339 | writing a uid that is not in the table appends it |
| GameUnits.Filter | halite/interpreter/game.py:114-124 | _filter_units keeps units in table order and never more than there are |
| GameUnits.FilterMembers | halite/interpreter/game.py:114-124 | a unit is kept exactly when it is in the table and matches the player, class and status asked for |
| GameUnits.FilterAppend | halite/interpreter/game.py:114-124 | filtering a concatenation concatenates the filtered parts |
| GameUnits.FilterAll | halite/interpreter/game.py:114-124 | with no player, class or status the filter returns the whole table |
| GameUnits.FilterByType | halite/interpreter/game.py:114-124 | asking for a class filters the units of the player and status by that class |
| GameUnits.TypesSplit | halite/interpreter/game.py:129-133 | the ships and the shipyards together account for every unit, none twice |
| GameUnits.ShipsAndShipyardsPartition | halite/interpreter/game.py:126-133 | for any player and status, units() splits into ships() and shipyards() |
| GameUnits.Units | halite/interpreter/game.py:126-127 | units(): the units of the given player and status |
| GameUnits.Ships | halite/interpreter/game.py:129-130 | ships(): the SHIP units of the given player and status |
| GameUnits.Shipyards | halite/interpreter/game.py:132-133 | shipyards(): the SHIPYARD units of the given player and status |
| BoardView.Board | halite/interpreter/board.py:21-26 | the board has size * size cells and cell i has position i |
| BoardView.GetItem | halite/interpreter/board.py:49-50 | list indexing: non-negative keys from the front, negative keys from the back, IndexError outside |
| BoardView.BoardIndex | halite/interpreter/board.py:49-50 | every key in range finds the cell of that position, counted from the back when negative |
| BoardView.Halite | halite/interpreter/board.py:93-95 | a cell's halite is read from the state's board |
| BoardView.HaliteFollowsBoard | halite/interpreter/board.py:93-95 | after a write to the board a cell reports the new value, and every other cell its old one |
| BoardView.OccupiedBy | halite/interpreter/board.py:153-163 | the active units standing on the cell |
| BoardView.Lt | halite/interpreter/board.py:121-124 | cell < cell compares halite; against anything else the method returns None |
| BoardView.Eq | halite/interpreter/board.py:126-129 | cell == cell compares halite; against anything else the method returns None |
| BoardView.Gt | halite/interpreter/board.py:131-134 | cell > cell compares halite; against anything else the method returns None |
| BoardView.Plus | halite/interpreter/board.py:136-144 | + adds the halite of another cell, or the number itself |
| BoardView.CellOrder | halite/interpreter/board.py:121-144 | between two cells exactly one of <, ==, > holds, == is equality of halite, < mirrors >, and + is symmetric |
| PlayerView.Halite | halite/interpreter/player.py:36-38 | a player's halite is its entry of halite_score and depends on nothing else |
| PlayerView.Units | halite/interpreter/player.py:40-42 | the active units of the player |
| PlayerView.Ships | halite/interpreter/player.py:44-46 | the active ships of the player |
| PlayerView.Shipyards | halite/interpreter/player.py:48-50 | the active shipyards of the player |
| PlayerView.ShipsAndShipyardsAreUnits | halite/interpreter/player.py:40-50 | a player's units are its ships plus its shipyards, in number and in membership |
| PlayerView.PlayersDisjoint | halite/interpreter/player.py:40-42 | no unit belongs to two players |
| GameRules.Charge | halite/interpreter/game.py:257 | the player's balance drops by the amount and every other balance is untouched |
| GameRules.SumCharge | halite/interpreter/game.py:257 | charging a player removes exactly the amount from the sum of balances |
| GameRules.ValidateUnit | halite/interpreter/game.py:213-218 | another player's unit or the wrong class aborts the turn with AssertionError; an inactive unit is refused; otherwise the action goes ahead |
| GameRules.Deleted | halite/interpreter/game.py:203-208 | a deleted ship keeps uid, class and owner, loses cargo and position, and records its status and the step |
| GameRules.DeleteShip | halite/interpreter/game.py:203-208 | only the ship's entry changes, and the halite it carried leaves the game |
| GameRules.SpawnedShip | halite/interpreter/game.py:342-360 | the spawned ship takes the next uid, stands on the shipyard, belongs to its owner and is empty |
| GameRules.Spawn | halite/interpreter/game.py:220-235 | refused exactly when the balance is below spawn_cost; otherwise the balance pays spawn_cost, the new ship is added and one uid is drawn |
| GameRules.ConvertedYard | halite/interpreter/game.py:362-371 | the new shipyard takes the next uid, stands where the ship stood, belongs to its owner and records the ship |
| GameRules.AfterConvert | halite/interpreter/game.py:237-270 | the owner pays convert_cost less cargo, the cell is emptied, the shipyard is added, and the ship is marked and deleted as CONVERTED |
| GameRules.ConvertedShipIndex | halite/interpreter/game.py:258-263 | after the shipyard is added, looking the ship up by uid finds it where it was |
| GameRules.Convert | halite/interpreter/game.py:237-270 | refused exactly when the balance is below convert_cost less cargo or a friendly shipyard is on the cell; otherwise AfterConvert |
| GameRules.Moved | halite/interpreter/game.py:272-283 | a moved ship keeps (1 - move_cost) of its cargo, stands on the neighbouring cell, and nothing else of it changes |
| GameRules.Move | halite/interpreter/game.py:272-283 | a valid move is never refused and changes only the ship's entry |
| GameRules.MinedAmount | halite/interpreter/game.py:293-296 | the mined amount is cell * collect_rate, raised to 1 when smaller |
| GameRules.MineShip | halite/interpreter/game.py:287-300 | the cargo gains exactly what the cell loses, nothing else changes, and total halite is conserved |
| GameRules.Mine | halite/interpreter/game.py:287-300 | after validation, the ship mines |
| GameRules.DepositShip | halite/interpreter/game.py:302-317 | the whole cargo moves onto the player's balance, and total halite is conserved |
| GameRules.Deposit | halite/interpreter/game.py:302-317 | deposits exactly when a friendly shipyard stands on the ship's cell, and is refused otherwise |
| GameRules.SpawnWellFormed | halite/interpreter/game.py:220-235 | a successful spawn keeps the state well formed and the number of players |
| GameRules.SpawnLedger | halite/interpreter/game.py:220-235 | a successful spawn with a fresh uid removes exactly spawn_cost from the game's total halite |
| GameRules.ConvertWellFormed | halite/interpreter/game.py:237-270 | a successful convert keeps the state well formed, even when the new uid is already taken |
| GameRules.ConvertLedger | halite/interpreter/game.py:237-270 | a convert removes convert_cost and the halite of the emptied cell from the game's total |
| GameRules.MoveLedger | halite/interpreter/game.py:272-283 | a move keeps the state well formed and removes move_cost of the ship's cargo from the total |
| GameRules.MineDepositWellFormed | halite/interpreter/game.py:287-317 | mining and depositing keep the state well formed and the number of players |
| Collisions.CollideWithShipyards | halite/interpreter/game.py:168-179 | every active ship on an active enemy shipyard is destroyed at this step, and every other unit is untouched |
| Collisions.ShipyardsKept | halite/interpreter/game.py:168-179 | the shipyards after the first phase are exactly those before it |
| Collisions.NoShipOnEnemyShipyard | halite/interpreter/game.py:168-179 | after the first phase no active ship stands on an enemy shipyard, and every shipyard entry is unchanged |
| Collisions.EnemyShipyardStable | halite/interpreter/game.py:168-179 | while the shipyards are unchanged, whether a ship stands on an enemy shipyard does not change |
| Collisions.ShipsAt | halite/interpreter/game.py:183-186 | the active ships on the cell, in table order |
| Collisions.MaxCargo | halite/interpreter/game.py:188 | an upper bound on every cargo that some ship carries |
| Collisions.LeaderIndex | halite/interpreter/game.py:188 | ships[0] after the stable sort by descending cargo: the first ship carrying the largest cargo |
| Collisions.SecondLargest | halite/interpreter/game.py:191 | ships[1].halite after the sort: the largest cargo among the other ships, at most the leader's |
| Collisions.Fate | halite/interpreter/game.py:188-198 | a ship in a crowded cell either keeps status and place with less cargo or is destroyed; uid, class and owner never change |
| Collisions.CellFate | halite/interpreter/game.py:183-198 | resolving a cell touches the active ships on it and no other unit |
| Collisions.CollideShips | halite/interpreter/game.py:181-198 | every unit meets its fate in its own cell, and exactly the cells that held two or more active ships are emptied |
| Collisions.SecondPhaseRule | halite/interpreter/game.py:181-198 | a lone ship is untouched; in a crowded cell the others are destroyed and the leader is destroyed on a tie, else keeps a positive cargo reduced by the second largest |
| Collisions.SecondPhaseSeparates | halite/interpreter/game.py:181-198 | after the second phase no two active ships share a cell |
| Collisions.ResolveCells | halite/interpreter/game.py:181-198 | resolving cells one by one keeps the step, the balances and the board size |
| Collisions.ResolveCellStep | halite/interpreter/game.py:181-198 | resolving cell m after the cells below it is the same as resolving all cells up to m at once |
| Collisions.ResolveCellsPartial | halite/interpreter/game.py:181-198 | the cell-by-cell loop over the first m cells is the same as resolving those m cells at once |
| Collisions.ResolveAllCells | halite/interpreter/game.py:181-198 | the loop over all cells equals the whole second phase: the cell order does not matter |
| Collisions.Collide | halite/interpreter/game.py:135-201 | _detect_collision keeps the step, the balances, and the sizes of the unit table and board |
| Collisions.CollideWellFormed | halite/interpreter/game.py:135-201 | both collision phases keep the state well formed |
| Turn.LookupUnit | halite/interpreter/game.py:392-394 | finds the player's active unit with the uid, or reports that none of its active units has it |
| Turn.ParseAction | halite/interpreter/game.py:381-388 | reads exactly the strings assert_valid accepts, SPAWN as spawn, CONVERT as convert, and the compass names as moves |
| Turn.InterpretAction | halite/interpreter/game.py:381-388 | aborts on an unknown string or an action for the wrong class; only spawn and convert can be refused; each applied action is its rule |
| Turn.InterpretActionWellFormed | halite/interpreter/game.py:381-388 | an applied action keeps the state well formed, the step and the players, and draws at most one uid |
| Turn.PlayerActions | halite/interpreter/game.py:390-401 | a finished loop keeps the state well formed and the step; either way at most one uid per action is drawn |
| Turn.UnknownUidAborts | halite/interpreter/game.py:393-394 | a uid that is not an active unit of the player raises InvalidUnitError at once |
| Turn.RefusedIsSkipped | halite/interpreter/game.py:395-401 | a refused action changes nothing, and the loop goes on with the next action |
| Turn.PlayerActionsAppend | halite/interpreter/game.py:391-401 | two stretches of actions run in turn, and an error in the first ends both |
| Turn.ApplyActions | halite/interpreter/game.py:373-401 | the players' action dicts in order keep the state well formed; the counter never goes back |
| Turn.CollectOne | halite/interpreter/game.py:414-418 | an idle ship on a friendly shipyard deposits its whole cargo, elsewhere it gains at least one unit; only that entry changes and total halite is conserved |
| Turn.CollectFrom | halite/interpreter/game.py:413-418 | the loop over the player's ships keeps the state well formed and conserves total halite |
| Turn.Collect | halite/interpreter/game.py:411-418 | _collect_halite keeps the state well formed and conserves total halite |
| Turn.IdleElsewhere | halite/interpreter/game.py:413-418 | collecting one idle ship leaves every other unit, and whether it is idle, unchanged |
| Turn.CollectFromKeeps | halite/interpreter/game.py:413-418 | the loop leaves unchanged every unit that is not an idle ship of the player, including every ship that had an action |
| Turn.CollectFromCollects | halite/interpreter/game.py:413-418 | the loop collects every idle ship of the player: a deposit on a friendly shipyard, a mine of at least one unit elsewhere |
| Turn.Regenerate | halite/interpreter/game.py:420-433 | each vacant cell holding halite grows by the factor 1 + regen_rate; every other cell and the rest of the state stay the same |
| Turn.OccupiedCellsKeepHalite | halite/interpreter/game.py:422 | a cell where an active unit stands never regenerates |
| Turn.Interpret | halite/interpreter/game.py:435-444 | a finished turn advances the step by exactly one and keeps the state well formed and the players |
| Turn.Resolve | halite/interpreter/game.py:441-443 | collisions, collection and regeneration keep the state well formed, the step and the players |
| Setup.StartingPositions | halite/interpreter/game.py:501-513 | one start position per player; with a player count other than 1, 2 or 4 every ship starts at position 0 |
| Setup.CeilThreeQuarters | halite/interpreter/game.py:507 | the integer (3 * size + 3) / 4 is math.ceil(3 * size / 4) |
| Setup.StartingPositionsOnBoard | halite/interpreter/game.py:501-513 | on a non-empty board every start position is a cell of the board |
| Setup.FourPlayersCorners | halite/interpreter/game.py:501-513 | with four players and size divisible by four, the ships start at rows and columns q and size - q, where q = size / 4 |
| Setup.Fold | halite/interpreter/game.py:488-491 | the quarter index of a row or column: the row itself or its mirror size - 1 - row, below half the size |
| Setup.NormalizedBoard | halite/interpreter/game.py:479-493 | ZeroDivisionError exactly when the grid sums to zero on a non-empty board; otherwise size * size cells |
| Setup.Origin | halite/interpreter/game.py:488-491 | the quarter-grid entry a board cell is filled from lies inside the quarter grid |
| Setup.MirrorIndex | halite/interpreter/game.py:488-491 | the four cells written for quarter entry (r, c) are cells of the board that take their value from (r, c) |
| Setup.OriginOf | halite/interpreter/game.py:488-491 | the cell (row, col) is filled from the quarter entry at its folded row and column |
| Setup.OriginCover | halite/interpreter/game.py:488-491 | every board cell is one of the four mirror cells of its origin, so every cell is written |
| Setup.NormalizedCell | halite/interpreter/game.py:483-491 | cell (row, col) holds int(grid entry * halite / total / 4) for its folded row and column |
| Setup.NormalizedMirror | halite/interpreter/game.py:488-491 | the board is symmetric left to right and top to bottom |
| Setup.StartingShips | halite/interpreter/game.py:515-519 | player p gets one empty, active ship at its start position, created at step 0, with the p-th uid drawn |
| Setup.StartingShipsPut | halite/interpreter/game.py:515-519 | adding the next starting ship extends the table by that ship, because its uid is fresh |
| Setup.Initial | halite/interpreter/game.py:527-537 | step 0, every balance the starting halite, the normalized board, one uid per player; it fails exactly when the grid sums to zero |
| Setup.InitialShips | halite/interpreter/game.py:500-537 | the first state is well formed and player p owns exactly an empty active ship at its start position |
| Game.NormalizeHalite | halite/interpreter/game.py:479-493 | the board the nested loop writes is the one NormalizedBoard describes, with the same ZeroDivisionError |
| Game.MirrorCells | halite/interpreter/game.py:488-491 | the four writes of one loop iteration go to board cells whose origin is the current quarter entry |
| Game.MirrorCellsFrom | halite/interpreter/game.py:488-491 | given the row offsets, the four written cells are on the board and are the only cells with this origin |
| Game.FillMirrors | halite/interpreter/game.py:488-491 | one iteration writes the scaled value to every cell with origin (row, col) and keeps the cells already filled |
| Game.Game.constructor | halite/interpreter/game.py:47-55 | a game of the configuration, player count and starting halite, sharing the given uid counter |
| Game.Game.DeleteShip | halite/interpreter/game.py:203-208 | the state becomes GameRules.DeleteShip of the old state |
| Game.Game.Spawn | halite/interpreter/game.py:220-235 | the state and counter become those GameRules.Spawn gives, and the result reports its outcome |
| Game.Game.Convert | halite/interpreter/game.py:237-270 | the state and counter become those GameRules.Convert gives, and the result reports its outcome |
| Game.Game.Converting | halite/interpreter/game.py:238-263 | the in-place steps of a conversion leave exactly GameRules.AfterConvert |
| Game.Game.Move | halite/interpreter/game.py:272-283 | the state becomes the one GameRules.Move gives |
| Game.Game.Mine | halite/interpreter/game.py:287-300 | the state becomes the one GameRules.Mine gives |
| Game.Game.Deposit | halite/interpreter/game.py:302-317 | the state becomes the one GameRules.Deposit gives |
| Game.Game.CollideWithShipyards | halite/interpreter/game.py:168-179 | the loop leaves Collisions.CollideWithShipyards of the old state |
| Game.Game.CollideWithShipyardsAt | halite/interpreter/game.py:170-179 | one iteration destroys unit k exactly when it is a ship on an enemy shipyard |
| Game.Game.CollideShipsAt | halite/interpreter/game.py:183-198 | one cell of the loop leaves Collisions.ResolveCell of the old state |
| Game.Game.CollideShipAt | halite/interpreter/game.py:188-198 | one unit of a crowded cell becomes its CellFate |
| Game.Game.DetectCollision | halite/interpreter/game.py:135-201 | the two passes leave Collisions.Collide of the old state |
| Game.Game.CollideAllCells | halite/interpreter/game.py:181-198 | the loop over all cells leaves the cell-by-cell resolution of the old state |
| Game.Game.CollectPlayer | halite/interpreter/game.py:412-418 | one player's loop leaves Turn.CollectFrom of the old state |
| Game.Game.CollectHalite | halite/interpreter/game.py:411-418 | the loop over players leaves Turn.Collect of the old state |
| Game.Game.RegenerateHalite | halite/interpreter/game.py:420-433 | the loop over cells leaves Turn.Regenerate of the old state |
| Game.Game.RegenerateCell | halite/interpreter/game.py:421-430 | one cell takes its regrown value, and nothing else changes |
| Game.Game.InterpretAction | halite/interpreter/game.py:381-388 | the state and counter become those Turn.InterpretAction gives |
| Game.Game.PlayerActions | halite/interpreter/game.py:391-401 | the loop leaves what Turn.PlayerActions gives, or returns the error it raises |
| Game.Game.PlayerAction | halite/interpreter/game.py:392-401 | one entry of the loop: the rest of the actions give from the new state what the whole list gives from the old one |
| Game.Game.InterpretActions | halite/interpreter/game.py:373-401 | the loop over players leaves what Turn.ApplyActions gives, or returns its error |
| Game.Game.ResolveTurn | halite/interpreter/game.py:441-443 | collisions, collection and regeneration in place leave Turn.Resolve of the old state |
| Game.Game.Interpret | halite/interpreter/game.py:435-444 | loading a state and interpreting in place gives what Turn.Interpret gives |
| Game.Game.Initial | halite/interpreter/game.py:527-537 | the first state built in place is the one Setup.Initial describes |
| Game.Game.PlaceStartingShips | halite/interpreter/game.py:515-519 | the loop creates exactly Setup.StartingShips and draws one uid per ship |
| Game.Game.PlaceStartingShip | halite/interpreter/game.py:515-519 | one iteration extends the table by the next starting ship |
| Interpreter.Reward | halite/interpreter/interpreter.py:13-16 | an active or finished player earns its balance, any other player nothing |
| Interpreter.ActivePlayers | halite/interpreter/interpreter.py:20-22 | exactly the players whose status is ACTIVE |
| Interpreter.Done | halite/interpreter/interpreter.py:19-23 | done exactly when at most one player is active in a game of several players |
| Interpreter.PlayerStatus | halite/interpreter/interpreter.py:26-29 | only an active player in a done episode changes status, and it becomes DONE |
| Interpreter.Finish | halite/interpreter/interpreter.py:49 | every player takes the status _player_status gives it |
| Interpreter.SinglePlayerNeverDone | halite/interpreter/interpreter.py:19-23 | a game of one player is never done |
| Interpreter.AllButOneLostIsDone | halite/interpreter/interpreter.py:19-23 | when all players but one have lost, the episode is done |
| Interpreter.FinishedEpisode | halite/interpreter/interpreter.py:44-54 | finishing a done episode leaves nobody active, makes exactly the active and done players DONE, and changes no reward |
| Interpreter.RunningEpisode | halite/interpreter/interpreter.py:26-29 | while the episode runs nobody's status changes |
| StateNew.PlayerFrom | halite/interpreter/state_new.py:29-35 | one record per dict entry, keyed and labelled by its uid |
| StateNew.PlayerTo | halite/interpreter/state_new.py:37-42 | the balance, each shipyard's position, and each ship's [pos, halite] under the same keys |
| StateNew.PlayerRoundTrip | halite/interpreter/state_new.py:29-42 | reading a player entry and writing it back gives the entry |
| StateNew.PlayerRoundTripBack | halite/interpreter/state_new.py:29-42 | writing a player and reading it back gives the player exactly when its dicts are keyed by uid |
| StateNew.ObservationFrom | halite/interpreter/state_new.py:51-57 | step, board and every player are read; the observer index is dropped |
| StateNew.ObservationTo | halite/interpreter/state_new.py:59-65 | the same fields with the given observer |
| StateNew.ObservationRoundTrip | halite/interpreter/state_new.py:51-65 | an observation read and written for its own observer is unchanged |
| StateNew.ObservationRoundTripBack | halite/interpreter/state_new.py:51-65 | an observation written and read back is unchanged when its players are keyed by uid |
| StateNew.AgentFrom | halite/interpreter/state_new.py:75-82 | action, reward, info and status are copied |
| StateNew.AgentTo | halite/interpreter/state_new.py:84-91 | the same fields with the given observation |
| StateNew.AgentRoundTrip | halite/interpreter/state_new.py:75-91 | an agent written and read back is unchanged |
| StateNew.AgentRoundTripBack | halite/interpreter/state_new.py:75-91 | an agent read and written back with its own observation is unchanged |
| StateNew.StateFrom | halite/interpreter/state_new.py:100-105 | IndexError exactly on an empty list; otherwise every agent, and the first agent's observation |
| StateNew.StateTo | halite/interpreter/state_new.py:107-110 | entry i is agent i with the shared observation as seen by player i |
| StateNew.StateToEntries | halite/interpreter/state_new.py:107-110 | entry i names player i as observer and carries agent i's own fields |
| StateNew.StateRoundTrip | halite/interpreter/state_new.py:100-110 | a state with agents, written and read back, is unchanged when its players are keyed by uid |
| Unit.ActiveCheck | halite/interpreter/unit.py:107-109 | InactiveUnitError naming the unit exactly when it is not ACTIVE |
| Unit.SpawnedFrom | halite/interpreter/unit.py:203-234 | the spawned ship is empty, active, on the shipyard, owned by its player and records the shipyard |
| Unit.ConvertedFrom | halite/interpreter/unit.py:299-336 | the new shipyard stands where the ship stood, is owned by its player, records the ship and has an empty deposit log |
| Unit.ConvertCharge | halite/interpreter/unit.py:326 | int(convert_cost - cargo), truncated toward zero |
| Unit.SameRulesAsGame | halite/interpreter/unit.py:203-336 | given the same uid and step, the prototype spawns and converts to exactly the units game.py creates |
| Unit.Unit.constructor | halite/interpreter/unit.py:37-40 | the unit wraps the given state |
| Unit.Unit.ReceiveDeposit | halite/interpreter/unit.py:182-197 | an active shipyard appends one record of the ship's cargo to its deposit log; an inactive one raises and keeps its state |
| Unit.Unit.Spawn | halite/interpreter/unit.py:203-234 | InactiveUnitError, then CantSpawnError below spawn_cost; otherwise it returns the new ship and the cost and records the new uid |
| Unit.Unit.Delete | halite/interpreter/unit.py:293-297 | the ship becomes GameRules.Deleted of itself |
| Unit.Unit.Move | halite/interpreter/unit.py:263-275 | InactiveUnitError, or the ship becomes exactly the ship game.py's _move produces |
| Unit.Unit.Mine | halite/interpreter/unit.py:277-287 | InactiveUnitError, or the cargo gains exactly what the cell gives up, so cargo plus cell halite is unchanged |
| Unit.Unit.Convert | halite/interpreter/unit.py:299-336 | InactiveUnitError, CantConvertError for too little halite or an existing shipyard, or the new shipyard and int cost, with the cell emptied and the ship deleted |
| Unit.Unit.FirstFriendlyYard | halite/interpreter/unit.py:343-350 | the first shipyard of the same player among the cell's units, or none exactly when there is none |
| Unit.Unit.Deposit | halite/interpreter/unit.py:338-359 | InactiveUnitError, CantDepositError without a friendly shipyard, or the first one logs the cargo and the ship returns it and keeps none; no other unit changes |
| Unit.Unit.Destroy | halite/interpreter/unit.py:361-367 | InactiveUnitError, or the ship is deleted as DESTROYED |
| Unit.Unit.Damage | halite/interpreter/unit.py:369-380 | InactiveUnitError, or the cargo drops by exactly the amount |
| BoardMap.MineSplit | halite/interpreter/board_map.py:180-187 | the mined share is halite * collect_rate, and mined plus kept is the old halite |
| BoardMap.MineSplitBounds | halite/interpreter/board_map.py:180-187 | with a rate between 0 and 1, both shares lie between zero and the cell's halite |
| BoardMap.Regenerated | halite/interpreter/board_map.py:155-162 | an occupied cell keeps its halite, and a free one grows by the factor 1 + regen_rate |
| BoardMap.Cell.constructor | halite/interpreter/board_map.py:89-92 | a cell at the position holding the halite |
| BoardMap.Cell.OccupiedBy | halite/interpreter/board_map.py:196-204 | every unit of the table at the cell's position, whatever its status |
| BoardMap.Cell.Mine | halite/interpreter/board_map.py:180-187 | the cell keeps the rest and returns the mined share |
| BoardMap.Cell.Regenerate | halite/interpreter/board_map.py:155-162 | the cell's halite becomes Regenerated of the old halite, given whether it is occupied |
| BoardMap.Cell.Destroy | halite/interpreter/board_map.py:164-171 | the cell holds no halite |
| BoardMap.Cell.Convert | halite/interpreter/board_map.py:173-178 | the cell holds no halite |
| BoardMap.Cell.Plus | halite/interpreter/board_map.py:145-153 | + adds the other cell's halite or the number |
| BoardMap.CellOrder | halite/interpreter/board_map.py:136-153 | exactly one of <, ==, > holds between two cells, == ignores position, < mirrors >, and + is symmetric |
| BoardMap.Map.constructor | halite/interpreter/board_map.py:22-24 | the map holds exactly the given board cells |
| BoardMap.Map.Neighbour | halite/interpreter/board_map.py:124-134 | the neighbouring cell is a cell of the map at get_to_pos of the position |
| BoardMap.Map.CellsFromHalite | halite/interpreter/board_map.py:26-33 | one new cell per entry, cell i at position i holding entry i |
| BoardMap.Map.Regenerate | halite/interpreter/board_map.py:62-67 | every cell regenerates against the same unit table |
| RandomBoard.YardsOf | halite/agents/random_agent/board.py:16-18 | one shipyard record per entry of the player's shipyard dict, in order |
| RandomBoard.ShipsOf | halite/agents/random_agent/board.py:19-21 | one ship record per entry of the player's ship dict, in order |
| RandomBoard.EntriesStep | halite/agents/random_agent/board.py:14-23 | one more player appends its shipyards and its ships to the records so far |
| RandomBoard.YardGrid | halite/agents/random_agent/board.py:8 | the shipyard owner list has one entry per cell |
| RandomBoard.ShipGrid | halite/agents/random_agent/board.py:10 | the ship list has one entry per cell |
| RandomBoard.NeighboursOnBoard | halite/agents/random_agent/board.py:24-25 | every neighbour of a cell of the board is a cell of the board |
| RandomBoard.Reach | halite/agents/random_agent/board.py:24-25 | the four cells a ship reaches, NORTH, EAST, SOUTH and WEST in order, all on the board |
| RandomBoard.PossibleGrid | halite/agents/random_agent/board.py:12 | the possible-ships list has one dict per cell |
| RandomBoard.ReachedAlong | halite/agents/random_agent/board.py:24-25 | marking reachable cells keeps one dict per cell |
| RandomBoard.YardGridPut | halite/agents/random_agent/board.py:17 | one more shipyard writes its owner on its cell and nowhere else |
| RandomBoard.YardIndexPut | halite/agents/random_agent/board.py:18 | one more shipyard is entered under its uid |
| RandomBoard.ShipGridPut | halite/agents/random_agent/board.py:22 | one more ship is written on its cell and nowhere else |
| RandomBoard.ShipIndexPut | halite/agents/random_agent/board.py:23 | one more ship is entered under its uid |
| RandomBoard.PossiblePut | halite/agents/random_agent/board.py:24-25 | one more ship is added, under its uid, to exactly the four cells it reaches |
| RandomBoard.Unreach | halite/agents/random_agent/board.py:72-76 | __remove_possibles keeps one dict per cell |
| RandomBoard.UnreachClears | halite/agents/random_agent/board.py:72-76 | a removal that gets through found the uid on every reached cell and deleted it from exactly those cells |
| RandomBoard.UnreachSucceeds | halite/agents/random_agent/board.py:72-76 | when the reached cells are distinct and all list the uid, the removal gets through |
| RandomBoard.ReachDistinct | halite/agents/random_agent/board.py:24-25 | on a board of at least three columns the four reached cells are distinct |
| RandomBoard.RestoreAlong | halite/agents/random_agent/board.py:72-76 | removing a uid that was written only along distinct cells gives back the old lists |
| RandomBoard.ReachThenUnreach | halite/agents/random_agent/board.py:72-76 | marking a ship's reach and then removing it restores the possible-ships lists |
| RandomBoard.PositionOf | halite/agents/random_agent/board.py:47-48 | ships_by_uid[uid]["pos"] fails on the overwritten table and otherwise finds a listed ship's position |
| RandomBoard.Spawned | halite/agents/random_agent/board.py:66-68 | the spawned details: no cargo, the observing player, the shipyard's cell, uid "Spawn_Ship_" + shipyard uid |
| RandomBoard.SpawnTableAsWritten | halite/agents/random_agent/board.py:70 | as written, the uid table is replaced by the spawned ship's dict |
| RandomBoard.SpawnLosesShips | halite/agents/random_agent/board.py:70 | as written, every ship the table knew can no longer be found after a spawn |
| RandomBoard.SpawnTable | halite/agents/random_agent/board.py:70 | as intended, the spawned ship is entered under its uid and every other entry stays |
| RandomBoard.SpawnKeepsShips | halite/agents/random_agent/board.py:70 | as intended, every known ship keeps its position and the spawned ship can be found |
| RandomBoard.Board.constructor | halite/agents/random_agent/board.py:2-25 | the lists and tables hold what writing every player's shipyards and then its ships leaves |
| RandomBoard.Board.PlaceShipyards | halite/agents/random_agent/board.py:16-18 | the shipyard loop of one player writes its shipyards in order |
| RandomBoard.Board.PlaceShipyard | halite/agents/random_agent/board.py:17-18 | one shipyard is written to the owner list and the uid table |
| RandomBoard.Board.PlaceShips | halite/agents/random_agent/board.py:19-25 | the ship loop of one player writes its ships in order |
| RandomBoard.Board.PlaceShip | halite/agents/random_agent/board.py:20-25 | one ship is written to the list, to the uid table and to the possibles of its reach |
| RandomBoard.Board.MarkPossible | halite/agents/random_agent/board.py:24-25 | the ship is written into the dicts of its four reachable cells |
| RandomBoard.Board.RemovePossibles | halite/agents/random_agent/board.py:72-76 | KeyError for an unknown ship; otherwise the removal Unreach describes, with a KeyError when a cell lacks the uid |
| RandomBoard.Board.Move | halite/agents/random_agent/board.py:43-52 | records the direction; on success the ship leaves its cell for the neighbour and the table sees the new position |
| RandomBoard.Board.Moved | halite/agents/random_agent/board.py:47-50 | the ship's dict after one step: the neighbouring position, the rest unchanged |
| RandomBoard.Board.Relocate | halite/agents/random_agent/board.py:47-52 | the ship leaves its cell for the neighbouring one, in the list and in the table |
| RandomBoard.Board.Convert | halite/agents/random_agent/board.py:54-61 | records CONVERT; on success the cell shows the observer's shipyard and no ship, and the uid leaves the table |
| RandomBoard.Board.Spawn | halite/agents/random_agent/board.py:63-70 | records SPAWN; KeyError for an unknown shipyard; otherwise the spawned ship stands on its cell and, with line 70 as intended (SpawnTable), is entered in the table |
| Navigate.MoveTowardsDelta | halite/agents/rule_based_agent/navigate.py:33-46 | no move exactly when both distances are zero; the horizontal axis wins ties |
| Navigate.MoveTowardsAsWritten | halite/agents/rule_based_agent/navigate.py:31-46 | move_towards as written: no direction exactly when the positions coincide, and the intended direction whenever no axis wraps negatively |
| Navigate.MoveTowardsAsWrittenApproaches | halite/agents/rule_based_agent/navigate.py:31-46 | when no axis wraps negatively, the written navigator's direction brings the ship exactly one step closer |
| Navigate.MoveTowardsAsWrittenWrongWay | halite/agents/rule_based_agent/navigate.py:32-46 | when the written navigator steps WEST or SOUTH along an axis that wraps negatively, the intended direction differs and the step brings the ship no closer |
| Navigate.MoveTowardsAsWrittenStepsAway | halite/agents/rule_based_agent/navigate.py:32 | on a board of 8, from (5, 0) to (0, 0) the written navigator goes WEST, from distance 3 to 4, where the intended one goes EAST |
| Navigate.MoveTowards | halite/agents/rule_based_agent/navigate.py:31-46 | as intended, over the shortest signed distances: no direction exactly when the two positions coincide |
| Navigate.DistanceAxes | halite/dtypes.py:41-46 | as intended: the distance is the sum of the lengths of the two shortest signed distances |
| Navigate.HorizontalStepCloser | halite/agents/rule_based_agent/navigate.py:33-39 | as intended: a step east or west along a non-zero shortest horizontal distance shortens the distance by one |
| Navigate.VerticalStepCloser | halite/agents/rule_based_agent/navigate.py:40-46 | as intended: a step north or south along a non-zero shortest vertical distance shortens the distance by one |
| Navigate.MoveTowardsApproaches | halite/agents/rule_based_agent/navigate.py:31-46 | as intended: following the proposed direction brings the ship exactly one step closer to its goal |
| Search.PriorityQueue.constructor | halite/agents/rule_based_agent/search.py:16-17 | a new queue is empty |
| Search.PriorityQueue.Empty | halite/agents/rule_based_agent/search.py:19-20 | true exactly when no pair remains |
| Search.PriorityQueue.Put | halite/agents/rule_based_agent/search.py:22-23 | exactly one (priority, item) pair is added |
| Search.PriorityQueue.Get | halite/agents/rule_based_agent/search.py:25-26 | removes one pair of least priority and returns its item |
| Search.NoRepeatInChain | halite/agents/rule_based_agent/search.py:58-60 | no node occurs twice on a walk back from goal to start |
| Search.WalkBack | halite/agents/rule_based_agent/search.py:56-61 | the while loop reaches start along came-from entries, or stops where no walk can reach start |
| Search.ReconstructPath | halite/agents/rule_based_agent/search.py:43-63 | the path runs from start to goal, each node's came-from entry naming the node before it; failure exactly when no walk exists |
| Search.Record | halite/agents/rule_based_agent/search.py:118-122 | recording adds the time step to the keys |
| Search.RecordLookup | halite/agents/rule_based_agent/search.py:118-122 | recording appends the position to the list at that time and leaves every other time's list unchanged |
| Search.RecordDistinct | halite/agents/rule_based_agent/search.py:118-122 | recording keeps the time keys distinct |
| Search.TimeLog.constructor | halite/agents/rule_based_agent/search.py:118-122 | a new log is empty |
| Search.TimeLog.UpdateMiningLog | halite/agents/rule_based_agent/search.py:118-122 | the log becomes the old log with the position recorded at time t |
| Search.TimeLog.AddPathToOccupied | halite/agents/rule_based_agent/search.py:125-131 | each (position, t) of the path is recorded, in path order |
| Search.RecordAllLookup | halite/agents/rule_based_agent/search.py:125-131 | afterwards each time's list is its old list followed by the path's positions at that time |
| Search.MakeMiningDict | halite/agents/rule_based_agent/search.py:66-73 | the Counter of every position listed under a time below t |
| Search.MinedBeforeMonotone | halite/agents/rule_based_agent/search.py:66-73 | a later time bound only adds to the counts |
| Search.MinedBeforeRecord | halite/agents/rule_based_agent/search.py:66-73 | mining at time k adds one count of the position before t when k < t, and nothing otherwise |
| Search.GetMoveCost | halite/agents/rule_based_agent/search.py:85-88 | int(cell_value / MOVE_COST_RATIO): the largest whole number of ratios not above the cell value |
| Search.GetMiningCost | halite/agents/rule_based_agent/search.py:91-94 | the larger of the truncated extraction reward and the cargo headroom halite - MAX_HALITE |
| Utils.MergeLists | halite/utils/__init__.py:24-34 | every item of every list, list by list and in order: list i occupies the stretch right after all the items of the lists before it |
| Utils.MergeListsAppend | halite/utils/__init__.py:24-34 | merging a concatenation of lists concatenates the merges |
| Utils.MergeListsMembers | halite/utils/__init__.py:24-34 | an item is in the merge exactly when it is in one of the lists |
| Utils.MergeDicts | halite/utils/__init__.py:11-21 | the keys of all dicts, each valued from the first dict that holds it |
| Utils.MergeDictsStep | halite/utils/__init__.py:11-21 | putting the first dict over the merge of the rest merges them all |
| Utils.MergeEmpty | halite/utils/__init__.py:11-34 | merging no dicts gives the empty dict, and merging no lists gives the empty list |

## Left out

- **Random halite distribution.** `_distribute_halite` (`game.py:447-477`) draws the quarter grid at random. Here the grid is an input to `Setup.Initial` and `Game.Game.Initial`.
- **Floating point.** Halite amounts are exact reals, so float rounding is not modelled.
- **The kaggle environment.** Left out: `interpret` and `_to_state` in `interpreter.py:32-70`, the `Configuration` converters, and `Struct`. The rules they apply are modelled in `Interpreter` and `StateNew`.
- **Logging and mixins.** The logging calls, the context variables and the representation mixins have no effect on the state.
- **Agent policies.** The agents' policies are random choices or heuristics that call into code not shown. So are the A* search loop, its cell-value estimates and its neighbour generation (`a_star_search`, `get_cell_value`, `get_neighbours`, `get_cost`). Only their self-contained helpers are modelled.
- **Broken code in `unit.py` and `player.py`.** This code cannot run as written, so the model follows what each method evidently does:
  - the imports at `unit.py:8-13` use the wrong exception names;
  - `_delete` sets `status` rather than `unit_status` (`unit.py:296`);
  - `Shipyard.spawn` indexes a list by uid (`unit.py:228`);
  - `Ship.convert` uses an undefined `player_index` (`unit.py:320`);
  - `_converted_to` is read but never set;
  - `game.py` raises an `InactiveUnitError` it does not import, and builds `Ship(game=...)` against a constructor that also needs a state;
  - `Player.spawn_log` and `Player.deposit_log` read attributes that shipyards do not have, so they are not modelled;
  - `_reward`, `_done` and `_player_status` (`interpreter.py:14`, `interpreter.py:21`, `interpreter.py:27`) read `player.status`, which `Player` (`player.py:18-69`) does not define. As written they raise AttributeError. `Interpreter.PlayerRecord` supplies the status as a field, which is what these functions evidently expect.
- **Unit.Unit.Move:** takes a typed `Topology.Direction`, so an invalid direction string cannot reach it. The source's `get_to_pos` comes from `kaggle_environments` and is not part of this model. The random agent's copy of it (`Topology.GetToPos`) returns None for any other string. With that behaviour, `unit.py:271` would first reduce the cargo, and `unit.py:272` would then fail when it indexes the board with None. The model does not capture that partial update.
- **Collisions.LeaderIndex:** the stable sort of the colliding ships is not modelled as a sort. Only its first element and the second cargo are used, as `LeaderIndex` and `SecondLargest`.
- **Game.Game.Converting:** the source finds the converted ship again by uid after the new shipyard is written. The model uses the ship's index, and `GameRules.ConvertedShipIndex` proves that the lookup by uid finds that same index.
- **Setup.Initial:** requires `0 < size`. On an empty board the source's start positions index cells that do not exist.
- **RandomBoard.ReachThenUnreach:** requires a board of at least three columns. On smaller boards the four reachable cells are not distinct, and the source's removal raises `KeyError`.
- **RandomBoard.Board:** the detail dicts that the source shares between `ships` and `ships_by_uid` are copied values here. A move updates both places explicitly, which gives the same result.
- **Search.PriorityQueue:** the binary-heap layout is not modelled. The queue is a bag, and `Get` removes a pair of least priority; among equal priorities heapq may pick a different pair.
- **Search.ReconstructPath:** where the source would loop forever on a cyclic came-from log, the model stops with `Cycle`. Where the source raises on a missing or `None` entry, the model stops with `KeyError`.
- **BoardView.OccupiedBy:** compares positions by equality where the source uses `is` (`board.py:162`). This is an assumption about what the authors meant. CPython caches only the integers from -5 to 256, so on the default 21 × 21 board (positions up to 440) `is` can be false for equal positions. The same `occupied_by` decides the collisions (`game.py:171`, `game.py:184`) and regeneration (`game.py:422`). So `Collisions.ShipsAt`, `Collisions.CollideWithShipyards`, `Turn.Regenerate` and the members built on them rest on this assumption too.
- **Dtypes.SignedDistance2, Dtypes.Distance2, Dtypes.Distance, Navigate.MoveTowards:** state the behaviour as intended, over the shortest signed distance. The code as written is `Dtypes.SignedDistance2AsWritten`, `Dtypes.Distance2AsWritten`, `Dtypes.DistanceAsWritten` and `Navigate.MoveTowardsAsWritten` (see Findings). The as-written distance is not symmetric and is not bounded by half the size per axis.
- **GameRules.FriendlyShipyardAt:** stands for `ship.occupied_friendly_shipyard` in `_collect_halite` (`game.py:415`). The source does not define that property, so the model uses the test `_convert` and `_deposit` make: one of the player's active shipyards stands on the ship's cell.

## Findings

| source | as written | input that shows it | evidently intended | confidence | as-written member | corrected member |
|---|---|---|---|---|---|---|
| halite/dtypes.py:52-57 | when the distance exceeds half the ring, `size` is always subtracted, even from a negative distance | size 8, x1 = 5, x2 = 0: the result is -13 | add `size` to a negative distance, giving +3 | high; not executed | Dtypes.SignedDistance1DAsWrittenOverflows | Dtypes.SignedDistance1D |
| halite/agents/rule_based_agent/navigate.py:32 | `move_towards` takes its direction from the as-written `signed_distance2`, so on an axis whose difference wraps the negative way it heads the long way round | size 8, from (5, 0) to (0, 0): WEST, from distance 3 to distance 4 | the shortest signed distance, giving EAST and distance 2 | high; not executed | Navigate.MoveTowardsAsWrittenStepsAway | Navigate.MoveTowardsApproaches |
| halite/agents/random_agent/board.py:70 | `spawn` assigns the new ship's dict to `ships_by_uid` itself | any spawn on a board whose table lists a ship: that ship's position can no longer be looked up | insert the new ship under its uid: `ships_by_uid[temp_uid] = details` | high; not executed | RandomBoard.SpawnLosesShips | RandomBoard.SpawnKeepsShips |
