/**
 * The string constants of the interpreter (halite/interpreter/constants.py).
 * Each constants class is modelled by its attribute dictionary, vars(cls):
 * the public constants plus the dunder entries Python adds to every class body
 * (the docstring entry, whose value is None, is left out of these string maps).
 */
module Constants {
  import opened Wrappers

  type ClassAttrs = map<string, string>

  /** name.startswith("__"), written on the first two characters. */
  predicate DunderStart(name: string)
  {
    2 <= |name| && name[0] == '_' && name[1] == '_'
  }

  /** name.endswith("__"), written on the last two characters. */
  predicate DunderEnd(name: string)
  {
    2 <= |name| && name[|name| - 2] == '_' && name[|name| - 1] == '_'
  }

  /** The attribute names enum() keeps: neither starting nor ending with a double underscore. */
  predicate Public(name: string)
  {
    !DunderStart(name) && !DunderEnd(name)
  }

  /** _GameConstants.enum: the class attributes whose names are public, with their values. */
  function Enum(attrs: ClassAttrs): (r: map<string, string>)
    ensures r.Keys <= attrs.Keys
    ensures forall name :: name in r <==> name in attrs && Public(name)
    ensures forall name :: name in r ==> r[name] == attrs[name]
  {
    map name | name in attrs && Public(name) :: attrs[name]
  }

  /** The InvalidConstantError raised for a value outside the enumeration. */
  datatype InvalidConstantError = InvalidConstantError(value: string, allowed: set<string>)

  /** _GameConstants.assert_valid: returns normally iff the value is one of enum()'s values. */
  function AssertValid(attrs: ClassAttrs, value: string): (r: Outcome<InvalidConstantError>)
    ensures r.Pass? <==> exists name :: name in attrs && Public(name) && attrs[name] == value
    ensures r.Fail? ==> r.error.value == value
  {
    var values := Enum(attrs).Values;
    if value !in values then Fail(InvalidConstantError(value, values)) else Pass
  }

  const MODULE := "halite.interpreter.constants"

  const UnitStatusAttrs: ClassAttrs := map[
    "__module__" := MODULE, "__qualname__" := "UnitStatus",
    "ACTIVE" := "ACTIVE", "DESTROYED" := "DESTROYED", "CONVERTED" := "CONVERTED"]

  const UnitTypeAttrs: ClassAttrs := map[
    "__module__" := MODULE, "__qualname__" := "UnitType",
    "SHIP" := "SHIP", "SHIPYARD" := "SHIPYARD"]

  const ActionsAttrs: ClassAttrs := map[
    "__module__" := MODULE, "__qualname__" := "Actions",
    "NORTH" := "NORTH", "EAST" := "EAST", "SOUTH" := "SOUTH", "WEST" := "WEST",
    "CONVERT" := "CONVERT", "SPAWN" := "SPAWN"]

  const PlayerStatusAttrs: ClassAttrs := map[
    "__module__" := MODULE, "__qualname__" := "PlayerStatus",
    "ACTIVE" := "ACTIVE", "LOST" := "No potential to gather halite remaining.", "DONE" := "DONE"]

  lemma DunderNames()
    ensures !Public("__module__") && !Public("__qualname__")
  {
  }

  /** A name whose first and last characters are not underscores is public. */
  lemma PlainName(name: string)
    requires 0 < |name| && name[0] != '_' && name[|name| - 1] != '_'
    ensures Public(name)
  {
  }

  /** Actions.enum() holds the six actions, each named by its own string. */
  lemma ActionsEnum()
    ensures Enum(ActionsAttrs) == map["NORTH" := "NORTH", "EAST" := "EAST", "SOUTH" := "SOUTH",
                                      "WEST" := "WEST", "CONVERT" := "CONVERT", "SPAWN" := "SPAWN"]
  {
    DunderNames();
    PlainName("NORTH"); PlainName("EAST"); PlainName("SOUTH"); PlainName("WEST");
    PlainName("CONVERT"); PlainName("SPAWN");
  }

  /** The action strings the interpreter accepts are exactly the six of Actions. */
  lemma ActionsValues()
    ensures Enum(ActionsAttrs).Values == {"NORTH", "EAST", "SOUTH", "WEST", "CONVERT", "SPAWN"}
  {
    ActionsEnum();
    var e := Enum(ActionsAttrs);
    forall v | v in e.Values
      ensures v in {"NORTH", "EAST", "SOUTH", "WEST", "CONVERT", "SPAWN"}
    {
      var k :| k in e && e[k] == v;
    }
    assert e["NORTH"] == "NORTH" && e["EAST"] == "EAST" && e["SOUTH"] == "SOUTH";
    assert e["WEST"] == "WEST" && e["CONVERT"] == "CONVERT" && e["SPAWN"] == "SPAWN";
  }

  /** The unit statuses are exactly ACTIVE, DESTROYED and CONVERTED. */
  lemma UnitStatusValues()
    ensures Enum(UnitStatusAttrs).Values == {"ACTIVE", "DESTROYED", "CONVERTED"}
  {
    DunderNames();
    var e := Enum(UnitStatusAttrs);
    PlainName("ACTIVE"); PlainName("DESTROYED"); PlainName("CONVERTED");
    assert e.Keys == {"ACTIVE", "DESTROYED", "CONVERTED"};
  }

  /** The unit types are exactly SHIP and SHIPYARD. */
  lemma UnitTypeValues()
    ensures Enum(UnitTypeAttrs).Values == {"SHIP", "SHIPYARD"}
  {
    DunderNames();
    var e := Enum(UnitTypeAttrs);
    PlainName("SHIP"); PlainName("SHIPYARD");
    assert e.Keys == {"SHIP", "SHIPYARD"};
  }

  /** The set of valid action strings. */
  function ActionValues(): (r: set<string>)
    ensures r == {"NORTH", "EAST", "SOUTH", "WEST", "CONVERT", "SPAWN"}
  {
    ActionsValues();
    Enum(ActionsAttrs).Values
  }

  /** Actions.assert_valid accepts the six action strings and nothing else. */
  lemma ActionsAssertValid(value: string)
    ensures AssertValid(ActionsAttrs, value).Pass? <==> value in ActionValues()
  {
    ActionsValues();
  }

  /** The player statuses used for rewards and termination. */
  const PLAYER_ACTIVE := PlayerStatusAttrs["ACTIVE"]
  const PLAYER_DONE := PlayerStatusAttrs["DONE"]
  const PLAYER_LOST := PlayerStatusAttrs["LOST"]
}
