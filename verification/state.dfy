/**
 * The game state records of halite/interpreter/state.py: one UnitState per
 * ship or shipyard, the State of a whole turn, and uid creation from the
 * process-wide counter.
 */
module StateModel {
  import opened Wrappers
  import Constants

  /** UnitType: the two kinds of unit. */
  datatype UnitType = Ship | Shipyard

  /** UnitStatus: a unit is active until it is destroyed or converted. */
  datatype UnitStatus = Active | Destroyed | Converted

  function TypeName(t: UnitType): string
  {
    match t
    case Ship => "SHIP"
    case Shipyard => "SHIPYARD"
  }

  function StatusName(s: UnitStatus): string
  {
    match s
    case Active => "ACTIVE"
    case Destroyed => "DESTROYED"
    case Converted => "CONVERTED"
  }

  /** The names of the unit types and statuses are exactly the values of UnitType and UnitStatus. */
  lemma NamesAreConstants()
    ensures (set t: UnitType | true :: TypeName(t)) == Constants.Enum(Constants.UnitTypeAttrs).Values
    ensures (set s: UnitStatus | true :: StatusName(s)) == Constants.Enum(Constants.UnitStatusAttrs).Values
  {
    Constants.UnitTypeValues();
    Constants.UnitStatusValues();
    assert TypeName(Ship) == "SHIP" && TypeName(Shipyard) == "SHIPYARD";
    assert StatusName(Active) == "ACTIVE" && StatusName(Destroyed) == "DESTROYED" && StatusName(Converted) == "CONVERTED";
  }

  /** One entry of a shipyard's deposit log. */
  datatype DepositRecord = DepositRecord(step: int, shipyardUid: string, shipUid: string, amount: real)

  /**
   * UnitState: the fields of a ship or a shipyard. pos and halite are None
   * once a ship is deleted; a shipyard carries no halite.
   */
  datatype UnitState = UnitState(
    uid: string,
    unitType: UnitType,
    pos: Option<nat>,
    playerIndex: nat,
    createdAt: int,
    deletedAt: Option<int>,
    status: UnitStatus,
    convertedToUid: Option<string>,
    spawnedFromUid: Option<string>,
    halite: Option<real>,
    spawnedShipUids: Option<seq<string>>,
    depositLog: Option<seq<DepositRecord>>,
    convertedFromUid: Option<string>)

  /** create_ship: an active ship with the given cargo (0 by default at every caller here). */
  function CreateShip(uid: string, pos: Option<nat>, playerIndex: nat, createdAt: int,
                      spawnedFromUid: Option<string>, halite: real): (u: UnitState)
    ensures u.uid == uid && u.pos == pos && u.playerIndex == playerIndex && u.createdAt == createdAt
    ensures u.unitType == Ship && u.status == Active && u.halite == Some(halite)
    ensures u.deletedAt.None? && u.convertedToUid.None? && u.spawnedFromUid == spawnedFromUid
    ensures u.spawnedShipUids.None? && u.depositLog.None? && u.convertedFromUid.None?
  {
    UnitState(uid, Ship, pos, playerIndex, createdAt, None, Active, None, spawnedFromUid,
              Some(halite), None, None, None)
  }

  /** create_shipyard: an active shipyard with empty spawn and deposit logs and no halite. */
  function CreateShipyard(uid: string, pos: Option<nat>, playerIndex: nat, createdAt: int,
                          convertedFromUid: Option<string>): (u: UnitState)
    ensures u.uid == uid && u.pos == pos && u.playerIndex == playerIndex && u.createdAt == createdAt
    ensures u.unitType == Shipyard && u.status == Active && u.halite.None?
    ensures u.spawnedShipUids == Some([]) && u.depositLog == Some([])
    ensures u.deletedAt.None? && u.convertedToUid.None? && u.spawnedFromUid.None?
    ensures u.convertedFromUid == convertedFromUid
  {
    UnitState(uid, Shipyard, pos, playerIndex, createdAt, None, Active, None, None,
              None, Some([]), Some([]), convertedFromUid)
  }

  // ---------------------------------------------------------------------------
  // Equality and ordering. The dataclass compares and hashes only the fields
  // marked for comparison: uid for UnitState, step for State.

  /** The tuple of compared fields of a UnitState. */
  function CompareKey(u: UnitState): string
  {
    u.uid
  }

  predicate UnitStateEq(a: UnitState, b: UnitState)
  {
    CompareKey(a) == CompareKey(b)
  }

  /** Python's string order: lexicographic by character, a proper prefix first. */
  predicate StrLess(a: string, b: string)
    decreases |a|
  {
    |b| > 0 && (|a| == 0 || a[0] < b[0] || (a[0] == b[0] && StrLess(a[1..], b[1..])))
  }

  predicate UnitStateLess(a: UnitState, b: UnitState)
  {
    StrLess(CompareKey(a), CompareKey(b))
  }

  /** Changing any field but uid leaves a unit state equal to what it was. */
  lemma UnitStateEqIgnoresFields(a: UnitState, b: UnitState)
    ensures UnitStateEq(a, b) <==> a.uid == b.uid
    ensures UnitStateEq(a, a.(pos := b.pos, status := b.status, halite := b.halite, playerIndex := b.playerIndex,
                                createdAt := b.createdAt, deletedAt := b.deletedAt, unitType := b.unitType))
    ensures UnitStateLess(a, b) <==> StrLess(a.uid, b.uid)
  {
  }

  lemma {:induction false} StrLessIrreflexive(a: string)
    ensures !StrLess(a, a)
    decreases |a|
  {
    if |a| > 0 {
      StrLessIrreflexive(a[1..]);
    }
  }

  lemma {:induction false} StrLessTransitive(a: string, b: string, c: string)
    requires StrLess(a, b) && StrLess(b, c)
    ensures StrLess(a, c)
    decreases |a|
  {
    if |a| > 0 && a[0] == b[0] && b[0] == c[0] {
      StrLessTransitive(a[1..], b[1..], c[1..]);
    }
  }

  lemma {:induction false} StrLessTotal(a: string, b: string)
    ensures a == b || StrLess(a, b) || StrLess(b, a)
    decreases |a|
  {
    if |a| > 0 && |b| > 0 && a[0] == b[0] {
      StrLessTotal(a[1..], b[1..]);
      if a[1..] == b[1..] {
        assert a == [a[0]] + a[1..] && b == [b[0]] + b[1..];
      }
    }
  }

  /** Unit states are totally ordered by uid: irreflexive, transitive, and two states are comparable unless equal. */
  lemma UnitStateOrder(a: UnitState, b: UnitState, c: UnitState)
    ensures !UnitStateLess(a, a)
    ensures UnitStateLess(a, b) && UnitStateLess(b, c) ==> UnitStateLess(a, c)
    ensures UnitStateEq(a, b) || UnitStateLess(a, b) || UnitStateLess(b, a)
  {
    StrLessIrreflexive(a.uid);
    if UnitStateLess(a, b) && UnitStateLess(b, c) {
      StrLessTransitive(a.uid, b.uid, c.uid);
    }
    StrLessTotal(a.uid, b.uid);
  }

  /** State: the step, the unit table in insertion order, the halite balances and the halite board. */
  datatype State = State(step: nat, units: seq<UnitState>, haliteScore: seq<real>, haliteBoard: seq<real>)

  predicate StateEq(a: State, b: State)
  {
    a.step == b.step
  }

  predicate StateLess(a: State, b: State)
  {
    a.step < b.step
  }

  /** States compare by step alone: every other field may differ. */
  lemma StateCompareByStep(a: State, b: State)
    ensures StateEq(a, a.(units := b.units, haliteScore := b.haliteScore, haliteBoard := b.haliteBoard))
    ensures StateLess(a, b) <==> StateLess(a.(units := []), b.(haliteBoard := []))
    ensures StateEq(a, b) || StateLess(a, b) || StateLess(b, a)
  {
  }

  // ---------------------------------------------------------------------------
  // Uids: "{step}-{n}" with n from one counter shared by the whole process.

  function DigitChar(d: nat): (c: char)
    requires d < 10
    ensures '0' <= c <= '9'
  {
    "0123456789"[d]
  }

  /** The decimal digits of n, without leading zeros. */
  function NatStr(n: nat): (s: string)
    ensures |s| > 0 && forall i :: 0 <= i < |s| ==> '0' <= s[i] <= '9'
  {
    if n < 10 then [DigitChar(n)] else NatStr(n / 10) + [DigitChar(n % 10)]
  }

  /** Reads a string of decimal digits. */
  function ParseNat(s: string): nat
    requires forall i :: 0 <= i < |s| ==> '0' <= s[i] <= '9'
  {
    if s == [] then 0 else 10 * ParseNat(s[..|s| - 1]) + (s[|s| - 1] - '0') as nat
  }

  lemma {:induction false} ParseNatStr(n: nat)
    ensures ParseNat(NatStr(n)) == n
  {
    if n >= 10 {
      var s := NatStr(n);
      assert s[..|s| - 1] == NatStr(n / 10);
      ParseNatStr(n / 10);
    }
  }

  /** The uid "{step}-{n}". */
  function MakeUid(step: nat, n: nat): string
  {
    NatStr(step) + "-" + NatStr(n)
  }

  /** The dash in a uid is its first non-digit, so the two numbers can be read back. */
  lemma SplitAtDash(a: string, b: string, c: string, d: string)
    requires forall i :: 0 <= i < |a| ==> '0' <= a[i] <= '9'
    requires forall i :: 0 <= i < |c| ==> '0' <= c[i] <= '9'
    requires a + "-" + b == c + "-" + d
    ensures a == c && b == d
  {
    var s := a + "-" + b;
    assert s[|a|] == '-' && s[|c|] == '-';
    assert forall i :: 0 <= i < |a| ==> s[i] == a[i] && s[i] != '-';
    assert forall i :: 0 <= i < |c| ==> s[i] == c[i] && s[i] != '-';
    assert |a| == |c|;
    assert a == s[..|a|] && c == (c + "-" + d)[..|c|];
    assert b == s[|a| + 1..] && d == (c + "-" + d)[|c| + 1..];
  }

  /** Distinct (step, n) pairs give distinct uids. */
  lemma MakeUidInjective(step1: nat, n1: nat, step2: nat, n2: nat)
    ensures MakeUid(step1, n1) == MakeUid(step2, n2) ==> step1 == step2 && n1 == n2
  {
    if MakeUid(step1, n1) == MakeUid(step2, n2) {
      SplitAtDash(NatStr(step1), NatStr(n1), NatStr(step2), NatStr(n2));
      ParseNatStr(step1); ParseNatStr(step2);
      ParseNatStr(n1); ParseNatStr(n2);
    }
  }

  /** The process-wide counter _UID that every uid draws its number from. */
  class UidCounter {
    var next: nat

    constructor ()
      ensures next == 0
    {
      next := 0;
    }

    /** State.create_uid: "{step}-{n}" for the next n, advancing the counter. */
    method CreateUid(step: nat) returns (uid: string)
      modifies this
      ensures uid == MakeUid(step, old(next)) && next == old(next) + 1
    {
      uid := MakeUid(step, next);
      next := next + 1;
    }
  }

  /** Two uids drawn at different counter values differ, whatever the steps. */
  lemma SuccessiveUidsDistinct(step1: nat, step2: nat, n1: nat, n2: nat)
    requires n1 != n2
    ensures MakeUid(step1, n1) != MakeUid(step2, n2)
  {
    MakeUidInjective(step1, n1, step2, n2);
  }

  // ---------------------------------------------------------------------------
  // The unit table: the dict unit_states from uid to UnitState, kept in
  // insertion order with each unit stored under its own uid.

  predicate DistinctUids(units: seq<UnitState>)
  {
    forall i, j :: 0 <= i < j < |units| ==> units[i].uid != units[j].uid
  }

  function Uids(units: seq<UnitState>): set<string>
  {
    set i | 0 <= i < |units| :: units[i].uid
  }

  /** The index of the unit with the given uid, if any. */
  function IndexOf(units: seq<UnitState>, uid: string): (r: Option<nat>)
    ensures r.Some? ==> r.value < |units| && units[r.value].uid == uid
    ensures r.Some? ==> forall j :: 0 <= j < r.value ==> units[j].uid != uid
    ensures r.None? <==> uid !in Uids(units)
  {
    if units == [] then None
    else if units[0].uid == uid then Some(0)
    else
      match IndexOf(units[1..], uid)
      case None =>
        assert uid !in Uids(units) by {
          forall i | 1 <= i < |units| ensures units[i].uid != uid {
            assert units[1..][i - 1] == units[i];
          }
        }
        None
      case Some(i) =>
        assert units[0].uid != uid && units[1..][i].uid == uid;
        Some(i + 1)
  }

  /** unit_states[u.uid] = u: replaces the unit with that uid in place, or appends u. */
  function Put(units: seq<UnitState>, u: UnitState): (r: seq<UnitState>)
    ensures Uids(r) == Uids(units) + {u.uid}
    ensures DistinctUids(units) ==> DistinctUids(r)
    ensures IndexOf(units, u.uid).Some? ==> |r| == |units| && r == units[IndexOf(units, u.uid).value := u]
    ensures IndexOf(units, u.uid).None? ==> r == units + [u]
  {
    match IndexOf(units, u.uid)
    case Some(i) =>
      var r := units[i := u];
      assert Uids(r) == Uids(units) + {u.uid} by {
        forall x | x in Uids(units) ensures x in Uids(r) {
          var j :| 0 <= j < |units| && units[j].uid == x;
          assert r[j].uid == x;
        }
        assert r[i].uid == u.uid;
      }
      r
    case None =>
      var r := units + [u];
      assert Uids(r) == Uids(units) + {u.uid} by {
        forall x | x in Uids(units) ensures x in Uids(r) {
          var j :| 0 <= j < |units| && units[j].uid == x;
          assert r[j].uid == x;
        }
        assert r[|units|].uid == u.uid;
      }
      assert DistinctUids(units) ==> DistinctUids(r) by {
        if DistinctUids(units) {
          forall j | 0 <= j < |units| ensures units[j].uid != u.uid {
            assert units[j].uid in Uids(units);
          }
        }
      }
      r
  }

  /** Putting a unit under a uid the table does not hold appends it. */
  lemma PutFresh(units: seq<UnitState>, u: UnitState)
    requires u.uid !in Uids(units)
    ensures Put(units, u) == units + [u]
  {
  }

  /** Putting entry p into the table of the entries before it, under a uid they do not hold, gives the first p + 1 entries. */
  lemma PutNextOfPrefix(units: seq<UnitState>, p: nat)
    requires p < |units| && units[p].uid !in Uids(units[..p])
    ensures Put(units[..p], units[p]) == units[..p + 1]
  {
    PutFresh(units[..p], units[p]);
    assert units[..p + 1] == units[..p] + [units[p]];
  }
}
