/**
 * The self-contained helpers of the rule-based agent's A* search
 * (halite/agents/rule_based_agent/search.py): the priority queue, path
 * reconstruction from the came-from log, the mining and occupancy logs keyed
 * by time step, and the move and mining costs.
 */
module Search {
  import opened Wrappers
  import opened Numbers

  /**
   * PriorityQueue: a bag of (priority, item) pairs. The binary-heap layout of
   * heapq is not modelled; get takes a pair of least priority.
   */
  class PriorityQueue<T(==)> {
    var elements: seq<(real, T)>

    constructor ()
      ensures elements == []
    {
      elements := [];
    }

    /** empty(): no pair remains. */
    method Empty() returns (r: bool)
      ensures r <==> |elements| == 0
    {
      r := |elements| == 0;
    }

    /** put(item, priority): one more pair in the bag. */
    method Put(item: T, priority: real)
      modifies this
      ensures multiset(elements) == multiset(old(elements)) + multiset{(priority, item)}
      ensures elements == old(elements) + [(priority, item)]
    {
      elements := elements + [(priority, item)];
    }

    /** get(): removes a pair of least priority and returns its item. */
    method Get() returns (item: T)
      requires elements != []
      modifies this
      ensures exists i :: 0 <= i < |old(elements)| && old(elements)[i].1 == item &&
                (forall j :: 0 <= j < |old(elements)| ==> old(elements)[i].0 <= old(elements)[j].0) &&
                elements == old(elements)[..i] + old(elements)[i + 1..] &&
                multiset(elements) == multiset(old(elements)) - multiset{old(elements)[i]}
      ensures |elements| == |old(elements)| - 1
    {
      var best := 0;
      var k := 1;
      while k < |elements|
        invariant 0 <= best < |elements| && 1 <= k <= |elements|
        invariant forall j :: 0 <= j < k ==> elements[best].0 <= elements[j].0
      {
        if elements[k].0 < elements[best].0 {
          best := k;
        }
        k := k + 1;
      }
      item := elements[best].1;
      RemoveAt(elements, best);
      elements := elements[..best] + elements[best + 1..];
    }
  }

  /** Taking out the entry at i leaves one entry fewer and removes one copy of it from the bag. */
  lemma RemoveAt<U>(s: seq<U>, i: nat)
    requires i < |s|
    ensures |s[..i] + s[i + 1..]| == |s| - 1
    ensures multiset(s[..i] + s[i + 1..]) == multiset(s) - multiset{s[i]}
  {
    assert s == s[..i] + [s[i]] + s[i + 1..];
  }

  // ---------------------------------------------------------------------------
  // reconstruct_path

  /** Why walking the came-from log back from goal does not reach start. */
  datatype PathError =
    | KeyError  // a node on the way has no entry, or its entry is None
    | Cycle     // the walk comes back to a node already passed: the source loops for ever

  /**
   * The walk back from goal: q[0] is goal, each node before the last is not
   * start and its came-from entry is the next node, and the last node is start.
   */
  predicate BackChain<K>(cameFrom: map<K, Option<K>>, q: seq<K>, start: K, goal: K)
  {
    |q| >= 1 && q[0] == goal && q[|q| - 1] == start &&
    forall i :: 0 <= i < |q| - 1 ==> q[i] != start && q[i] in cameFrom && cameFrom[q[i]] == Some(q[i + 1])
  }

  function Reversed<K>(s: seq<K>): (r: seq<K>)
    ensures |r| == |s|
    ensures forall i :: 0 <= i < |s| ==> r[i] == s[|s| - 1 - i]
  {
    if s == [] then [] else Reversed(s[1..]) + [s[0]]
  }

  /** The nodes of a walk back are pairwise distinct: a repeated node could never lead on to start. */
  lemma {:induction false} NoRepeatInChain<K>(cameFrom: map<K, Option<K>>, q: seq<K>, start: K, goal: K, j: nat, k: nat)
    requires BackChain(cameFrom, q, start, goal)
    requires j < k < |q|
    ensures q[j] != q[k]
    decreases |q| - k
  {
    if k < |q| - 1 {
      NoRepeatInChain(cameFrom, q, start, goal, j + 1, k + 1);
      assert cameFrom[q[j]] == Some(q[j + 1]) && cameFrom[q[k]] == Some(q[k + 1]);
    } else {
      assert q[j] != start;
    }
  }

  /**
   * The nodes passed so far on the walk back from goal, none of them start,
   * each with a came-from entry naming the next node; current is the node
   * the last entry names.
   */
  predicate WalkSoFar<K>(cameFrom: map<K, Option<K>>, path: seq<K>, start: K, goal: K, current: K)
  {
    (path == [] ==> current == goal) &&
    (path != [] ==> path[0] == goal) &&
    forall i :: 0 <= i < |path| ==>
      path[i] != start && path[i] in cameFrom &&
      cameFrom[path[i]] == Some(if i + 1 < |path| then path[i + 1] else current)
  }

  /** Every chain from goal to start passes through the walk so far and continues at current. */
  ghost predicate Follows<K(!new)>(cameFrom: map<K, Option<K>>, path: seq<K>, start: K, goal: K, current: K)
  {
    forall q :: BackChain(cameFrom, q, start, goal) ==> |path| < |q| && q[..|path|] == path && q[|path|] == current
  }

  /** One more step of the walk back follows every chain from goal to start. */
  lemma ChainStep<K>(cameFrom: map<K, Option<K>>, q: seq<K>, start: K, goal: K, path: seq<K>, current: K)
    requires BackChain(cameFrom, q, start, goal)
    requires |path| < |q| && q[..|path|] == path && q[|path|] == current && current != start
    ensures current in cameFrom && cameFrom[current] == Some(q[|path| + 1])
    ensures |path| + 1 < |q| && q[..|path| + 1] == path + [current]
  {
    assert q[..|path| + 1] == q[..|path|] + [q[|path|]];
  }

  /** Stepping from current to its came-from entry extends the walk. */
  lemma WalkStep<K(!new)>(cameFrom: map<K, Option<K>>, path: seq<K>, start: K, goal: K, current: K)
    requires WalkSoFar(cameFrom, path, start, goal, current) && Follows(cameFrom, path, start, goal, current)
    requires current != start && current in cameFrom && cameFrom[current].Some?
    ensures WalkSoFar(cameFrom, path + [current], start, goal, cameFrom[current].value)
    ensures Follows(cameFrom, path + [current], start, goal, cameFrom[current].value)
  {
    WalkExtends(cameFrom, path, start, goal, current);
    var p' := path + [current];
    forall q | BackChain(cameFrom, q, start, goal)
      ensures |p'| < |q| && q[..|p'|] == p' && q[|p'|] == cameFrom[current].value
    {
      ChainStep(cameFrom, q, start, goal, path, current);
    }
  }

  /** The walk so far, extended by current, is a walk so far that continues at current's entry. */
  lemma WalkExtends<K>(cameFrom: map<K, Option<K>>, path: seq<K>, start: K, goal: K, current: K)
    requires WalkSoFar(cameFrom, path, start, goal, current)
    requires current != start && current in cameFrom && cameFrom[current].Some?
    ensures WalkSoFar(cameFrom, path + [current], start, goal, cameFrom[current].value)
  {
    var p' := path + [current];
    forall i | 0 <= i < |p'|
      ensures p'[i] != start && p'[i] in cameFrom &&
              cameFrom[p'[i]] == Some(if i + 1 < |p'| then p'[i + 1] else cameFrom[current].value)
    {
      if i < |path| {
        WalkEntry(cameFrom, path, start, goal, current, i);
        assert p'[i] == path[i];
        assert p'[i + 1] == if i + 1 < |path| then path[i + 1] else current;
      } else {
        assert p'[i] == current;
      }
    }
  }

  /** Entry i of a walk so far: not start, with a came-from entry naming the node after it. */
  lemma WalkEntry<K>(cameFrom: map<K, Option<K>>, path: seq<K>, start: K, goal: K, current: K, i: nat)
    requires WalkSoFar(cameFrom, path, start, goal, current) && i < |path|
    ensures path[i] != start && path[i] in cameFrom
    ensures cameFrom[path[i]] == Some(if i + 1 < |path| then path[i + 1] else current)
  {
  }

  /** A walk stuck at a node without a usable entry, or at a node already passed, admits no chain. */
  lemma WalkStuck<K(!new)>(cameFrom: map<K, Option<K>>, path: seq<K>, start: K, goal: K, current: K)
    requires Follows(cameFrom, path, start, goal, current) && current != start
    requires current in path || current !in cameFrom || cameFrom[current].None?
    ensures forall q :: !BackChain(cameFrom, q, start, goal)
  {
    forall q | BackChain(cameFrom, q, start, goal)
      ensures false
    {
      ChainStep(cameFrom, q, start, goal, path, current);
      var j :| 0 <= j < |path| && path[j] == current;
      NoRepeatInChain(cameFrom, q, start, goal, j, |path|);
    }
  }

  /** A walk that has reached start is a chain from goal to start. */
  lemma WalkDone<K>(cameFrom: map<K, Option<K>>, path: seq<K>, start: K, goal: K)
    requires WalkSoFar(cameFrom, path, start, goal, start)
    ensures BackChain(cameFrom, path + [start], start, goal)
  {
    var q := path + [start];
    forall i | 0 <= i < |q| - 1
      ensures q[i] != start && q[i] in cameFrom && cameFrom[q[i]] == Some(q[i + 1])
    {
      assert q[i] == path[i];
      assert cameFrom[path[i]] == Some(if i + 1 < |path| then path[i + 1] else start);
      assert q[i + 1] == if i + 1 < |path| then path[i + 1] else start;
    }
  }

  /** A chain from goal to start, read backwards, runs from start to goal along came-from entries. */
  lemma ChainReversed<K>(cameFrom: map<K, Option<K>>, q: seq<K>, start: K, goal: K)
    requires BackChain(cameFrom, q, start, goal)
    ensures var r := Reversed(q);
            r[0] == start && r[|r| - 1] == goal && Reversed(r) == q &&
            forall i :: 1 <= i < |r| ==> r[i] in cameFrom && cameFrom[r[i]] == Some(r[i - 1])
  {
    var r := Reversed(q);
    assert Reversed(r) == q;
    forall i | 1 <= i < |r|
      ensures r[i] in cameFrom && cameFrom[r[i]] == Some(r[i - 1])
    {
      assert r[i] == q[|q| - 1 - i] && r[i - 1] == q[|q| - 1 - i + 1];
    }
  }

  lemma Shrinks<K>(keys: set<K>, visited: set<K>, x: K)
    requires x in keys && x !in visited
    ensures |keys - (visited + {x})| < |keys - visited|
  {
    assert keys - visited == (keys - (visited + {x})) + {x};
  }

  /**
   * The while loop of reconstruct_path: follows came-from entries from goal
   * until it reaches start, collecting the nodes passed. It stops early
   * (with the reason) when a node has no usable entry or comes round again,
   * and then no chain from goal to start exists.
   */
  method WalkBack<K(==, !new)>(cameFrom: map<K, Option<K>>, start: K, goal: K)
    returns (path: seq<K>, stuck: Option<PathError>)
    ensures stuck.None? ==> WalkSoFar(cameFrom, path, start, goal, start)
    ensures stuck.Some? ==> forall q :: !BackChain(cameFrom, q, start, goal)
    ensures start == goal ==> path == [] && stuck.None?
  {
    var current := goal;
    path := [];
    ghost var visited: set<K> := {};
    while current != start
      invariant forall x :: x in visited <==> x in path
      invariant visited <= cameFrom.Keys
      invariant start != goal || (path == [] && current == goal)
      invariant WalkSoFar(cameFrom, path, start, goal, current)
      invariant Follows(cameFrom, path, start, goal, current)
      decreases |cameFrom.Keys - visited|
    {
      if current in path || current !in cameFrom || cameFrom[current].None? {
        WalkStuck(cameFrom, path, start, goal, current);
        return path, Some(if current in path then Cycle else KeyError);
      }
      WalkStep(cameFrom, path, start, goal, current);
      Shrinks(cameFrom.Keys, visited, current);
      path := path + [current];
      visited := visited + {current};
      current := cameFrom[current].value;
    }
    stuck := None;
  }

  /**
   * reconstruct_path: walks the came-from log back from goal to start and
   * returns the nodes from start to goal. It succeeds exactly when such a
   * walk exists, and then every node after the first came from its
   * predecessor.
   */
  method ReconstructPath<K(==, !new)>(cameFrom: map<K, Option<K>>, start: K, goal: K)
    returns (r: Result<seq<K>, PathError>)
    ensures start == goal ==> r == Success([start])
    ensures r.Success? ==> BackChain(cameFrom, Reversed(r.value), start, goal)
    ensures r.Success? ==> r.value[0] == start && r.value[|r.value| - 1] == goal
    ensures r.Success? ==> forall i :: 1 <= i < |r.value| ==>
              r.value[i] in cameFrom && cameFrom[r.value[i]] == Some(r.value[i - 1])
    ensures r.Failure? ==> forall q :: !BackChain(cameFrom, q, start, goal)
  {
    var path, stuck := WalkBack(cameFrom, start, goal);
    if stuck.Some? {
      return Failure(stuck.value);
    }
    WalkDone(cameFrom, path, start, goal);
    path := path + [start];
    ChainReversed(cameFrom, path, start, goal);
    r := Success(Reversed(path));
    if start == goal {
      assert |r.value| == 1 && r.value[0] == start;
      assert r.value == [start];
    }
  }

  // ---------------------------------------------------------------------------
  // Mining and occupancy logs: dictionaries from a time step to the list of
  // positions recorded at it, in insertion order.

  type LogEntries<P> = seq<(int, seq<P>)>

  /** The positions recorded at time t (the first entry with that key), or none. */
  function Lookup<P>(entries: LogEntries<P>, t: int): seq<P>
  {
    if entries == [] then []
    else if entries[0].0 == t then entries[0].1
    else Lookup(entries[1..], t)
  }

  function Keys<P>(entries: LogEntries<P>): set<int>
  {
    set i | 0 <= i < |entries| :: entries[i].0
  }

  lemma KeysCons<P>(e: (int, seq<P>), rest: LogEntries<P>)
    ensures Keys([e] + rest) == {e.0} + Keys(rest)
  {
    var l := [e] + rest;
    assert l[0].0 == e.0;
    forall k | k in Keys(l) ensures k in {e.0} + Keys(rest) {
      var i :| 0 <= i < |l| && l[i].0 == k;
      if i > 0 { assert rest[i - 1].0 == k; }
    }
    forall k | k in Keys(rest) ensures k in Keys(l) {
      var i :| 0 <= i < |rest| && rest[i].0 == k;
      assert l[i + 1].0 == k;
    }
  }

  predicate DistinctKeys<P>(entries: LogEntries<P>)
  {
    forall i, j :: 0 <= i < j < |entries| ==> entries[i].0 != entries[j].0
  }

  /**
   * The dictionary after appending p to the list at key t: that entry grows
   * by p when it exists, otherwise a new entry [p] is added at the end.
   */
  function Record<P>(entries: LogEntries<P>, t: int, p: P): (r: LogEntries<P>)
    ensures Keys(r) == Keys(entries) + {t}
  {
    if entries == [] then
      assert [(t, [p])][0].0 == t;
      [(t, [p])]
    else
      assert entries == [entries[0]] + entries[1..];
      KeysCons(entries[0], entries[1..]);
      if entries[0].0 == t then
        KeysCons((t, entries[0].1 + [p]), entries[1..]);
        [(t, entries[0].1 + [p])] + entries[1..]
      else
        var rest := Record(entries[1..], t, p);
        KeysCons(entries[0], rest);
        [entries[0]] + rest
  }

  /** Recording p at t appends p to the list at t and leaves every other key's list as it was. */
  lemma {:induction false} RecordLookup<P>(entries: LogEntries<P>, t: int, p: P, k: int)
    ensures Lookup(Record(entries, t, p), k) == if k == t then Lookup(entries, k) + [p] else Lookup(entries, k)
  {
    if entries != [] && entries[0].0 != t {
      RecordLookup(entries[1..], t, p, k);
    }
  }

  /** Recording keeps the keys distinct. */
  lemma {:induction false} RecordDistinct<P>(entries: LogEntries<P>, t: int, p: P)
    requires DistinctKeys(entries)
    ensures DistinctKeys(Record(entries, t, p))
  {
    if entries != [] && entries[0].0 != t {
      RecordDistinct(entries[1..], t, p);
      var r := Record(entries, t, p);
      var rest := Record(entries[1..], t, p);
      forall j | 0 < j < |r|
        ensures r[0].0 != r[j].0
      {
        assert r[j] == rest[j - 1];
        assert r[j].0 in Keys(rest);
        if r[j].0 != t {
          assert r[j].0 in Keys(entries[1..]);
          var i :| 0 <= i < |entries[1..]| && entries[1..][i].0 == r[j].0;
          assert entries[i + 1].0 == r[j].0;
        }
      }
    }
  }

  /** A dictionary from time steps to position lists, updated in place. */
  class TimeLog<P> {
    var entries: LogEntries<P>

    constructor ()
      ensures entries == []
    {
      entries := [];
    }

    /** update_mining_log: appends position to the list at t, creating it if missing. */
    method UpdateMiningLog(position: P, t: int)
      modifies this
      ensures entries == Record(old(entries), t, position)
    {
      entries := Record(entries, t, position);
    }

    /** add_path_to_occupied: records each (position, t) of the path, in path order. */
    method AddPathToOccupied(path: seq<(P, int)>)
      modifies this
      ensures entries == RecordAll(old(entries), path)
    {
      for i := 0 to |path|
        invariant entries == RecordAll(old(entries), path[..i])
      {
        var (position, t) := path[i];
        RecordAllSnoc(old(entries), path[..i], path[i]);
        assert path[..i + 1] == path[..i] + [path[i]];
        entries := Record(entries, t, position);
      }
      assert path[..|path|] == path;
    }
  }

  /** The dictionary after recording every (position, t) of the path in order. */
  function RecordAll<P>(entries: LogEntries<P>, path: seq<(P, int)>): LogEntries<P>
    decreases |path|
  {
    if path == [] then entries
    else RecordAll(Record(entries, path[0].1, path[0].0), path[1..])
  }

  lemma {:induction false} RecordAllSnoc<P>(entries: LogEntries<P>, path: seq<(P, int)>, step: (P, int))
    ensures RecordAll(entries, path + [step]) == Record(RecordAll(entries, path), step.1, step.0)
    decreases |path|
  {
    if path == [] {
      assert RecordAll(Record(entries, step.1, step.0), []) == Record(entries, step.1, step.0);
    } else {
      assert (path + [step])[1..] == path[1..] + [step];
      RecordAllSnoc(Record(entries, path[0].1, path[0].0), path[1..], step);
    }
  }

  /** The positions of the path recorded at time t, in path order. */
  function PositionsAt<P>(path: seq<(P, int)>, t: int): seq<P>
  {
    if path == [] then []
    else (if path[0].1 == t then [path[0].0] else []) + PositionsAt(path[1..], t)
  }

  /**
   * After add_path_to_occupied, the list at each time t is the old list
   * followed by the path's positions at t, in path order.
   */
  lemma {:induction false} RecordAllLookup<P>(entries: LogEntries<P>, path: seq<(P, int)>, t: int)
    ensures Lookup(RecordAll(entries, path), t) == Lookup(entries, t) + PositionsAt(path, t)
    decreases |path|
  {
    if path != [] {
      var next := Record(entries, path[0].1, path[0].0);
      RecordAllLookup(next, path[1..], t);
      RecordLookup(entries, path[0].1, path[0].0, t);
    }
  }

  // ---------------------------------------------------------------------------
  // make_mining_dict

  /** The positions mined before time t, counted: entries with key t or later are ignored. */
  function MinedBefore<P>(entries: LogEntries<P>, t: int): multiset<P>
  {
    if entries == [] then multiset{}
    else
      var last := entries[|entries| - 1];
      MinedBefore(entries[..|entries| - 1], t) + (if last.0 < t then multiset(last.1) else multiset{})
  }

  /** make_mining_dict: the Counter of all positions listed under keys below t. */
  method MakeMiningDict<P>(miningLog: LogEntries<P>, t: int) returns (r: multiset<P>)
    ensures r == MinedBefore(miningLog, t)
  {
    var mined: seq<P> := [];
    for i := 0 to |miningLog|
      invariant multiset(mined) == MinedBefore(miningLog[..i], t)
    {
      var (k, v) := miningLog[i];
      assert miningLog[..i + 1][..i] == miningLog[..i];
      if k < t {
        mined := mined + v;
      }
    }
    assert miningLog[..|miningLog|] == miningLog;
    r := multiset(mined);
  }

  lemma {:induction false} MinedBeforeConcat<P>(a: LogEntries<P>, b: LogEntries<P>, t: int)
    ensures MinedBefore(a + b, t) == MinedBefore(a, t) + MinedBefore(b, t)
    decreases |b|
  {
    if b == [] {
      assert a + b == a;
    } else {
      var b' := b[..|b| - 1];
      assert (a + b)[..|a + b| - 1] == a + b';
      MinedBeforeConcat(a, b', t);
    }
  }

  /** Raising the time bound only adds to the count. */
  lemma {:induction false} MinedBeforeMonotone<P>(entries: LogEntries<P>, t1: int, t2: int)
    requires t1 <= t2
    ensures MinedBefore(entries, t1) <= MinedBefore(entries, t2)
    decreases |entries|
  {
    if entries != [] {
      MinedBeforeMonotone(entries[..|entries| - 1], t1, t2);
    }
  }

  /**
   * Mining p at time k adds one occurrence of p to the count before t when
   * k is below t, and leaves the count unchanged otherwise.
   */
  lemma {:induction false} MinedBeforeRecord<P>(entries: LogEntries<P>, k: int, p: P, t: int)
    ensures MinedBefore(Record(entries, k, p), t) ==
            MinedBefore(entries, t) + (if k < t then multiset{p} else multiset{})
    decreases |entries|
  {
    var r := Record(entries, k, p);
    if entries == [] {
      assert r[..0] == [];
    } else {
      var head := entries[0];
      assert entries == [head] + entries[1..];
      MinedBeforeConcat([head], entries[1..], t);
      assert [head][..0] == [];
      if head.0 == k {
        var head' := (k, head.1 + [p]);
        assert r == [head'] + entries[1..];
        MinedBeforeConcat([head'], entries[1..], t);
        assert [head'][..0] == [];
      } else {
        MinedBeforeRecord(entries[1..], k, p, t);
        MinedBeforeConcat([head], Record(entries[1..], k, p), t);
      }
    }
  }

  // ---------------------------------------------------------------------------
  // Costs

  /** get_move_cost: the cell value over MOVE_COST_RATIO, truncated. */
  function GetMoveCost(cellValue: real, moveCostRatio: real): (r: int)
    requires moveCostRatio > 0.0
    ensures 0.0 <= cellValue ==> 0 <= r && r as real * moveCostRatio <= cellValue
    ensures 0.0 <= cellValue ==> cellValue < (r + 1) as real * moveCostRatio
  {
    var q := cellValue / moveCostRatio;
    var r := Trunc(q);
    assert 0.0 <= cellValue ==> cellValue < (r + 1) as real * moveCostRatio by {
      assert q * moveCostRatio == cellValue;
      if 0.0 <= cellValue {
        assert q < (r + 1) as real;
        assert q * moveCostRatio < (r + 1) as real * moveCostRatio;
      }
    }
    r
  }

  /**
   * get_mining_cost: the larger of the truncated extraction reward
   * -cellValue / EXTRACT_RATIO and the cargo headroom halite - MAX_HALITE.
   */
  function GetMiningCost(cellValue: real, haliteAmount: int, extractRatio: real, maxHalite: int): (r: int)
    requires extractRatio > 0.0
    ensures r >= haliteAmount - maxHalite
    ensures 0.0 <= cellValue ==> -cellValue / extractRatio <= r as real
    ensures 0.0 <= cellValue ==> r == haliteAmount - maxHalite || (r as real) < -cellValue / extractRatio + 1.0
  {
    var reward := Trunc(-cellValue / extractRatio);
    if reward >= haliteAmount - maxHalite then reward else haliteAmount - maxHalite
  }
}
