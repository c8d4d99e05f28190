/** The list and dictionary merging helpers of halite/utils/__init__.py. */
module Utils {

  /** Sum of the lengths of the given lists. */
  function TotalLength<T>(lists: seq<seq<T>>): nat
  {
    if lists == [] then 0 else |lists[0]| + TotalLength(lists[1..])
  }

  /**
   * merge_lists: every item of every list, list by list and in order.
   * List i occupies the stretch right after all the items of the lists before it.
   */
  function MergeLists<T>(lists: seq<seq<T>>): (r: seq<T>)
    ensures |r| == TotalLength(lists)
    ensures ItemsAt(lists, r)
  {
    if lists == [] then []
    else
      var rest := MergeLists(lists[1..]);
      ItemsAtCons(lists, rest);
      lists[0] + rest
  }

  /** List i occupies r right after all the items of the lists before it. */
  ghost predicate ItemsAt<T>(lists: seq<seq<T>>, r: seq<T>)
  {
    forall i :: 0 <= i < |lists| ==>
      TotalLength(lists[..i]) + |lists[i]| <= |r| && r[TotalLength(lists[..i])..TotalLength(lists[..i]) + |lists[i]|] == lists[i]
  }

  /** Placing the first list before a merge of the others places every list. */
  lemma ItemsAtCons<T>(lists: seq<seq<T>>, rest: seq<T>)
    requires 0 < |lists| && ItemsAt(lists[1..], rest) && |rest| == TotalLength(lists[1..])
    ensures ItemsAt(lists, lists[0] + rest)
  {
    forall i | 0 <= i < |lists|
      ensures TotalLength(lists[..i]) + |lists[i]| <= |lists[0] + rest|
      ensures (lists[0] + rest)[TotalLength(lists[..i])..TotalLength(lists[..i]) + |lists[i]|] == lists[i]
    {
      TotalLengthPrefix(lists, i);
      if 0 < i {
        assert lists[i] == lists[1..][i - 1];
        var n := TotalLength(lists[1..][..i - 1]);
        assert rest[n..n + |lists[i]|] == lists[i];
        assert (lists[0] + rest)[|lists[0]| + n..|lists[0]| + n + |lists[i]|] == rest[n..n + |lists[i]|];
      } else {
        assert lists[..0] == [];
      }
    }
  }

  /** The lists before list i: those before it in the tail, after the first list; and they fit in the total. */
  lemma TotalLengthPrefix<T>(lists: seq<seq<T>>, i: nat)
    requires 0 < |lists| && i <= |lists|
    ensures 0 < i ==> TotalLength(lists[..i]) == |lists[0]| + TotalLength(lists[1..][..i - 1])
    ensures i < |lists| ==> TotalLength(lists[..i]) + |lists[i]| <= TotalLength(lists)
  {
    if 0 < i {
      assert lists[..i][1..] == lists[1..][..i - 1];
    }
    if i < |lists| {
      TotalLengthSplit(lists, i);
    }
  }

  /** The total length splits at any index. */
  lemma {:induction false} TotalLengthSplit<T>(lists: seq<seq<T>>, i: nat)
    requires i <= |lists|
    ensures TotalLength(lists) == TotalLength(lists[..i]) + TotalLength(lists[i..])
    decreases i
  {
    if 0 < i {
      assert lists[..i][1..] == lists[1..][..i - 1];
      assert lists[i..] == lists[1..][i - 1..];
      TotalLengthSplit(lists[1..], i - 1);
    } else {
      assert lists[..0] == [];
      assert lists[0..] == lists;
    }
  }

  /** Merging the concatenation of two lists of lists concatenates the merges. */
  lemma {:induction false} MergeListsAppend<T>(a: seq<seq<T>>, b: seq<seq<T>>)
    ensures MergeLists(a + b) == MergeLists(a) + MergeLists(b)
  {
    if a == [] {
      assert a + b == b;
    } else {
      assert (a + b)[1..] == a[1..] + b;
      MergeListsAppend(a[1..], b);
    }
  }

  /** An item belongs to the merge exactly when it belongs to one of the lists. */
  lemma {:induction false} MergeListsMembers<T>(lists: seq<seq<T>>, x: T)
    ensures x in MergeLists(lists) <==> exists i :: 0 <= i < |lists| && x in lists[i]
  {
    if lists != [] {
      MergeListsMembers(lists[1..], x);
      if x in MergeLists(lists[1..]) {
        var i :| 0 <= i < |lists[1..]| && x in lists[1..][i];
        assert x in lists[i + 1];
      }
      if exists i :: 0 <= i < |lists| && x in lists[i] {
        var i :| 0 <= i < |lists| && x in lists[i];
        if i > 0 {
          assert x in lists[1..][i - 1];
        }
      }
    }
  }

  /** True when key k occurs in none of the first n dictionaries. */
  predicate AbsentBefore<K(!new), V>(dicts: seq<map<K, V>>, n: nat, k: K)
    requires n <= |dicts|
  {
    forall j :: 0 <= j < n ==> k !in dicts[j]
  }

  /** What merge_dicts promises of r: the keys of all the dictionaries, each valued from the first that holds it. */
  ghost predicate Merged<K(!new), V>(dicts: seq<map<K, V>>, r: map<K, V>)
  {
    (forall k :: k in r <==> exists i :: 0 <= i < |dicts| && k in dicts[i]) &&
    (forall i, k :: 0 <= i < |dicts| && k in dicts[i] && AbsentBefore(dicts, i, k) ==> k in r && r[k] == dicts[i][k])
  }

  /**
   * merge_dicts: dict(ChainMap(*dicts)). Its keys are the keys of all the
   * dictionaries, and each key takes its value from the first dictionary
   * that holds it.
   */
  function MergeDicts<K(!new), V>(dicts: seq<map<K, V>>): (r: map<K, V>)
    ensures forall k :: k in r <==> exists i :: 0 <= i < |dicts| && k in dicts[i]
    ensures forall i, k :: 0 <= i < |dicts| && k in dicts[i] && AbsentBefore(dicts, i, k) ==>
              k in r && r[k] == dicts[i][k]
  {
    if dicts == [] then map[]
    else
      var rest := MergeDicts(dicts[1..]);
      MergeDictsStep(dicts, rest);
      rest + dicts[0]
  }

  /** Putting the first dictionary over the merge of the others merges them all. */
  lemma MergeDictsStep<K(!new), V>(dicts: seq<map<K, V>>, rest: map<K, V>)
    requires dicts != [] && Merged(dicts[1..], rest)
    ensures Merged(dicts, rest + dicts[0])
  {
    var r := rest + dicts[0];
    forall k | k in r ensures exists i :: 0 <= i < |dicts| && k in dicts[i] {
      if k !in dicts[0] {
        var i :| 0 <= i < |dicts[1..]| && k in dicts[1..][i];
        assert k in dicts[i + 1];
      }
    }
    forall i, k | 0 <= i < |dicts| && k in dicts[i] ensures k in r {
      if i > 0 {
        assert k in dicts[1..][i - 1];
      }
    }
    forall i, k | 0 <= i < |dicts| && k in dicts[i] && AbsentBefore(dicts, i, k) ensures r[k] == dicts[i][k] {
      if i > 0 {
        assert k in dicts[1..][i - 1];
        assert AbsentBefore(dicts[1..], i - 1, k);
      }
    }
  }

  /** Merging no dictionaries gives the empty dictionary; merging no lists gives the empty list. */
  lemma MergeEmpty<K(!new), V, T>()
    ensures MergeDicts<K, V>([]) == map[]
    ensures MergeLists<T>([]) == []
  {
  }
}
