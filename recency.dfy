/**
 * The second half of `writeToCSV`'s preparation: the deduplicated map's
 * values are gathered into a slice and sorted in place, newest first.
 */
module Recency {
  import opened History

  /** `s` lists the values of `m`, each once, newest first. */
  ghost predicate IsRecencyOrder(s: seq<HistoryItem>, m: map<int, HistoryItem>) {
    multiset(s) == multiset(m.Values) && NewestFirst(s)
  }

  /** The `range dedupedMap` loop: Go visits the keys in an unspecified
      order, so the model picks any remaining key at each step. */
  method CollectValues(m: map<int, HistoryItem>) returns (s: seq<HistoryItem>)
    requires KeyedByRatingKey(m)
    ensures multiset(s) == multiset(m.Values)
    ensures |s| == |m|
  {
    s := [];
    var rest := m.Keys;
    ghost var seen: set<HistoryItem> := {};
    while rest != {}
      invariant rest <= m.Keys
      invariant seen == set k | k in m.Keys - rest :: m[k]
      invariant multiset(s) == multiset(seen)
      invariant |s| + |rest| == |m.Keys|
      decreases rest
    {
      NonEmptyHasMember(rest);
      var k :| k in rest;
      assert m[k] !in seen;
      s := s + [m[k]];
      seen := seen + {m[k]};
      rest := rest - {k};
    }
    assert m.Keys - rest == m.Keys;
    forall v | v in m.Values ensures v in seen {
      if v !in seen {
        assert forall k :: k in m ==> m[k] != v;
      }
    }
    assert seen == m.Values;
  }

  lemma EmptyIfNoMember(keys: set<int>)
    requires forall k :: k !in keys
    ensures keys == {}
  {
    var none: set<int> := {};
    assert forall k :: k in keys <==> k in none;
  }

  lemma NonEmptyHasMember(keys: set<int>)
    requires keys != {}
    ensures exists k :: k in keys
  {
    if forall k :: k !in keys {
      EmptyIfNoMember(keys);
      assert false;
    }
  }

  /** Exchange two neighbouring elements. */
  method SwapDown(a: array<HistoryItem>, j: int)
    requires 0 < j < a.Length
    modifies a
    ensures a[..] == old(a[..])[j - 1 := old(a[j])][j := old(a[j - 1])]
    ensures multiset(a[..]) == multiset(old(a[..]))
  {
    a[j - 1], a[j] := a[j], a[j - 1];
  }

  /** `sort.Slice` with the "newer first" comparison. Go's algorithm is not
      stable and leaves equal timestamps in no particular order; this
      insertion sort is one admissible behaviour, and its contract only
      promises what any of them gives: a permutation, newest first. */
  method SortByRecency(a: array<HistoryItem>)
    modifies a
    ensures NewestFirst(a[..])
    ensures multiset(a[..]) == multiset(old(a[..]))
  {
    for i := 0 to a.Length
      invariant NewestFirst(a[..i])
      invariant multiset(a[..]) == multiset(old(a[..]))
    {
      var j := i;
      while j > 0 && EffectiveTimestamp(a[j - 1]) < EffectiveTimestamp(a[j])
        invariant 0 <= j <= i
        invariant multiset(a[..]) == multiset(old(a[..]))
        invariant forall p, q :: 0 <= p < q <= i && q != j ==>
                    EffectiveTimestamp(a[p]) >= EffectiveTimestamp(a[q])
        invariant 0 < j < i ==> EffectiveTimestamp(a[j - 1]) >= EffectiveTimestamp(a[j + 1])
      {
        SwapDown(a, j);
        j := j - 1;
      }
    }
  }

  /** The values of the deduplicated map as the slice `writeToCSV` sorts:
      gathered in map order, then sorted in place, newest first. */
  method SortedValues(m: map<int, HistoryItem>) returns (order: seq<HistoryItem>)
    requires KeyedByRatingKey(m)
    ensures IsRecencyOrder(order, m)
    ensures |order| == |m|
  {
    var values := CollectValues(m);
    var sortedItems := new HistoryItem[|values|](i requires 0 <= i < |values| => values[i]);
    assert sortedItems[..] == values;
    SortByRecency(sortedItems);
    order := sortedItems[..];
  }
}
