/**
 * The deduplication step of `writeToCSV`: one record per rating key, the one
 * with the greatest effective timestamp, the first seen on a tie.
 */
module Dedup {
  import opened History

  /** The rating keys that occur in a sequence of records. */
  function KeysOf(items: seq<HistoryItem>): set<int> {
    set i | 0 <= i < |items| :: items[i].ratingKey
  }

  /** Reference definition of the record kept for key `k`: `items[j]` has key
      `k`, no record with key `k` is more recent, and every earlier record
      with key `k` is strictly older (first seen wins a tie). */
  ghost predicate IsFirstMax(items: seq<HistoryItem>, k: int, j: int) {
    && 0 <= j < |items|
    && items[j].ratingKey == k
    && (forall t :: 0 <= t < |items| && items[t].ratingKey == k ==>
          EffectiveTimestamp(items[t]) <= EffectiveTimestamp(items[j]))
    && (forall t :: 0 <= t < j && items[t].ratingKey == k ==>
          EffectiveTimestamp(items[t]) < EffectiveTimestamp(items[j]))
  }

  /** The map the streaming reduction ends with: each record replaces the
      stored one for its key when there is none or when it is strictly more
      recent. */
  function Deduplicated(items: seq<HistoryItem>): map<int, HistoryItem>
    decreases |items|
  {
    if items == [] then map[]
    else
      var m := Deduplicated(items[..|items| - 1]);
      var x := items[|items| - 1];
      if x.ratingKey !in m || EffectiveTimestamp(x) > EffectiveTimestamp(m[x.ratingKey])
      then m[x.ratingKey := x]
      else m
  }

  /** Every key of `m` holds a first most recent record of `items` with that key. */
  ghost predicate KeepsFirstMax(items: seq<HistoryItem>, m: map<int, HistoryItem>) {
    forall k :: k in m ==> exists j :: IsFirstMax(items, k, j) && m[k] == items[j]
  }

  lemma KeysOfAppend(p: seq<HistoryItem>, x: HistoryItem)
    ensures KeysOf(p + [x]) == KeysOf(p) + {x.ratingKey}
  {
    var items := p + [x];
    assert items[|p|] == x;
    forall k | k in KeysOf(items) ensures k in KeysOf(p) + {x.ratingKey} {
      var t :| 0 <= t < |items| && items[t].ratingKey == k;
      if t < |p| { assert p[t].ratingKey == k; }
    }
    forall k | k in KeysOf(p) ensures k in KeysOf(items) {
      var t :| 0 <= t < |p| && p[t].ratingKey == k;
      assert items[t].ratingKey == k;
    }
  }

  /** A record that is not more recent than the kept one leaves it kept. */
  lemma FirstMaxStays(p: seq<HistoryItem>, x: HistoryItem, k: int, j: int)
    requires IsFirstMax(p, k, j)
    requires x.ratingKey != k || EffectiveTimestamp(x) <= EffectiveTimestamp(p[j])
    ensures IsFirstMax(p + [x], k, j)
  {
    var items := p + [x];
    assert forall t :: 0 <= t < |p| ==> items[t] == p[t];
  }

  /** A record whose key is new, or which is strictly more recent than the
      kept one, becomes the kept one. */
  lemma FirstMaxMoves(p: seq<HistoryItem>, x: HistoryItem, j: int)
    requires x.ratingKey !in KeysOf(p) ||
             (IsFirstMax(p, x.ratingKey, j) && EffectiveTimestamp(x) > EffectiveTimestamp(p[j]))
    ensures IsFirstMax(p + [x], x.ratingKey, |p|)
  {
    var items := p + [x];
    assert forall t :: 0 <= t < |p| ==> items[t] == p[t];
    if x.ratingKey !in KeysOf(p) {
      forall t | 0 <= t < |p| ensures p[t].ratingKey != x.ratingKey {
        assert p[t].ratingKey in KeysOf(p);
      }
    }
  }

  /** The reduction keeps exactly the keys of the input, stores each record
      under its own key, and keeps for every key the first most recent record. */
  lemma {:induction false} DeduplicatedIsFirstMax(items: seq<HistoryItem>)
    ensures Deduplicated(items).Keys == KeysOf(items)
    ensures KeyedByRatingKey(Deduplicated(items))
    ensures KeepsFirstMax(items, Deduplicated(items))
    decreases |items|
  {
    if items != [] {
      var n := |items|;
      var p := items[..n - 1];
      var x := items[n - 1];
      assert items == p + [x];
      DeduplicatedIsFirstMax(p);
      KeysOfAppend(p, x);
      var m0 := Deduplicated(p);
      var m := Deduplicated(items);
      forall k | k in m
        ensures exists j :: IsFirstMax(items, k, j) && m[k] == items[j]
      {
        if k == x.ratingKey && k !in m0 {
          FirstMaxMoves(p, x, 0);
          assert m[k] == items[n - 1];
        } else {
          var j :| IsFirstMax(p, k, j) && m0[k] == p[j];
          if k == x.ratingKey && EffectiveTimestamp(x) > EffectiveTimestamp(m0[k]) {
            FirstMaxMoves(p, x, j);
            assert m[k] == items[n - 1];
          } else {
            FirstMaxStays(p, x, k, j);
            assert m[k] == items[j];
          }
        }
      }
    }
  }

  /** The reference definition picks at most one index per key. */
  lemma FirstMaxUnique(items: seq<HistoryItem>, k: int, i: int, j: int)
    requires IsFirstMax(items, k, i) && IsFirstMax(items, k, j)
    ensures i == j
  {
  }

  /** Conversely, any map that keeps exactly the input's keys and, for each,
      a first most recent record, is the one the reduction computes. */
  lemma DeduplicatedCharacterised(items: seq<HistoryItem>, m: map<int, HistoryItem>)
    requires m.Keys == KeysOf(items)
    requires KeepsFirstMax(items, m)
    ensures m == Deduplicated(items)
  {
    var d := Deduplicated(items);
    DeduplicatedIsFirstMax(items);
    forall k | k in m ensures m[k] == d[k] {
      var i :| IsFirstMax(items, k, i) && m[k] == items[i];
      var j :| IsFirstMax(items, k, j) && d[k] == items[j];
      FirstMaxUnique(items, k, i, j);
    }
  }

  /** A sequence holding each value of a map keyed by rating key once holds
      only those values and covers exactly the map's keys. */
  lemma PermutationOfValues(m: map<int, HistoryItem>, s: seq<HistoryItem>)
    requires KeyedByRatingKey(m)
    requires multiset(s) == multiset(m.Values)
    ensures forall i :: 0 <= i < |s| ==> s[i].ratingKey in m && m[s[i].ratingKey] == s[i]
    ensures KeysOf(s) == m.Keys
  {
    forall i | 0 <= i < |s| ensures s[i].ratingKey in m && m[s[i].ratingKey] == s[i] {
      assert s[i] in multiset(s);
      assert s[i] in m.Values;
      if s[i].ratingKey !in m || m[s[i].ratingKey] != s[i] {
        assert forall k :: k in m ==> m[k] != s[i];
      }
    }
    forall k | k in m ensures k in KeysOf(s) {
      assert m[k] in m.Values;
      assert m[k] in multiset(s);
      var i :| 0 <= i < |s| && s[i] == m[k];
    }
  }

  /** Deduplicating any ordering of the values of a map keyed by rating key
      gives back that map. */
  lemma DedupeOfValues(m: map<int, HistoryItem>, s: seq<HistoryItem>)
    requires KeyedByRatingKey(m)
    requires multiset(s) == multiset(m.Values)
    ensures Deduplicated(s) == m
  {
    PermutationOfValues(m, s);
    DeduplicatedIsFirstMax(s);
    var d := Deduplicated(s);
    assert d.Keys == m.Keys;
    forall k | k in d ensures d[k] == m[k] {
      var j :| IsFirstMax(s, k, j) && d[k] == s[j];
    }
  }

  /** Deduplicating again any ordering of the deduplicated records changes
      nothing: dedup followed by sort is idempotent. */
  lemma DedupeOfPermutation(items: seq<HistoryItem>, s: seq<HistoryItem>)
    requires multiset(s) == multiset(Deduplicated(items).Values)
    ensures Deduplicated(s) == Deduplicated(items)
  {
    DeduplicatedIsFirstMax(items);
    DedupeOfValues(Deduplicated(items), s);
  }

  /** The loop of `writeToCSV` that fills `dedupedMap`. */
  method Dedupe(items: seq<HistoryItem>) returns (m: map<int, HistoryItem>)
    ensures m == Deduplicated(items)
  {
    m := map[];
    for i := 0 to |items|
      invariant m == Deduplicated(items[..i])
    {
      var item := items[i];
      var found := item.ratingKey in m;
      var currentTs := item.stopped;
      if currentTs == 0 {
        currentTs := item.date;
      }
      var existingTs := 0;
      if found {
        var existing := m[item.ratingKey];
        existingTs := existing.stopped;
        if existingTs == 0 {
          existingTs := existing.date;
        }
      }
      if !found || currentTs > existingTs {
        m := m[item.ratingKey := item];
      }
      assert items[..i + 1][..i] == items[..i];
    }
    assert items[..|items|] == items;
  }
}
