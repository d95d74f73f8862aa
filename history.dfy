/** One playback event as the statistics API reports it. */
module History {
  import opened Coerce

  datatype HistoryItem = HistoryItem(
    title: string,
    mediaType: string,
    started: int,
    stopped: int,
    date: int,
    ratingKey: int,
    parentTitle: string,
    grandparentTitle: string,
    mediaIndex: Loose,
    parentMediaIndex: Loose)

  /** The recency of a record: when playback stopped, or its date when no
      stop time was recorded. Dedup and sort both compare by this. */
  function EffectiveTimestamp(x: HistoryItem): int {
    if x.stopped != 0 then x.stopped else x.date
  }

  /** The map's values are stored under their own rating key. */
  predicate KeyedByRatingKey(m: map<int, HistoryItem>) {
    forall k :: k in m ==> m[k].ratingKey == k
  }

  /** Newest first: non-increasing by effective timestamp. */
  predicate NewestFirst(s: seq<HistoryItem>) {
    forall i, j :: 0 <= i < j < |s| ==> EffectiveTimestamp(s[i]) >= EffectiveTimestamp(s[j])
  }
}
